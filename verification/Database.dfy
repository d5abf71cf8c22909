/** The store as the mutable object both sides hold (internal/storage/sqlite): each method
    is proved to do to the contents what the functions of module Store say. */
module Database {
  import opened Wrappers
  import opened Oplog
  import opened Store
  import opened Invariants
  import opened Paging

  /** What AppendOp returns of a valid op: the caller's op, the number stored with its id, and
      whether it was new. */
  datatype Stored = Stored(op: Op, serverSeq: nat, inserted: bool)

  class DB {
    var oplog: seq<Row>
    var records: map<Key, Record>
    var conflicts: seq<ConflictRow>
    var next: nat
    /** The key/value row that holds the pull checkpoint. */
    var savedCheckpoint: Option<int>

    function Contents(): Store
      reads this
    {
      Store(oplog, records, conflicts, next)
    }

    /** Every row was validated before it was stored, op ids are unique in the log, and
        records are stored under their own keys. */
    ghost predicate Valid()
      reads this
    {
      && (forall i :: 0 <= i < |oplog| ==> Validates(oplog[i].op))
      && DistinctIds(Ops(oplog))
      && forall k :: k in records ==> KeyOfRecord(records[k]) == k
    }

    constructor ()
      ensures Valid() && Contents() == EMPTY && savedCheckpoint == None
    {
      oplog, records, conflicts, next := [], map[], [], 1;
      savedCheckpoint := None;
    }

    /** nextServerSeq: bump the counter, then read it back. */
    method NextServerSeq() returns (s: nat)
      modifies this`next
      ensures s == old(next) && next == s + 1
    {
      next := next + 1;
      s := next - 1;
    }

    method AppendOp(op: Op, serverSeq: nat, assign: bool) returns (r: Result<Stored, string>)
      requires Valid()
      modifies this`oplog, this`next
      ensures Valid()
      ensures r.Ok? <==>
        && op.id != "" && op.deviceId != "" && op.collection != "" && op.recordId != ""
        && (op.kind == Kind.Delete || op.payload.Some?)
        && op.hlc.nodeId != ""
      ensures r.Err? ==> Contents() == old(Contents())
      ensures r.Ok? ==> r.value.op == op && records == old(records) && conflicts == old(conflicts)
      ensures r.Ok? && (exists i :: 0 <= i < |old(oplog)| && old(oplog)[i].op.id == op.id) ==>
        && oplog == old(oplog) && next == old(next) && !r.value.inserted
        && exists i :: 0 <= i < |oplog| && oplog[i].op.id == op.id && oplog[i].serverSeq == r.value.serverSeq
      ensures r.Ok? && !(exists i :: 0 <= i < |old(oplog)| && old(oplog)[i].op.id == op.id) ==>
        && r.value.inserted && r.value.serverSeq == (if assign then old(next) else serverSeq)
        && oplog == old(oplog) + [Row(op, r.value.serverSeq, false)]
        && next == old(next) + if assign then 1 else 0
      ensures r.Ok? ==> var a := Append(old(Contents()), op, serverSeq, assign);
        Contents() == a.st && r.value == Stored(op, a.serverSeq, a.inserted)
    {
      if !Validates(op) {
        return Err("invalid op");
      }
      var i := 0;
      while i < |oplog|
        invariant 0 <= i <= |oplog|
        invariant forall j :: 0 <= j < i ==> oplog[j].op.id != op.id
      {
        if oplog[i].op.id == op.id {
          SeqOfFirst(oplog, op.id, i);
          assert exists j :: 0 <= j < |oplog| && oplog[j].op.id == op.id && oplog[j].serverSeq == oplog[i].serverSeq;
          return Ok(Stored(op, oplog[i].serverSeq, false));
        }
        i := i + 1;
      }
      var s := serverSeq;
      if assign {
        s := NextServerSeq();
      }
      NewIdIsDistinct(oplog, Row(op, s, false));
      oplog := oplog + [Row(op, s, false)];
      return Ok(Stored(op, s, true));
    }

    /** The record of the key that was asked for, as the last PutRecord on it left it. */
    method GetRecord(k: Key) returns (r: Option<Record>)
      requires Valid()
      ensures r == Lookup(Contents(), k)
      ensures r.Some? ==> r.value.collection == k.collection && r.value.recordId == k.recordId
    {
      r := if k in records then Some(records[k]) else None;
    }

    /** Upsert on (collection, record_id). */
    method PutRecord(rec: Record)
      requires Valid()
      modifies this`records
      ensures Valid() && Contents() == Put(old(Contents()), rec)
      ensures Lookup(Contents(), KeyOfRecord(rec)) == Some(rec)
      ensures forall k :: k != KeyOfRecord(rec) ==> Lookup(Contents(), k) == Lookup(old(Contents()), k)
    {
      records := records[KeyOfRecord(rec) := rec];
    }

    method RecordConflict(c: ConflictRow)
      modifies this`conflicts
      ensures conflicts == old(conflicts) + [c]
    {
      conflicts := conflicts + [c];
    }

    /** ORDER BY: put a row in its place among rows that are in order. */
    method Insert(rows: seq<Row>, row: Row) returns (r: seq<Row>)
      ensures r == InsertBySeq(rows, row)
    {
      var i := |rows|;
      while i > 0 && rows[i - 1].serverSeq > row.serverSeq
        invariant 0 <= i <= |rows|
        invariant forall j :: i <= j < |rows| ==> rows[j].serverSeq > row.serverSeq
      {
        i := i - 1;
      }
      InsertedAt(rows, row, i);
      r := rows[..i] + [row] + rows[i..];
    }

    /** The rows the query selects, in its order. */
    method Select(since: int, collection: string) returns (all: seq<Row>)
      ensures all == BySeq(Matching(oplog, since, collection))
    {
      hide InsertBySeq;
      all := [];
      var i := 0;
      while i < |oplog|
        invariant 0 <= i <= |oplog|
        invariant all == BySeq(Matching(oplog[..i], since, collection))
      {
        assert oplog[..i + 1][..i] == oplog[..i];
        if Matches(oplog[i], since, collection) {
          ghost var before := Matching(oplog[..i], since, collection);
          assert (before + [oplog[i]])[..|before|] == before;
          all := Insert(all, oplog[i]);
        }
        i := i + 1;
      }
      assert oplog[..i] == oplog;
    }

    /** The selected rows are read one beyond the page size to learn whether there are more. */
    method OpsSince(since: int, collection: string, limit: int) returns (page: Page)
      ensures page == PageOf(BySeq(Matching(oplog, since, collection)), since, limit)
      ensures IsPage(page, oplog, since, collection, limit)
      ensures forall r :: r in page.rows ==>
        r in oplog && r.serverSeq > since && r.serverSeq > 0 && (collection == "" || r.op.collection == collection)
      ensures Ascending(oplog) ==> page == PageSince(oplog, since, collection, limit)
    {
      hide BySeq, Matching, Ascending, IsPage;
      var size := limit;
      if size <= 0 {
        size := DEFAULT_LIMIT;
      }
      var all := Select(since, collection);
      var ops := if |all| > size + 1 then all[..size + 1] else all;
      var nextCheckpoint, hasMore := since, false;
      if |ops| > size {
        hasMore := true;
        ops := ops[..size];
        assert ops == all[..size];
      }
      if |ops| > 0 {
        nextCheckpoint := ops[|ops| - 1].serverSeq;
      }
      page := Page(ops, nextCheckpoint, hasMore);
      PageIsPage(oplog, since, collection, limit);
      PageRowsSelected(page, oplog, since, collection, limit);
      if Ascending(oplog) {
        MatchingOrdered(oplog, since, collection);
        BySeqOfOrdered(Matching(oplog, since, collection));
      }
    }

    method UnpushedOps(deviceId: string) returns (ops: seq<Op>)
      ensures ops == Outbox(oplog, deviceId)
    {
      ops := [];
      var i := 0;
      while i < |oplog|
        invariant 0 <= i <= |oplog|
        invariant ops == Outbox(oplog[..i], deviceId)
      {
        assert oplog[..i + 1][..i] == oplog[..i];
        if oplog[i].op.deviceId == deviceId && !oplog[i].pushed {
          ops := ops + [oplog[i].op];
        }
        i := i + 1;
      }
      assert oplog[..i] == oplog;
    }

    /** One update per id. */
    method MarkPushed(ids: seq<string>)
      requires Valid()
      modifies this`oplog
      ensures Valid() && Contents() == MarkAll(old(Contents()), ids)
      ensures |oplog| == |old(oplog)| && forall i :: 0 <= i < |oplog| ==>
        && oplog[i].op == old(oplog)[i].op && oplog[i].serverSeq == old(oplog)[i].serverSeq
        && (oplog[i].pushed <==> old(oplog)[i].pushed || oplog[i].op.id in ids)
    {
      ghost var before := Contents();
      var i := 0;
      while i < |ids|
        invariant 0 <= i <= |ids|
        invariant oplog == MarkAll(old(Contents()), ids[..i]).oplog
      {
        assert ids[..i + 1] == ids[..i] + [ids[i]];
        var rows := oplog;
        oplog := seq(|rows|, j requires 0 <= j < |rows| =>
          if rows[j].op.id == ids[i] then rows[j].(pushed := true) else rows[j]);
        i := i + 1;
      }
      assert ids[..i] == ids;
      assert Ops(oplog) == Ops(before.oplog);
    }

    /** On a store whose numbers were all assigned here: the number of the last row. */
    method CurrentCheckpoint() returns (c: int)
      ensures Dense(Contents()) ==> c == LastSeq(oplog) == |oplog|
    {
      c := next - 1;
    }
  }

  lemma NewIdIsDistinct(log: seq<Row>, row: Row)
    requires DistinctIds(Ops(log)) && forall i :: 0 <= i < |log| ==> log[i].op.id != row.op.id
    ensures DistinctIds(Ops(log + [row])) && !HasId(log, row.op.id)
  {
    OpsAppend(log, row);
  }

  /** Where the insertion loop stands: everything from i on sorts after the row. */
  lemma {:induction false} InsertedAt(rows: seq<Row>, row: Row, i: nat)
    requires i <= |rows| && forall j :: i <= j < |rows| ==> rows[j].serverSeq > row.serverSeq
    requires i > 0 ==> rows[i - 1].serverSeq <= row.serverSeq
    ensures InsertBySeq(rows, row) == rows[..i] + [row] + rows[i..]
  {
    if i < |rows| {
      var n := |rows| - 1;
      InsertedAt(rows[..n], row, i);
      assert rows[..n][..i] == rows[..i] && rows[i..] == rows[..n][i..] + [rows[n]];
    } else {
      assert rows[..i] == rows;
    }
  }
}
