/** The contents of one SyncForge store as a value (internal/storage/sqlite): the op log,
    the materialized records, the conflict audit rows and the server counter, and what each
    storage operation does to them.  Server and device use the same store type. */
module Store {
  import opened Wrappers
  import opened Oplog
  import opened Conflict

  /** One row of the oplog table; rows are in insertion order. */
  datatype Row = Row(op: Op, serverSeq: nat, pushed: bool)

  datatype ConflictRow = ConflictRow(
    collection: string, recordId: string, winningOpId: string, losingOpId: string, detectedAtSeq: nat)

  datatype Store = Store(
    oplog: seq<Row>, records: map<Key, Record>, conflicts: seq<ConflictRow>, next: nat)

  /** A freshly opened store; the server counter is seeded with 1. */
  const EMPTY := Store([], map[], [], 1)

  // ---------------------------------------------------------------- reading the log

  function Ops(log: seq<Row>): (xs: seq<Op>)
    ensures |xs| == |log| && forall i :: 0 <= i < |log| ==> xs[i] == log[i].op
  {
    seq(|log|, i requires 0 <= i < |log| => log[i].op)
  }

  predicate HasId(log: seq<Row>, id: string) {
    exists i :: 0 <= i < |log| && log[i].op.id == id
  }

  /** The server_seq stored with op `id`. */
  function SeqOf(log: seq<Row>, id: string): nat
    requires HasId(log, id)
  {
    if log[0].op.id == id then log[0].serverSeq
    else
      assert HasId(log[1..], id) by {
        var i :| 0 <= i < |log| && log[i].op.id == id;
        assert log[1..][i - 1].op.id == id;
      }
      SeqOf(log[1..], id)
  }

  lemma {:induction false} SeqOfFirst(log: seq<Row>, id: string, i: nat)
    requires i < |log| && log[i].op.id == id
    requires forall j :: 0 <= j < i ==> log[j].op.id != id
    ensures HasId(log, id) && SeqOf(log, id) == log[i].serverSeq
  {
    if i > 0 {
      SeqOfFirst(log[1..], id, i - 1);
    }
  }

  /** The ops of `xs` on record `k`, in order. */
  function OnKey(xs: seq<Op>, k: Key): seq<Op> {
    if xs == [] then []
    else
      var n := |xs| - 1;
      if KeyOf(xs[n]) == k then OnKey(xs[..n], k) + [xs[n]] else OnKey(xs[..n], k)
  }

  /** The device's outbox: its own ops not yet acknowledged, oldest first. */
  function Outbox(log: seq<Row>, deviceId: string): seq<Op> {
    if log == [] then []
    else
      var n := |log| - 1;
      if log[n].op.deviceId == deviceId && !log[n].pushed
      then Outbox(log[..n], deviceId) + [log[n].op]
      else Outbox(log[..n], deviceId)
  }

  predicate Matches(row: Row, since: int, collection: string) {
    row.serverSeq > since && row.serverSeq > 0 && (collection == "" || row.op.collection == collection)
  }

  /** The rows a pull from `since` is about; "" stands for every collection. */
  function Matching(log: seq<Row>, since: int, collection: string): seq<Row> {
    if log == [] then []
    else
      var n := |log| - 1;
      if Matches(log[n], since, collection)
      then Matching(log[..n], since, collection) + [log[n]]
      else Matching(log[..n], since, collection)
  }

  const DEFAULT_LIMIT := 100

  datatype Page = Page(rows: seq<Row>, next: int, hasMore: bool)

  /** The first page of the rows that match.  A limit that is not positive means the default. */
  function PageOf(all: seq<Row>, since: int, limit: int): Page {
    var size := if limit <= 0 then DEFAULT_LIMIT else limit;
    var rows := if |all| > size then all[..size] else all;
    Page(rows, if rows == [] then since else rows[|rows| - 1].serverSeq, |all| > size)
  }

  /** OpsSince, for a log whose rows are in server_seq order. */
  function PageSince(log: seq<Row>, since: int, collection: string, limit: int): Page {
    PageOf(Matching(log, since, collection), since, limit)
  }

  /** The row takes its place by server_seq, after rows with the same number. */
  function InsertBySeq(rows: seq<Row>, row: Row): seq<Row> {
    if rows == [] then [row]
    else
      var n := |rows| - 1;
      if rows[n].serverSeq <= row.serverSeq then rows + [row] else InsertBySeq(rows[..n], row) + [rows[n]]
  }

  /** The rows in server_seq order. */
  function BySeq(rows: seq<Row>): seq<Row> {
    if rows == [] then [] else InsertBySeq(BySeq(rows[..|rows| - 1]), rows[|rows| - 1])
  }

  /** The number of the last row, 0 for an empty log. */
  function LastSeq(log: seq<Row>): nat {
    if log == [] then 0 else log[|log| - 1].serverSeq
  }

  ghost predicate DistinctIds(ops: seq<Op>) {
    forall i, j :: 0 <= i < j < |ops| ==> ops[i].id != ops[j].id
  }

  /** Records are stored under their own keys. */
  ghost predicate Keyed(st: Store) {
    forall k :: Lookup(st, k).Some? ==> KeyOfRecord(Lookup(st, k).value) == k
  }

  // ---------------------------------------------------------------- changing the store

  datatype Appended = Appended(st: Store, serverSeq: nat, inserted: bool)

  /** AppendOp, for an op that validates: idempotent on the op id.  On the server
      (`assign`) the row gets the next sequence number, elsewhere the given one. */
  function Append(st: Store, op: Op, serverSeq: nat, assign: bool): Appended {
    if HasId(st.oplog, op.id) then
      Appended(st, SeqOf(st.oplog, op.id), false)
    else if assign then
      Appended(st.(oplog := st.oplog + [Row(op, st.next, false)], next := st.next + 1), st.next, true)
    else
      Appended(st.(oplog := st.oplog + [Row(op, serverSeq, false)]), serverSeq, true)
  }

  function Lookup(st: Store, k: Key): Option<Record> {
    if k in st.records then Some(st.records[k]) else None
  }

  function Put(st: Store, rec: Record): Store {
    st.(records := st.records[KeyOfRecord(rec) := rec])
  }

  function Mark(row: Row, ids: seq<string>): Row {
    if row.op.id in ids then row.(pushed := true) else row
  }

  /** MarkPushed. */
  function MarkAll(st: Store, ids: seq<string>): Store {
    st.(oplog := seq(|st.oplog|, i requires 0 <= i < |st.oplog| => Mark(st.oplog[i], ids)))
  }

  /** Store a decision about `op`: the record, and an audit row if it was a conflict. */
  function Settle(st: Store, d: Decision, op: Op, serverSeq: nat): Store {
    var put := Put(st, d.rec);
    if d.conflicted then
      put.(conflicts := put.conflicts
        + [ConflictRow(op.collection, op.recordId, d.winnerOpId, d.loserOpId, serverSeq)])
    else put
  }

  /** What both sides do with an op from elsewhere: append it and, if it was new, fold it
      into its record. */
  function Ingest(st: Store, op: Op, serverSeq: nat, assign: bool): Appended {
    var a := Append(st, op, serverSeq, assign);
    if a.inserted then
      a.(st := Settle(a.st, Resolve(Lookup(a.st, KeyOf(op)), op), op, a.serverSeq))
    else a
  }

  // ---------------------------------------------------------------- small facts

  lemma OpsAppend(log: seq<Row>, row: Row)
    ensures Ops(log + [row]) == Ops(log) + [row.op]
  {
  }

  lemma HasIdInOps(log: seq<Row>, id: string)
    ensures HasId(log, id) <==> exists p :: p in Ops(log) && p.id == id
  {
    if HasId(log, id) {
      var i :| 0 <= i < |log| && log[i].op.id == id;
      assert Ops(log)[i] in Ops(log);
    }
    if exists p :: p in Ops(log) && p.id == id {
      var p :| p in Ops(log) && p.id == id;
      var i :| 0 <= i < |log| && Ops(log)[i] == p;
      assert log[i].op.id == id;
    }
  }

  lemma OnKeyAppend(xs: seq<Op>, p: Op, k: Key)
    ensures OnKey(xs + [p], k) == if KeyOf(p) == k then OnKey(xs, k) + [p] else OnKey(xs, k)
  {
    assert (xs + [p])[..|xs|] == xs;
  }

  lemma {:induction false} OnKeyMembers(xs: seq<Op>, k: Key)
    ensures forall p :: p in OnKey(xs, k) <==> p in xs && KeyOf(p) == k
  {
    if xs != [] {
      OnKeyMembers(xs[..|xs| - 1], k);
      Front(xs);
    }
  }

  /** The outbox holds exactly the device's unacknowledged ops. */
  lemma {:induction false} OutboxMembers(log: seq<Row>, deviceId: string)
    ensures forall p :: p in Outbox(log, deviceId) <==>
      exists i :: 0 <= i < |log| && log[i].op == p && p.deviceId == deviceId && !log[i].pushed
  {
    if log != [] {
      var front, last := log[..|log| - 1], log[|log| - 1];
      OutboxMembers(front, deviceId);
      forall p ensures p in Outbox(log, deviceId) <==>
          exists i :: 0 <= i < |log| && log[i].op == p && p.deviceId == deviceId && !log[i].pushed
      {
        if p in Outbox(log, deviceId) {
          if p in Outbox(front, deviceId) {
            var i :| 0 <= i < |front| && front[i].op == p && p.deviceId == deviceId && !front[i].pushed;
            assert log[i] == front[i];
          } else {
            assert log[|log| - 1].op == p;
          }
        }
        if i :| 0 <= i < |log| && log[i].op == p && p.deviceId == deviceId && !log[i].pushed {
          if i < |front| {
            assert front[i] == log[i];
          }
        }
      }
    }
  }

  /** The outbox keeps log order: what a device logged before an outbox op is
      acknowledged, foreign, or earlier in the outbox. */
  lemma {:induction false} OutboxOrder(log: seq<Row>, deviceId: string, j: nat) returns (i: nat)
    requires j < |Outbox(log, deviceId)|
    ensures i < |log| && log[i].op == Outbox(log, deviceId)[j]
    ensures log[i].op.deviceId == deviceId && !log[i].pushed
    ensures forall m :: 0 <= m < i ==>
      log[m].pushed || log[m].op.deviceId != deviceId || log[m].op in Outbox(log, deviceId)[..j]
  {
    var n := |log| - 1;
    var front := log[..n];
    if j < |Outbox(front, deviceId)| {
      i := OutboxOrder(front, deviceId, j);
      assert Outbox(log, deviceId)[..j] == Outbox(front, deviceId)[..j];
    } else {
      i := n;
      OutboxMembers(front, deviceId);
      assert Outbox(log, deviceId)[..j] == Outbox(front, deviceId);
      forall m | 0 <= m < i ensures
        log[m].pushed || log[m].op.deviceId != deviceId || log[m].op in Outbox(log, deviceId)[..j]
      {
        assert front[m] == log[m];
      }
    }
  }
}
