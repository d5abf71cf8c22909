/** The sync server without HTTP (internal/server/sync.go). */
module Server {
  import opened Wrappers
  import opened Oplog
  import opened Conflict
  import opened Store
  import opened Causality
  import opened Protocol
  import opened Invariants
  import opened Sync
  import opened Retries
  import opened Rounds
  import opened Paging
  import opened Database

  datatype ConflictInfo = ConflictInfo(collection: string, recordId: string, winningOpId: string, losingOpId: string)

  function InfoOf(c: ConflictRow): ConflictInfo {
    ConflictInfo(c.collection, c.recordId, c.winningOpId, c.losingOpId)
  }

  /** The report about audit rows: one entry each, in order, with the row's record, winner
      and loser. */
  function Infos(rows: seq<ConflictRow>): (report: seq<ConflictInfo>)
    ensures |report| == |rows|
    ensures forall i :: 0 <= i < |rows| ==>
      && report[i].collection == rows[i].collection && report[i].recordId == rows[i].recordId
      && report[i].winningOpId == rows[i].winningOpId && report[i].losingOpId == rows[i].losingOpId
  {
    seq(|rows|, i requires 0 <= i < |rows| => InfoOf(rows[i]))
  }

  datatype PushResponse = PushResponse(accepted: seq<string>, conflicts: seq<ConflictInfo>, serverCheckpoint: int)

  class SyncServer {
    const db: DB

    /** All numbers in the server's log were assigned by its own counter. */
    ghost predicate Valid()
      reads db
    {
      db.Valid() && Dense(db.Contents())
    }

    constructor (db: DB)
      requires db.Valid() && Dense(db.Contents())
      ensures this.db == db && Valid()
    {
      this.db := db;
    }

    /** Log one admissible op and, if it was new, fold it into its record. */
    method StoreOp(op: Op) returns (conflict: Option<ConflictRow>)
      requires Valid() && Validates(op)
      modifies db`oplog, db`next, db`records, db`conflicts
      ensures Valid() && db.Contents() == Ingest(old(db.Contents()), op, 0, true).st
      ensures db.conflicts == old(db.conflicts) + if conflict.Some? then [conflict.value] else []
      ensures HasId(old(db.oplog), op.id) ==> conflict.None? && db.Contents() == old(db.Contents())
      ensures !HasId(old(db.oplog), op.id) ==>
        var k, d := Key(op.collection, op.recordId),
          Resolve(Lookup(old(db.Contents()), Key(op.collection, op.recordId)), op);
        && db.oplog == old(db.oplog) + [Row(op, old(db.next), false)] && db.next == old(db.next) + 1
        && Lookup(db.Contents(), k) == Some(d.rec)
        && (forall j :: j != k ==> Lookup(db.Contents(), j) == Lookup(old(db.Contents()), j))
        && conflict == if d.conflicted
             then Some(ConflictRow(op.collection, op.recordId, d.winnerOpId, d.loserOpId, old(db.next))) else None
    {
      hide Resolve, DistinctIds, SeqOf, HasId;
      conflict := None;
      IngestKeepsDense(db.Contents(), op);
      KeyIsKept(db.Contents(), op);
      IngestIs(db.Contents(), op, 0, true);
      var appended := db.AppendOp(op, 0, true);
      var stored := appended.value;
      if stored.inserted {
        var existing := db.GetRecord(KeyOf(op));
        var decision := Resolve(existing, op);
        db.PutRecord(decision.rec);
        if decision.conflicted {
          var row := AuditRow(decision, op, stored.serverSeq);
          db.RecordConflict(row);
          conflict := Some(row);
        }
      }
    }

    /** Accepts a batch from an authenticated device, stopping at the first op it refuses.
        What was stored before a refusal stays stored. */
    method HandlePush(device: string, ops: seq<Op>) returns (r: Result<PushResponse, string>)
      requires Valid()
      modifies db
      ensures Valid() && db.savedCheckpoint == old(db.savedCheckpoint)
      ensures var reply := HandleOps(old(db.Contents()), device, ops);
        && db.Contents() == reply.st
        && (r.Ok? <==> reply.ok)
        && (r.Ok? ==> r.value.accepted == reply.accepted && r.value.serverCheckpoint == |db.oplog|)
      ensures r.Ok? <==> forall i :: 0 <= i < |ops| ==>
        && ops[i].deviceId == device && device != ""
        && ops[i].id != "" && ops[i].collection != "" && ops[i].recordId != "" && ops[i].hlc.nodeId != ""
        && (ops[i].kind == Kind.Delete || ops[i].payload.Some?)
      ensures r.Ok? ==> |r.value.accepted| == |ops| && forall i :: 0 <= i < |ops| ==>
        r.value.accepted[i] == ops[i].id && HasId(db.oplog, ops[i].id)
      ensures old(db.conflicts) <= db.conflicts
      ensures r.Ok? ==> r.value.conflicts == Infos(db.conflicts[|old(db.conflicts)|..])
      ensures r.Ok? ==> |r.value.conflicts| == |db.conflicts| - |old(db.conflicts)|
      ensures r.Ok? ==> forall i :: 0 <= i < |r.value.conflicts| ==>
        var c, row := r.value.conflicts[i], db.conflicts[|old(db.conflicts)| + i];
        && c.collection == row.collection && c.recordId == row.recordId
        && c.winningOpId == row.winningOpId && c.losingOpId == row.losingOpId
    {
      hide HandleOps, Validates, Ingest, Resolve, Lookup, HasId, Dense, DistinctIds;
      ghost var before := db.Contents();
      var accepted: seq<string> := [];
      var conflicts: seq<ConflictInfo> := [];
      assert db.conflicts[|db.conflicts|..] == [];
      NothingHandled(before, device, ops[..0]);
      var i := 0;
      while i < |ops|
        invariant 0 <= i <= |ops| && Valid() && db.savedCheckpoint == old(db.savedCheckpoint)
        invariant HandleOps(before, device, ops[..i]) == PushReply(db.Contents(), accepted, true)
        invariant before.conflicts <= db.conflicts
        invariant conflicts == Infos(db.conflicts[|before.conflicts|..])
      {
        var op := ops[i];
        ghost var known := db.conflicts;
        assert ops[..i + 1] == ops[..i] + [op];
        HandleOpsAppend(before, device, ops[..i], op);
        AdmissibleIs(ops, device);
        if !Validates(op) {
          StopsAt(before, device, ops, i);
          return Err("invalid op");
        }
        if op.deviceId != device {
          StopsAt(before, device, ops, i);
          return Err("op device_id does not match authenticated device");
        }
        var conflict := StoreOp(op);
        if conflict.Some? {
          conflicts := conflicts + [InfoOf(conflict.value)];
          ReportGrows(known, |before.conflicts|, conflict.value);
        } else {
          assert db.conflicts == known;
        }
        accepted := accepted + [op.id];
        i := i + 1;
      }
      assert ops[..i] == ops;
      AcceptedAreAll(before, device, ops);
      HandledAreStored(before, device, ops);
      AdmissibleIs(ops, device);
      var checkpoint := db.CurrentCheckpoint();
      return Ok(PushResponse(accepted, conflicts, checkpoint));
    }

    /** A push whose request breaks off inside op n: the ops before it are handled, op n is
        logged, and its record is not reached. */
    method CutPush(device: string, ops: seq<Op>, n: nat)
      requires Valid() && n < |ops| && forall p :: p in ops ==> Admissible(p, device)
      modifies db
      ensures Valid() && db.savedCheckpoint == old(db.savedCheckpoint) && old(db.conflicts) <= db.conflicts
      ensures db.Contents() == Append(HandleOps(old(db.Contents()), device, ops[..n]).st, ops[n], 0, true).st
    {
      hide HandleOps;
      var _ := HandlePush(device, ops[..n]);
      AppendKeepsDense(db.Contents(), ops[n]);
      assert ops[n] in ops;
      var _ := db.AppendOp(ops[n], 0, true);
    }

    method HandlePull(since: int, collection: string, limit: int) returns (page: Page)
      requires Valid()
      ensures page == PageSince(db.oplog, since, collection, limit)
      ensures IsPage(page, db.oplog, since, collection, limit)
      ensures forall r :: r in page.rows ==>
        r in db.oplog && r.serverSeq > since && r.serverSeq > 0 && (collection == "" || r.op.collection == collection)
      ensures forall r | r in db.oplog && r !in page.rows ::
        || r.serverSeq <= since || (collection != "" && r.op.collection != collection)
        || (page.hasMore && r.serverSeq > page.next)
    {
      hide Ordered, Matching, BySeq, PageOf;
      page := db.OpsSince(since, collection, limit);
    }
  }

  lemma ReportGrows(known: seq<ConflictRow>, m: nat, c: ConflictRow)
    requires m <= |known|
    ensures Infos((known + [c])[m..]) == Infos(known[m..]) + [InfoOf(c)]
    ensures (known + [c])[..m] == known[..m]
  {
    assert (known + [c])[m..] == known[m..] + [c];
  }

  lemma AppendKeepsDense(st: Store, op: Op)
    requires Dense(st)
    ensures Dense(Append(st, op, 0, true).st)
  {
  }

  lemma KeyIsKept(st: Store, op: Op)
    requires forall k :: k in st.records ==> KeyOfRecord(st.records[k]) == k
    ensures KeyOfRecord(Resolve(Lookup(st, KeyOf(op)), op).rec) == KeyOf(op)
  {
    ResolvedKey(Lookup(st, KeyOf(op)), op);
  }

  /** What ingesting an op does, part by part. */
  lemma IngestIs(st: Store, op: Op, serverSeq: nat, assign: bool)
    requires KeyOfRecord(Resolve(Lookup(st, KeyOf(op)), op).rec) == KeyOf(op)
    ensures HasId(st.oplog, op.id) ==> Ingest(st, op, serverSeq, assign).st == st
    ensures !HasId(st.oplog, op.id) ==>
      var k, s := Key(op.collection, op.recordId), if assign then st.next else serverSeq;
      var now, d := Ingest(st, op, serverSeq, assign).st, Resolve(Lookup(st, k), op);
      && now.oplog == st.oplog + [Row(op, s, false)] && now.next == st.next + (if assign then 1 else 0)
      && Lookup(now, k) == Some(d.rec) && (forall j :: j != k ==> Lookup(now, j) == Lookup(st, j))
      && now.conflicts == st.conflicts
           + if d.conflicted then [ConflictRow(op.collection, op.recordId, d.winnerOpId, d.loserOpId, s)] else []
  {
    hide Resolve;
  }

  lemma IngestKeepsDense(st: Store, op: Op)
    requires Dense(st)
    ensures Dense(Ingest(st, op, 0, true).st)
  {
    hide Resolve;
  }

  /** Which ops the handler takes from an authenticated device. */
  lemma AdmissibleIs(ops: seq<Op>, device: string)
    ensures forall i :: 0 <= i < |ops| ==> (Admissible(ops[i], device) <==>
      && ops[i].deviceId == device && device != ""
      && ops[i].id != "" && ops[i].collection != "" && ops[i].recordId != "" && ops[i].hlc.nodeId != ""
      && (ops[i].kind == Kind.Delete || ops[i].payload.Some?))
  {
  }

  /** Once refused, the rest of a batch is not looked at. */
  lemma {:induction false} StopsAt(st: Store, device: string, ops: seq<Op>, i: nat)
    requires i < |ops| && HandleOps(st, device, ops[..i]).ok && !Admissible(ops[i], device)
    ensures HandleOps(st, device, ops) == HandleOps(st, device, ops[..i]).(ok := false)
  {
    if i == |ops| - 1 {
      assert ops == ops[..i] + [ops[i]];
      HandleOpsAppend(st, device, ops[..i], ops[i]);
    } else {
      var n := |ops| - 1;
      assert ops[..n][..i] == ops[..i];
      StopsAt(st, device, ops[..n], i);
    }
  }
}
