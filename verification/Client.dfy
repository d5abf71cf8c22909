/** The client SDK as the mutable object it is (pkg/client/client.go, pkg/client/sync.go):
    local writes and reads, push with retries, the pull loop, and Sync. */
module Client {
  import opened Wrappers
  import opened Vectors
  import opened Hlc
  import opened Oplog
  import opened Conflict
  import opened Store
  import opened Protocol
  import opened Causality
  import opened Theorems
  import opened Sync
  import opened Rounds
  import opened Retries
  import opened Paging
  import opened Database
  import opened Server

  // ---------------------------------------------------------------- retries

  /** What becomes of one delivery attempt of a push request: it never arrives, it breaks off
      between two ops or inside one (logged, record not saved), its answer is lost, or it is
      answered. */
  datatype Attempt = Lost | CutAfter(n: nat) | CutInside(n: nat) | Unanswered | Answered

  /** How far into the batch the server has come, and which ops it logged and never folded. */
  datatype Reach = Reach(upTo: nat, missed: set<nat>)

  /** One more attempt of a batch of `len` ops. */
  function AfterAttempt(r: Reach, a: Attempt, len: nat): Reach {
    match a
    case Lost => r
    case CutAfter(n) => r.(upTo := Max(r.upTo, if n < len then n else len))
    case CutInside(n) =>
      if n >= len then r.(upTo := Max(r.upTo, len))
      else if n < r.upTo then r
      else Reach(n + 1, r.missed + {n})
    case _ => r.(upTo := Max(r.upTo, len))
  }

  function AfterAttempts(attempts: seq<Attempt>, len: nat): Reach {
    if attempts == [] then Reach(0, {})
    else AfterAttempt(AfterAttempts(attempts[..|attempts| - 1], len), attempts[|attempts| - 1], len)
  }

  /** The attempts that are made: up to the first that is answered. */
  function Tried(attempts: seq<Attempt>): seq<Attempt> {
    if attempts == [] then []
    else if attempts[0].Answered? then [attempts[0]]
    else [attempts[0]] + Tried(attempts[1..])
  }

  lemma {:induction false} TriedIs(attempts: seq<Attempt>, i: nat)
    requires i <= |attempts| && Answered !in attempts[..i]
    ensures i < |attempts| && attempts[i].Answered? ==> Tried(attempts) == attempts[..i + 1]
    ensures i == |attempts| ==> Tried(attempts) == attempts
  {
    if i > 0 {
      assert attempts[0] == attempts[..i][0] && attempts[1..][..i - 1] == attempts[..i][1..];
      TriedIs(attempts[1..], i - 1);
      assert attempts == [attempts[0]] + attempts[1..];
      if i < |attempts| {
        assert attempts[..i + 1] == [attempts[0]] + attempts[1..][..i];
      }
    } else if attempts != [] {
      assert attempts[..1] == [attempts[0]];
    }
  }

  lemma {:induction false} ReachInside(attempts: seq<Attempt>, len: nat)
    ensures AfterAttempts(attempts, len).upTo <= len
    ensures forall j :: j in AfterAttempts(attempts, len).missed ==> j < AfterAttempts(attempts, len).upTo
    ensures (forall a :: a in attempts ==> !a.CutInside?) ==> AfterAttempts(attempts, len).missed == {}
  {
    if attempts != [] {
      var n := |attempts| - 1;
      assert attempts[n] in attempts;
      ReachInside(attempts[..n], len);
    }
  }

  lemma OutboxIsAdmissible(log: seq<Row>, d: string)
    requires forall i :: 0 <= i < |log| ==> Validates(log[i].op)
    ensures forall p :: p in Outbox(log, d) ==> Admissible(p, d)
  {
    OutboxMembers(log, d);
  }

  /** The report is about the rows from the m-th on. */
  predicate ReportsFrom(report: seq<ConflictInfo>, rows: seq<ConflictRow>, m: int) {
    0 <= m <= |rows| && report == Infos(rows[m..])
  }

  datatype Done = Done(count: nat, conflicts: seq<ConflictInfo>)

  datatype SyncResult = SyncResult(pushed: nat, pulled: nat, conflicts: seq<ConflictInfo>)

  /** The application's view of a record. */
  datatype View = View(collection: string, recordId: string, value: Option<string>)

  // ---------------------------------------------------------------- the client

  class SyncClient {
    const db: DB
    const clock: Clock
    const deviceId: string
    /** Whether a device token is stored, that is, Register succeeded once. */
    var registered: bool

    constructor (deviceId: string)
      ensures Valid() && fresh(db) && fresh(clock) && this.deviceId == deviceId
      ensures State() == NEW_DEVICE && !registered
    {
      this.deviceId := deviceId;
      this.db := new DB();
      this.clock := new Clock(deviceId);
      this.registered := false;
    }

    /** Once an answer brings a token the device is registered; registering again is harmless,
        and a request that fails leaves everything as it was. */
    method Register(answered: bool) returns (ok: bool)
      modifies this`registered
      ensures ok == answered && registered == (old(registered) || answered)
    {
      if answered {
        registered := true;
      }
      return answered;
    }

    ghost predicate Valid()
      reads this, db
    {
      db.Valid() && clock.nodeId == deviceId
    }

    /** checkpoint: 0 until one was saved. */
    function Checkpoint(): int
      reads db
    {
      if db.savedCheckpoint.Some? then db.savedCheckpoint.value else 0
    }

    function State(): Device
      reads db, clock
    {
      Device(db.Contents(), clock.last, Checkpoint())
    }

    /** The single path of every local mutation. */
    method ApplyLocalWrite(k: Key, change: Option<string>, id: string, phys: int64) returns (r: Result<View, string>)
      requires Valid()
      modifies db, clock
      ensures Valid()
      ensures var w := LocalWrite(old(State()), deviceId, k, change, id, phys);
        && State() == w.dev
        && (r.Ok? <==> w.ok)
        && IsWriteOf(w.op, Lookup(old(db.Contents()), k), deviceId, k, change, id, clock.last)
        && (r.Ok? ==> var rec := Lookup(db.Contents(), k);
             && rec.Some? && Shows(rec.value, w.op) && rec.value.vv == w.op.vv
             && (forall j :: j != k ==> Lookup(db.Contents(), j) == Lookup(old(db.Contents()), j))
             && db.conflicts == old(db.conflicts)
             && db.oplog == old(db.oplog) + if HasId(old(db.oplog), id) then [] else [Row(w.op, 0, false)])
      ensures r.Ok? <==> id != "" && deviceId != "" && k.collection != "" && k.recordId != ""
      ensures r.Err? ==> db.Contents() == old(db.Contents())
      ensures r.Ok? ==> r.value == View(k.collection, k.recordId, change)
    {
      hide Shows, IsWriteOf, At, Relate, Join, Tick, HasId, DistinctIds, SeqOf, Resolve, Validates, Lookup, Put;
      WriteAcceptedIff(State(), deviceId, k, change, id, phys);
      WriteIs(State(), deviceId, k, change, id, phys);
      var existing := db.GetRecord(k);
      var kind := Update;
      if change.None? {
        kind := Kind.Delete;
      } else if existing.None? || existing.value.deleted {
        kind := Create;
      }
      var seen: Vector := map[];
      if existing.Some? {
        seen := existing.value.vv;
      }
      var vv := Vectors.Increment(seen, deviceId);
      var stamp := clock.Now(phys);
      var op := Op(id, deviceId, k.collection, k.recordId, kind, change, vv, stamp);
      assert op == NewOp(old(State()), deviceId, k, change, id, stamp);
      var appended := db.AppendOp(op, 0, false);
      if appended.Err? {
        return Err(appended.error);
      }
      LocalWriteFastForwards(old(State()), deviceId, k, change, id, phys);
      var decision := Resolve(existing, op);
      db.PutRecord(decision.rec);
      return Ok(View(k.collection, k.recordId, decision.rec.payload));
    }

    /** Put: the marshalled value becomes the record's payload. */
    method PutValue(k: Key, payload: string, id: string, phys: int64) returns (ok: bool)
      requires Valid()
      modifies db, clock
      ensures Valid() && State() == LocalWrite(old(State()), deviceId, k, Some(payload), id, phys).dev
      ensures ok <==> id != "" && deviceId != "" && k.collection != "" && k.recordId != ""
      ensures ok ==> Lookup(db.Contents(), k).Some? && !Lookup(db.Contents(), k).value.deleted
      ensures ok ==> Lookup(db.Contents(), k).value.payload == Some(payload)
      ensures !ok ==> db.Contents() == old(db.Contents())
    {
      var r := ApplyLocalWrite(k, Some(payload), id, phys);
      ok := r.Ok?;
    }

    /** Delete leaves a tombstone. */
    method Delete(k: Key, id: string, phys: int64) returns (ok: bool)
      requires Valid()
      modifies db, clock
      ensures Valid() && State() == LocalWrite(old(State()), deviceId, k, None, id, phys).dev
      ensures ok <==> id != "" && deviceId != "" && k.collection != "" && k.recordId != ""
      ensures ok ==> Lookup(db.Contents(), k).Some? && Lookup(db.Contents(), k).value.deleted
      ensures ok ==> Lookup(db.Contents(), k).value.payload == None
      ensures !ok ==> db.Contents() == old(db.Contents())
    {
      var r := ApplyLocalWrite(k, None, id, phys);
      ok := r.Ok?;
    }

    /** A missing or deleted record reads as not found. */
    method Get(k: Key) returns (r: Option<View>)
      requires Valid()
      ensures r.Some? <==> Lookup(db.Contents(), k).Some? && !Lookup(db.Contents(), k).value.deleted
      ensures r.Some? ==> r.value == View(k.collection, k.recordId, Lookup(db.Contents(), k).value.payload)
    {
      var stored := db.GetRecord(k);
      if stored.None? || stored.value.deleted {
        return None;
      }
      return Some(View(stored.value.collection, stored.value.recordId, stored.value.payload));
    }

    method PendingChanges() returns (n: nat)
      ensures n == |Outbox(db.oplog, deviceId)|
    {
      var ops := db.UnpushedOps(deviceId);
      n := |ops|;
    }

    /** One delivery attempt of a push request whose earlier attempts came as far as `r`. */
    method Post(server: SyncServer, batch: seq<Op>, attempt: Attempt, ghost before: Store, ghost r: Reach)
      returns (reply: Option<PushResponse>)
      requires server.Valid() && r.upTo <= |batch| && forall j :: j in r.missed ==> j < r.upTo
      requires forall p :: p in batch ==> Admissible(p, deviceId)
      requires server.db.Contents() == Deliver(before, batch[..r.upTo], r.missed)
      modifies server.db
      ensures server.Valid() && server.db.savedCheckpoint == old(server.db.savedCheckpoint)
      ensures var now := AfterAttempt(r, attempt, |batch|);
        now.upTo <= |batch| && server.db.Contents() == Deliver(before, batch[..now.upTo], now.missed)
      ensures reply.Some? <==> attempt.Answered?
      ensures reply.Some? ==> reply.value.accepted == Ids(batch)
      ensures old(server.db.conflicts) <= server.db.conflicts
      ensures reply.Some? ==> reply.value.conflicts == Infos(server.db.conflicts[|old(server.db.conflicts)|..])
    {
      hide HandleOps, Deliver, Admissible, Append;
      if attempt.Lost? {
        return None;
      }
      if attempt.CutInside? && attempt.n < |batch| {
        var n := attempt.n;
        RetryIsTransparent(before, deviceId, batch, r.upTo, n, r.missed);
        server.CutPush(deviceId, batch, n);
        CutInsideIs(before, batch, r, n);
        return None;
      }
      var n := |batch|;
      if attempt.CutAfter? && attempt.n < n {
        n := attempt.n;
      }
      RetryIsTransparent(before, deviceId, batch, r.upTo, n, r.missed);
      ghost var current := server.db.Contents();
      var resp := server.HandlePush(deviceId, batch[..n]);
      if attempt.Answered? {
        assert batch[..n] == batch;
        AcceptedAreAll(current, deviceId, batch);
        return Some(resp.value);
      }
      return None;
    }

    /** Push the outbox, retrying until an attempt is answered or the attempts run out.  The
        server's log is then as after one delivery, however the earlier attempts failed; its
        records are, too, unless an attempt broke off inside an op, whose record no retry makes
        up for.  The conflicts reported are those of the answered attempt. */
    method Push(server: SyncServer, attempts: seq<Attempt>) returns (r: Result<Done, string>)
      requires Valid() && server.db != db && server.Valid()
      modifies db, server.db
      ensures Valid() && server.Valid()
      ensures Outbox(old(db.oplog), deviceId) == [] ==>
        r == Ok(Done(0, [])) && State() == old(State()) && server.db.Contents() == old(server.db.Contents())
      ensures var batch, st := Outbox(old(db.oplog), deviceId), old(server.db.Contents());
        var reach := AfterAttempts(Tried(attempts), |batch|);
        batch != [] ==>
          && (r.Ok? <==> Answered in attempts)
          && reach.upTo <= |batch| && server.db.Contents() == Deliver(st, batch[..reach.upTo], reach.missed)
          && server.db.oplog == HandleOps(st, deviceId, batch[..reach.upTo]).st.oplog
          && ((forall a :: a in Tried(attempts) ==> !a.CutInside?) ==>
               server.db.Contents() == HandleOps(st, deviceId, batch[..reach.upTo]).st)
      ensures var batch := Outbox(old(db.oplog), deviceId);
        batch != [] && r.Ok? ==>
          && r.value.count == |batch| == AfterAttempts(Tried(attempts), |batch|).upTo
          && State() == old(State()).(st := MarkAll(old(State()).st, Ids(batch)))
          && Outbox(db.oplog, deviceId) == []
      ensures r.Err? ==> State() == old(State())
      ensures old(server.db.conflicts) <= server.db.conflicts && db.conflicts == old(db.conflicts)
      ensures r.Ok? ==>
        exists m :: m >= |old(server.db.conflicts)| && ReportsFrom(r.value.conflicts, server.db.conflicts, m)
      ensures r.Ok? && (Outbox(old(db.oplog), deviceId) == [] || (attempts != [] && attempts[0].Answered?)) ==>
        r.value.conflicts == Infos(server.db.conflicts[|old(server.db.conflicts)|..])
    {
      hide HandleOps, Deliver, Admissible, Outbox, AfterAttempt, Tried;
      var unpushed := db.UnpushedOps(deviceId);
      if |unpushed| == 0 {
        assert server.db.conflicts[|server.db.conflicts|..] == [];
        assert ReportsFrom([], server.db.conflicts, |server.db.conflicts|);
        return Ok(Done(0, []));
      }
      OutboxIsAdmissible(db.oplog, deviceId);
      ghost var before := server.db.Contents();
      assert server.db.conflicts[|server.db.conflicts|..] == [];
      DeliverNothing(before, unpushed[..0], {});
      var i := 0;
      while i < |attempts|
        invariant 0 <= i <= |attempts|
        invariant Valid() && server.Valid() && State() == old(State())
        invariant Answered !in attempts[..i]
        invariant old(server.db.conflicts) <= server.db.conflicts && db.conflicts == old(db.conflicts)
        invariant i == 0 ==> server.db.conflicts == old(server.db.conflicts)
        invariant var reach := AfterAttempts(attempts[..i], |unpushed|);
          reach.upTo <= |unpushed| && server.db.Contents() == Deliver(before, unpushed[..reach.upTo], reach.missed)
      {
        assert attempts[..i + 1] == attempts[..i] + [attempts[i]];
        ReachInside(attempts[..i], |unpushed|);
        AttemptIsNext(attempts, i, |unpushed|);
        ghost var known := |server.db.conflicts|;
        var reply := Post(server, unpushed, attempts[i], before, AfterAttempts(attempts[..i], |unpushed|));
        if reply.Some? {
          assert ReportsFrom(reply.value.conflicts, server.db.conflicts, known);
          TriedIs(attempts, i);
          AnsweredReachesAll(attempts[..i + 1], |unpushed|);
          DeliveredClean(before, deviceId, unpushed, attempts[..i + 1]);
          MarkedOutboxIsEmpty(db.Contents(), deviceId);
          db.MarkPushed(reply.value.accepted);
          return Ok(Done(|reply.value.accepted|, reply.value.conflicts));
        }
        i := i + 1;
      }
      assert attempts[..i] == attempts;
      TriedIs(attempts, i);
      DeliveredClean(before, deviceId, unpushed, attempts);
      return Err("giving up");
    }

    /** Apply one pulled row: observe, append, resolve, store. */
    method ApplyPulled(row: Row, phys: int64) returns (inserted: bool, conflict: Option<ConflictRow>)
      requires Valid() && Validates(row.op)
      modifies db`oplog, db`next, db`records, db`conflicts, clock
      ensures Valid() && State() == ApplyRow(old(State()), deviceId, row, phys)
      ensures |db.oplog| == |old(db.oplog)| + if inserted then 1 else 0
      ensures old(db.oplog) <= db.oplog
      ensures db.conflicts == old(db.conflicts) + if conflict.Some? then [conflict.value] else []
      ensures inserted <==> !HasId(old(db.oplog), row.op.id)
      ensures !inserted ==> conflict.None? && db.Contents() == old(db.Contents())
      ensures inserted ==>
        var op, k, d := row.op, Key(row.op.collection, row.op.recordId),
          Resolve(Lookup(old(db.Contents()), Key(row.op.collection, row.op.recordId)), row.op);
        && db.oplog == old(db.oplog) + [Row(op, row.serverSeq, false)]
        && Lookup(db.Contents(), k) == Some(d.rec)
        && (forall j :: j != k ==> Lookup(db.Contents(), j) == Lookup(old(db.Contents()), j))
        && conflict == if d.conflicted
             then Some(ConflictRow(op.collection, op.recordId, d.winnerOpId, d.loserOpId, row.serverSeq)) else None
    {
      hide Resolve, Receive, DistinctIds, SeqOf, HasId;
      conflict := None;
      KeyIsKept(db.Contents(), row.op);
      IngestIs(db.Contents(), row.op, row.serverSeq, false);
      var _ := clock.Observe(row.op.hlc, phys);
      var appended := db.AppendOp(row.op, row.serverSeq, false);
      inserted := appended.value.inserted;
      if inserted {
        var existing := db.GetRecord(KeyOf(row.op));
        var decision := Resolve(existing, row.op);
        db.PutRecord(decision.rec);
        if decision.conflicted {
          var c := AuditRow(decision, row.op, appended.value.serverSeq);
          db.RecordConflict(c);
          conflict := Some(c);
        }
      }
    }

    /** Apply the rows of one page in order; false if a row does not decode. */
    method ApplyPage(rows: seq<Row>, walls: nat -> int64, first: nat)
      returns (ok: bool, pulled: nat, conflicts: seq<ConflictInfo>)
      requires Valid()
      modifies db`oplog, db`next, db`records, db`conflicts, clock
      ensures Valid() && (ok <==> ValidPrefix(rows) == |rows|)
      ensures State() == ApplyRows(old(State()), deviceId, rows[..ValidPrefix(rows)], walls, first)
      ensures old(db.oplog) <= db.oplog && pulled == |db.oplog| - |old(db.oplog)|
      ensures old(db.conflicts) <= db.conflicts && conflicts == Infos(db.conflicts[|old(db.conflicts)|..])
    {
      hide ApplyRow, Validates, Resolve, Lookup, HasId, DistinctIds;
      ghost var valid := ValidPrefix(rows);
      pulled, conflicts := 0, [];
      assert db.conflicts[|db.conflicts|..] == [];
      var i := 0;
      while i < |rows|
        invariant 0 <= i <= valid && Valid()
        invariant old(db.oplog) <= db.oplog && pulled == |db.oplog| - |old(db.oplog)|
        invariant old(db.conflicts) <= db.conflicts && conflicts == Infos(db.conflicts[|old(db.conflicts)|..])
        invariant State() == ApplyRows(old(State()), deviceId, rows[..i], walls, first)
      {
        if !Validates(rows[i].op) {
          return false, pulled, conflicts;
        }
        assert rows[..i + 1][..i] == rows[..i];
        ghost var known := db.conflicts;
        var inserted, conflict := ApplyPulled(rows[i], walls(first + i));
        if inserted {
          pulled := pulled + 1;
        }
        if conflict.Some? {
          conflicts := conflicts + [InfoOf(conflict.value)];
          ReportGrows(known, |old(db.conflicts)|, conflict.value);
        }
        i := i + 1;
      }
      ok := true;
    }

    /** Pull and apply every server op after the checkpoint, page by page, until a page request
        fails for good.  What was applied and saved before a failure stays. */
    method Pull(server: SyncServer, walls: nat -> int64, answered: nat) returns (r: Result<Done, string>)
      requires Valid() && server.db != db && server.Valid()
      modifies db, clock
      ensures Valid()
      ensures var reply := PullSome(old(State()), deviceId, server.db.oplog, walls, 0, answered);
        State() == reply.dev && (r.Ok? <==> reply.ok)
      ensures r.Ok? || answered > |Matching(server.db.oplog, old(Checkpoint()), "")| ==>
        var reply := PullAll(old(State()), deviceId, server.db.oplog, walls, 0);
        State() == reply.dev && (r.Ok? <==> reply.ok)
      ensures old(db.oplog) <= db.oplog && old(db.conflicts) <= db.conflicts
      ensures r.Ok? ==> r.value.count == |db.oplog| - |old(db.oplog)|
      ensures r.Ok? ==> r.value.conflicts == Infos(db.conflicts[|old(db.conflicts)|..])
    {
      hide ApplyRows, Validates, PageSince, Matching, PullAll, Ascending, IsPage, DistinctIds, Infos;
      PullSomeIsAll(State(), deviceId, server.db.oplog, walls, 0, answered);
      var since := Checkpoint();
      var pulled: nat, calls: nat, pages: nat := 0, 0, 0;
      var conflicts: seq<ConflictInfo> := [];
      assert db.conflicts[|db.conflicts|..] == [];
      while pages < answered
        invariant Valid() && since == Checkpoint() && pages <= answered
        invariant old(db.oplog) <= db.oplog && pulled == |db.oplog| - |old(db.oplog)|
        invariant old(db.conflicts) <= db.conflicts && conflicts == Infos(db.conflicts[|old(db.conflicts)|..])
        invariant PullSome(old(State()), deviceId, server.db.oplog, walls, 0, answered)
          == PullSome(State(), deviceId, server.db.oplog, walls, calls, answered - pages)
      {
        ghost var known := db.conflicts;
        var page := server.HandlePull(since, "", PULL_PAGE_SIZE);
        var ok, n, found := ApplyPage(page.rows, walls, calls);
        pulled, conflicts := pulled + n, conflicts + found;
        ReportsJoin(known, db.conflicts, |old(db.conflicts)|);
        if !ok {
          return Err("decode pulled op");
        }
        calls := calls + |page.rows|;
        pages := pages + 1;
        since := page.next;
        db.savedCheckpoint := Some(since);
        if !page.hasMore {
          return Ok(Done(pulled, conflicts));
        }
      }
      return Err("pull");
    }

    /** Push, then pull; an unregistered device is refused before any network access. */
    method Sync(server: SyncServer, attempts: seq<Attempt>, walls: nat -> int64, answered: nat)
      returns (r: Result<SyncResult, string>)
      requires Valid() && server.db != db && server.Valid()
      modifies db, clock, server.db
      ensures Valid() && server.Valid()
      ensures !registered ==> r.Err? && State() == old(State()) && server.db.Contents() == old(server.db.Contents())
      ensures registered ==>
        var batch, st := Outbox(old(db.oplog), deviceId), old(server.db.Contents());
        var reach := AfterAttempts(Tried(attempts), |batch|);
        if batch != [] && Answered !in attempts then
          && r.Err? && State() == old(State())
          && reach.upTo <= |batch| && server.db.Contents() == Deliver(st, batch[..reach.upTo], reach.missed)
        else
          && server.db.Contents() == (if batch == [] then st else Deliver(st, batch, reach.missed))
          && var marked := MarkAll(old(State()).st, if batch == [] then [] else Ids(batch));
             var reply := PullSome(old(State()).(st := marked), deviceId, server.db.oplog, walls, 0, answered);
             State() == reply.dev && (r.Ok? <==> reply.ok)
      ensures r.Ok? ==>
        && r.value.pushed == |Outbox(old(db.oplog), deviceId)|
        && r.value.pulled == |db.oplog| - |old(db.oplog)|
      ensures r.Ok? && (Outbox(old(db.oplog), deviceId) == [] || (attempts != [] && attempts[0].Answered?)) ==>
        && old(server.db.conflicts) <= server.db.conflicts && old(db.conflicts) <= db.conflicts
        && r.value.conflicts == Infos(server.db.conflicts[|old(server.db.conflicts)|..])
             + Infos(db.conflicts[|old(db.conflicts)|..])
    {
      hide HandleOps, Deliver, PullSome, PullAll, Outbox, AfterAttempts, Tried, Matching;
      if !registered {
        return Err("device is not registered");
      }
      MarkNothing(db.Contents());
      ghost var batch := Outbox(db.oplog, deviceId);
      assert batch[..|batch|] == batch;
      var pushed := Push(server, attempts);
      if pushed.Err? {
        return Err(pushed.error);
      }
      var pulled := Pull(server, walls, answered);
      if pulled.Err? {
        return Err(pulled.error);
      }
      return Ok(SyncResult(pushed.value.count, pulled.value.count, pushed.value.conflicts + pulled.value.conflicts));
    }
  }

  lemma ReportsJoin(older: seq<ConflictRow>, newer: seq<ConflictRow>, m: nat)
    requires m <= |older| && older <= newer
    ensures Infos(newer[m..]) == Infos(older[m..]) + Infos(newer[|older|..])
  {
    assert newer[m..] == older[m..] + newer[|older|..];
  }

  /** An attempt that breaks off inside op n: the op is logged, and missed if it was new. */
  lemma CutInsideIs(before: Store, batch: seq<Op>, r: Reach, n: nat)
    requires n < |batch| && r.upTo <= |batch| && forall j :: j in r.missed ==> j < r.upTo
    ensures var now := AfterAttempt(r, CutInside(n), |batch|);
      Append(Deliver(before, batch[..if r.upTo >= n then r.upTo else n], r.missed), batch[n], 0, true).st
        == Deliver(before, batch[..now.upTo], now.missed)
  {
    hide Deliver;
    if n < r.upTo {
      DeliveredIds(before, batch[..r.upTo], r.missed);
      assert batch[..r.upTo][n] == batch[n];
    } else {
      hide Append;
      DeliverAgrees(before, batch[..n], r.missed, r.missed + {n});
      DeliverNext(before, batch, n, r.missed + {n});
    }
  }

  lemma AttemptIsNext(attempts: seq<Attempt>, i: nat, len: nat)
    requires i < |attempts|
    ensures AfterAttempts(attempts[..i + 1], len) == AfterAttempt(AfterAttempts(attempts[..i], len), attempts[i], len)
  {
    assert attempts[..i + 1][..i] == attempts[..i];
  }

  lemma AnsweredReachesAll(attempts: seq<Attempt>, len: nat)
    requires attempts != [] && attempts[|attempts| - 1].Answered?
    ensures AfterAttempts(attempts, len).upTo == len
  {
    ReachInside(attempts[..|attempts| - 1], len);
  }

  /** The log after any attempts is that of one delivery as far as they came, and so are the
      records if none broke off inside an op. */
  lemma DeliveredClean(st: Store, d: string, batch: seq<Op>, attempts: seq<Attempt>)
    requires forall p :: p in batch ==> Admissible(p, d)
    ensures var reach := AfterAttempts(attempts, |batch|);
      && reach.upTo <= |batch|
      && Deliver(st, batch[..reach.upTo], reach.missed).oplog == HandleOps(st, d, batch[..reach.upTo]).st.oplog
      && ((forall a :: a in attempts ==> !a.CutInside?) ==>
           Deliver(st, batch[..reach.upTo], reach.missed) == HandleOps(st, d, batch[..reach.upTo]).st)
  {
    hide Deliver, HandleOps, AfterAttempts, Admissible;
    var reach := AfterAttempts(attempts, |batch|);
    ReachInside(attempts, |batch|);
    PartIsAdmissible(batch, d, reach.upTo);
    HandledIsDelivered(st, d, batch[..reach.upTo]);
    LogIsExactlyOnce(st, batch[..reach.upTo], reach.missed);
  }

  lemma MarkNothing(st: Store)
    ensures MarkAll(st, []) == st
  {
  }
}
