/** What holds in every reachable state of the protocol, and along every run. */
module Theorems {
  import opened Wrappers
  import opened Vectors
  import opened Hlc
  import opened Oplog
  import opened Conflict
  import opened Store
  import opened Causality
  import opened Protocol
  import opened Invariants
  import opened Safety
  import HlcString

  function LogOf(w: World, d: string): seq<Op>
    requires d in w.devices
  {
    Ops(w.devices[d].st.oplog)
  }

  function ServerLog(w: World): seq<Op> {
    Ops(w.server.oplog)
  }

  lemma DeviceFacts(w: World, d: string)
    requires Reachable(w) && d in w.devices
    ensures History(w.past) && ServerInv(w.past, w.server)
    ensures DeviceInv(w.past, w.server.oplog, w.devices[d], d)
    ensures ForeignFromServer(w.server.oplog, w.devices[d], d, Horizon(w.devices[d], w.pulls, d))
    ensures d in w.pulls ==> PullInv(w.server.oplog, w.devices[d], w.pulls[d])
  {
    hide Reachable, DeviceInv, HandlerInv, PullInv, ForeignFromServer, History, ServerInv, Plausible;
    ReachableInv(w);
  }

  // ---------------------------------------------------------------- causality

  /** An op's recorded past is what its device's log held just before the op itself. */
  lemma PastIsLogAtWriteTime(w: World, q: Op) returns (j: nat)
    requires Reachable(w) && q in w.past
    ensures q.deviceId in w.devices && j < |LogOf(w, q.deviceId)|
    ensures LogOf(w, q.deviceId)[j] == q
    ensures forall p :: p in w.past[q] <==> p in LogOf(w, q.deviceId)[..j]
  {
    ReachableInv(w);
    var xs := LogOf(w, q.deviceId);
    assert OwnLog(w.past, q.deviceId, xs) by {
      assert DeviceInv(w.past, w.server.oplog, w.devices[q.deviceId], q.deviceId);
    }
    hide Inv, Reachable;
    j :| 0 <= j < |xs| && xs[j] == q;
    assert forall p :: p in Elements(xs[..j]) <==> p in xs[..j];
  }

  /** Version vectors characterise causality in every run. */
  lemma VectorsCharacteriseCausality(w: World, p: Op, q: Op)
    requires Reachable(w) && p in w.past && q in w.past && p != q && KeyOf(p) == KeyOf(q)
    ensures Leq(p.vv, q.vv) <==> p in w.past[q]
    ensures At(q.vv, p.deviceId) >= At(p.vv, p.deviceId) <==> p in w.past[q]
    ensures Relate(p.vv, q.vv).Concurrent? <==> p !in w.past[q] && q !in w.past[p]
  {
    ReachableInv(w);
    hide Reachable, Inv;
    VectorsAreCausality(w.past, p, q);
    PastIsIrreflexive(w.past, p, q);
  }

  /** Timestamps respect causality across devices and are unique, whatever the clocks read. */
  lemma TimestampsRespectCausality(w: World, p: Op, q: Op)
    requires Reachable(w) && p in w.past && q in w.past
    ensures p in w.past[q] ==> After(q.hlc, p.hlc)
    ensures p.hlc == q.hlc ==> p == q
  {
    ReachableInv(w);
    hide Reachable, Inv;
    if p.hlc == q.hlc {
      TimestampsAreUnique(w.past, p, q);
    }
  }

  /** No counter passes the number of clock calls made, and every physical part is 0 or a
      wall-clock reading that some call took: of every op and of every device's clock. */
  lemma ClocksAreBounded(w: World, t: Timestamp)
    requires Reachable(w) && Issued(w, t)
    ensures t.logical <= |w.readings| <= MAX_LOGICAL
    ensures t.physical == 0 || t.physical in w.readings
    ensures t.physical >= 0
  {
    hide PastInv, ServerInv, DevicesInv, PullsInv, HandlersInv;
    ReachableInv(w);
    assert Plausible(t, w.readings);
  }

  /** Some op carries t, or some device's clock stands at t. */
  ghost predicate Issued(w: World, t: Timestamp) {
    (exists p :: p in w.past && p.hlc == t) || (exists d :: d in w.devices && w.devices[d].clock == t)
  }

  /** Before the 2^32-th clock call of the whole system no call can wrap a counter. */
  lemma NoCallWraps(w: World, d: string, remote: Timestamp, phys: int64)
    requires Reachable(w) && |w.readings| < MAX_LOGICAL && d in w.devices && Issued(w, remote)
    ensures !TickWraps(w.devices[d].clock, phys)
    ensures !ReceiveWraps(w.devices[d].clock, remote, phys)
  {
    hide Reachable;
    assert Issued(w, w.devices[d].clock);
    ClocksAreBounded(w, w.devices[d].clock);
    ClocksAreBounded(w, remote);
  }

  /** All timestamps of a run sort as strings, whatever the wall clocks read. */
  lemma StringsSortInRuns(w: World, a: Timestamp, b: Timestamp)
    requires Reachable(w) && Issued(w, a) && Issued(w, b)
    ensures LexCompare(HlcString.String(a), HlcString.String(b)) == Hlc.Compare(a, b)
  {
    hide Reachable, Issued;
    ClocksAreBounded(w, a);
    ClocksAreBounded(w, b);
    HlcString.StringIsOrderIsomorphism(a, b);
  }

  /** A vector's counter counts writes, each of which read a clock: no run that keeps the
      uint32 counters from wrapping comes near the end of the uint64 ones. */
  lemma WriteCountsAreBounded(w: World, p: Op, n: string)
    requires Reachable(w) && p in w.past
    ensures At(p.vv, n) <= |w.readings| <= MAX_LOGICAL
  {
    hide PastInv, ServerInv, DevicesInv, PullsInv, HandlersInv;
    ReachableInv(w);
    assert CountsUpTo(p.vv, |w.readings|);
  }

  // ---------------------------------------------------------------- convergence

  /** A device's record is the latest logged write under the joint vector of all of them. */
  lemma RecordIsLatestWrite(w: World, d: string, k: Key)
    requires Reachable(w) && d in w.devices
    ensures var ys := OnKey(LogOf(w, d), k);
      Lookup(w.devices[d].st, k) == if ys == [] then None else Some(Materialize(ys))
  {
    DeviceFacts(w, d);
    assert Lookup(w.devices[d].st, k) == Fold(OnKey(LogOf(w, d), k));
    hide Reachable, RecordsMatch, OwnLog, OwnCountIsKnown, History, Materialize;
    if OnKey(LogOf(w, d), k) != [] {
      LogFold(w.past, LogOf(w, d), k);
    }
  }

  /** Strong convergence: devices that applied the same ops on a record hold the identical
      record, in whatever order they applied them and whatever was lost or retried. */
  lemma DevicesConverge(w: World, d: string, e: string, k: Key)
    requires Reachable(w) && d in w.devices && e in w.devices
    requires forall p :: KeyOf(p) == k ==> (p in LogOf(w, d) <==> p in LogOf(w, e))
    ensures Lookup(w.devices[d].st, k) == Lookup(w.devices[e].st, k)
  {
    DeviceFacts(w, d);
    DeviceFacts(w, e);
    assert Lookup(w.devices[d].st, k) == Fold(OnKey(LogOf(w, d), k));
    assert Lookup(w.devices[e].st, k) == Fold(OnKey(LogOf(w, e), k));
    hide Reachable, RecordsMatch, OwnLog, OwnCountIsKnown, History;
    SameOpsOnRecord(w.past, LogOf(w, d), LogOf(w, e), k);
  }

  /** A device never shows a value that a write in its log has overwritten. */
  lemma ValueIsNotOverwritten(w: World, d: string, p: Op)
    requires Reachable(w) && d in w.devices && p in LogOf(w, d)
    ensures var r := Lookup(w.devices[d].st, KeyOf(p));
      && r.Some?
      && exists z :: z in LogOf(w, d) && z.id == r.value.winningOpId && r.value == FromOp(z).(vv := r.value.vv)
           && p in w.past && z !in w.past[p]
  {
    var k, xs := KeyOf(p), LogOf(w, d);
    RecordIsLatestWrite(w, d, k);
    DeviceFacts(w, d);
    hide Reachable, DeviceInv, History;
    assert CausalLog(w.past, xs) by { DeviceLogIsCausal(w, d); }
    WinnerIsNotOverwritten(w.past, xs, k, p);
    LatestIsMaximum(OnKey(xs, k));
    OnKeyMembers(xs, k);
  }

  lemma DeviceLogIsCausal(w: World, d: string)
    requires Reachable(w) && d in w.devices
    ensures CausalLog(w.past, LogOf(w, d))
    ensures forall p :: p in LogOf(w, d) ==> p in w.past
  {
    DeviceFacts(w, d);
  }

  /** A write that saw every other write on its record is what every device that applied
      it shows: such a delete stays deleted. */
  lemma DominantWriteIsShown(w: World, d: string, z: Op)
    requires Reachable(w) && d in w.devices && z in LogOf(w, d) && z in w.past
    requires forall p :: p in w.past && KeyOf(p) == KeyOf(z) && p != z ==> p in w.past[z]
    ensures Lookup(w.devices[d].st, KeyOf(z)) == Some(FromOp(z))
    ensures z.kind.Delete? ==> Lookup(w.devices[d].st, KeyOf(z)).value.deleted
  {
    DeviceFacts(w, d);
    DeviceLogIsCausal(w, d);
    assert Lookup(w.devices[d].st, KeyOf(z)) == Fold(OnKey(LogOf(w, d), KeyOf(z)));
    hide Reachable, RecordsMatch, OwnLog, OwnCountIsKnown, History, CausalLog;
    DominantWriteWins(w.past, LogOf(w, d), z);
  }

  // ---------------------------------------------------------------- logs only grow

  ghost predicate Extends(w: World, w': World) {
    && w.devices.Keys == w'.devices.Keys
    && w.server.oplog <= w'.server.oplog
    && (forall d :: d in w.devices ==> LogOf(w, d) <= LogOf(w', d))
    && forall p :: p in w.past ==> p in w'.past && w'.past[p] == w.past[p]
  }

  lemma AppendExtends(st: Store, op: Op, serverSeq: nat, assign: bool)
    ensures st.oplog <= Append(st, op, serverSeq, assign).st.oplog
    ensures st.oplog <= Ingest(st, op, serverSeq, assign).st.oplog
  {
  }

  lemma OpsPrefix(a: seq<Row>, b: seq<Row>)
    requires a <= b
    ensures Ops(a) <= Ops(b)
  {
  }

  lemma WriteExtends(w: World, d: string, k: Key, change: Option<string>, id: string, phys: int64)
    ensures Extends(w, StepWrite(w, d, k, change, id, phys))
  {
    hide LocalWrite, Ops, FreshId;
    if d in w.devices && FreshId(w.past, id) {
      var dev, r := w.devices[d], LocalWrite(w.devices[d], d, k, change, id, phys);
      LocalWriteLog(dev, d, k, change, id, phys);
      OpsPrefix(dev.st.oplog, r.dev.st.oplog);
      WriteIsNew(w, d, k, change, id, phys);
    }
  }

  lemma LocalWriteLog(dev: Device, d: string, k: Key, change: Option<string>, id: string, phys: int64)
    ensures dev.st.oplog <= LocalWrite(dev, d, k, change, id, phys).dev.st.oplog
  {
    hide Resolve, Validates;
  }

  lemma ApplyExtends(w: World, d: string, phys: int64)
    ensures Extends(w, StepApply(w, d, phys))
  {
    hide ApplyRow, Ops, Validates;
    if d in w.devices && d in w.pulls && w.pulls[d].pos < |w.pulls[d].page.rows| {
      var dev, row := w.devices[d], w.pulls[d].page.rows[w.pulls[d].pos];
      ApplyRowLog(dev, d, row, phys);
      OpsPrefix(dev.st.oplog, ApplyRow(dev, d, row, phys).st.oplog);
    }
  }

  lemma ApplyRowLog(dev: Device, d: string, row: Row, phys: int64)
    ensures dev.st.oplog <= ApplyRow(dev, d, row, phys).st.oplog
  {
    AppendExtends(dev.st, row.op, row.serverSeq, false);
  }

  lemma ServerStepExtends(w: World, h: nat)
    ensures Extends(w, StepAppend(w, h)) && Extends(w, StepSave(w, h))
  {
    hide Append, Settle, Resolve, Admissible, Ops;
    if Working(w, h) {
      AppendExtends(w.server, Current(w, h), 0, true);
      if w.handlers[h].stage.Loaded? {
        var s := w.handlers[h].stage;
        SettleKeepsLog(w.server, Resolve(s.existing, Current(w, h)), Current(w, h), s.serverSeq);
      }
    }
  }

  lemma AcknowledgeExtends(w: World, h: nat)
    ensures Extends(w, StepAcknowledge(w, h))
  {
    if h < |w.handlers| && w.handlers[h].deviceId in w.devices {
      var dev := w.devices[w.handlers[h].deviceId];
      assert Ops(MarkAll(dev.st, Ids(w.handlers[h].batch)).oplog) == Ops(dev.st.oplog);
    }
  }

  lemma StepExtends(w: World, l: Label)
    ensures Extends(w, Step(w, l))
  {
    hide StepWrite, StepAppend, StepSave, StepAcknowledge, StepApply, Outbox, PageSince, Lookup, Ops;
    match l
    case Write(d, k, change, id, phys) => WriteExtends(w, d, k, change, id, phys);
    case AppendNext(h) => ServerStepExtends(w, h);
    case SaveNext(h) => ServerStepExtends(w, h);
    case Acknowledge(h) => AcknowledgeExtends(w, h);
    case ApplyNext(d, phys) => ApplyExtends(w, d, phys);
    case _ =>
  }

  lemma SettleKeepsLog(st: Store, d: Decision, op: Op, serverSeq: nat)
    ensures Settle(st, d, op, serverSeq).oplog == st.oplog && Settle(st, d, op, serverSeq).next == st.next
  {
  }

  lemma WriteIsNew(w: World, d: string, k: Key, change: Option<string>, id: string, phys: int64)
    requires d in w.devices && FreshId(w.past, id)
    ensures LocalWrite(w.devices[d], d, k, change, id, phys).op !in w.past
  {
  }

  lemma {:induction false} RunExtends(w: World, run: seq<Label>)
    ensures Extends(w, Run(w, run))
  {
    hide Step;
    if run != [] {
      var mid := Run(w, run[..|run| - 1]);
      RunExtends(w, run[..|run| - 1]);
      StepExtends(mid, run[|run| - 1]);
      ExtendsTransitive(w, mid, Run(w, run));
    }
  }

  lemma ExtendsTransitive(a: World, b: World, c: World)
    requires Extends(a, b) && Extends(b, c)
    ensures Extends(a, c)
  {
  }

  lemma DeviceRecord(h: Past, slog: seq<Row>, dev: Device, d: string, k: Key)
    requires DeviceInv(h, slog, dev, d)
    ensures Lookup(dev.st, k) == Fold(OnKey(Ops(dev.st.oplog), k))
    ensures CausalLog(h, Ops(dev.st.oplog))
  {
  }

  /** Along every run, every device's record only advances, in vector and in timestamp. */
  lemma RecordsNeverGoBack(w: World, run: seq<Label>, d: string, k: Key)
    requires Reachable(w) && |Run(w, run).readings| <= MAX_LOGICAL
    requires d in w.devices && Lookup(w.devices[d].st, k).Some?
    ensures d in Run(w, run).devices
    ensures var r, s := Lookup(w.devices[d].st, k), Lookup(Run(w, run).devices[d].st, k);
      s.Some? && Leq(r.value.vv, s.value.vv) && !After(r.value.hlc, s.value.hlc)
  {
    hide Step, Reachable, DeviceInv, ServerInv, PullInv, ForeignFromServer, History, Run, Lookup, CausalLog;
    var w' := Run(w, run);
    ReachableRun(w, run);
    RunExtends(w, run);
    DeviceFacts(w, d);
    DeviceFacts(w', d);
    DeviceRecord(w.past, w.server.oplog, w.devices[d], d, k);
    DeviceRecord(w'.past, w'.server.oplog, w'.devices[d], d, k);
    CausalLogLater(w.past, w'.past, LogOf(w, d));
    RecordsOnlyAdvance(w'.past, LogOf(w, d), LogOf(w', d), k);
  }

  lemma CausalLogLater(h: Past, h': Past, xs: seq<Op>)
    requires CausalLog(h, xs)
    requires forall p :: p in h ==> p in h' && h'[p] == h[p]
    ensures CausalLog(h', xs)
  {
  }

  // ---------------------------------------------------------------- the server log

  /** The server log is causally ordered by server_seq, which runs 1, 2, 3, ...; each
      device's ops in it are a prefix of that device's writes. */
  lemma ServerLogIsCausal(w: World, i: nat, p: Op)
    requires Reachable(w) && i < |ServerLog(w)|
    ensures ServerLog(w)[i] in w.past
    ensures p in w.past[ServerLog(w)[i]] ==> p in ServerLog(w)[..i]
    ensures w.server.oplog[i].serverSeq == i + 1
    ensures w.server.next == |ServerLog(w)| + 1
  {
    ReachableInv(w);
    hide Reachable;
    assert ServerLog(w)[i] in ServerLog(w);
  }

  lemma ServerHasWritePrefixes(w: World, p: Op, q: Op)
    requires Reachable(w) && p in w.past && q in ServerLog(w) && p.deviceId == q.deviceId && p != q
    ensures q in w.past
    ensures p in ServerLog(w) || q in w.past[p]
  {
    ReachableInv(w);
    hide Reachable;
    assert History(w.past) && CausalLog(w.past, ServerLog(w));
    hide Inv;
    if p in w.past[q] {
      PastIsLogged(w.past, ServerLog(w), q, p);
    }
  }

  lemma PrefixInLog(slog: seq<Row>, dev: Device, n: int)
    requires HasPrefix(slog, dev, n)
    ensures forall p :: p in Ops(slog)[..n] ==> p in Ops(dev.st.oplog)
  {
    forall p | p in Ops(slog)[..n] ensures p in Ops(dev.st.oplog) {
      var i :| 0 <= i < n && Ops(slog)[i] == p;
      assert slog[i].op == p;
    }
  }

  lemma ForeignInPrefix(slog: seq<Row>, dev: Device, d: string, horizon: int, n: int)
    requires ForeignFromServer(slog, dev, d, horizon) && horizon <= n <= |slog|
    requires 0 <= n
    ensures forall p :: p in Ops(dev.st.oplog) ==> p.deviceId == d || p in Ops(slog)[..n]
  {
    forall p | p in Ops(dev.st.oplog) ensures p.deviceId == d || p in Ops(slog)[..n] {
      var i :| 0 <= i < |dev.st.oplog| && dev.st.oplog[i].op == p;
      if p.deviceId != d {
        assert Ops(slog)[..n][dev.st.oplog[i].serverSeq - 1] == p;
      }
    }
  }

  lemma OwnInLog(h: Past, slog: seq<Row>, dev: Device, d: string)
    requires DeviceInv(h, slog, dev, d)
    ensures forall p :: p in h && p.deviceId == d ==> p in Ops(dev.st.oplog)
    ensures forall p :: p in Ops(dev.st.oplog) ==> p in h
    ensures HasPrefix(slog, dev, dev.checkpoint)
  {
  }

  /** What a device holds whenever it is not in the middle of a pull: its own writes and the
      server log up to its checkpoint, nothing else. */
  lemma SavedPageIsExact(w: World, d: string)
    requires Reachable(w) && d in w.devices && d !in w.pulls
    ensures 0 <= w.devices[d].checkpoint <= |ServerLog(w)|
    ensures forall p :: p in LogOf(w, d) <==>
      (p in w.past && p.deviceId == d) || p in ServerLog(w)[..w.devices[d].checkpoint]
  {
    hide Reachable, DeviceInv, ServerInv, PullInv, ForeignFromServer, History, HasPrefix, Ops;
    var dev, slog := w.devices[d], w.server.oplog;
    DeviceFacts(w, d);
    OwnInLog(w.past, slog, dev, d);
    PrefixInLog(slog, dev, dev.checkpoint);
    PrefixFits(slog, dev, dev.checkpoint);
    ForeignInPrefix(slog, dev, d, dev.checkpoint, dev.checkpoint);
  }

  lemma PrefixFits(slog: seq<Row>, dev: Device, n: int)
    requires HasPrefix(slog, dev, n)
    ensures 0 <= n <= |slog|
  {
  }

  /** At any moment: its own writes, the server log up to the checkpoint, and possibly ops
      of the page that comes next. */
  lemma DeviceLogIsBounded(w: World, d: string)
    requires Reachable(w) && d in w.devices
    ensures 0 <= w.devices[d].checkpoint <= |ServerLog(w)|
    ensures forall p :: p in ServerLog(w)[..w.devices[d].checkpoint] ==> p in LogOf(w, d)
    ensures forall p :: p in w.past && p.deviceId == d ==> p in LogOf(w, d)
    ensures var n := Min(|ServerLog(w)|, w.devices[d].checkpoint + 100);
      forall p :: p in LogOf(w, d) ==> p.deviceId == d || p in ServerLog(w)[..n]
  {
    hide Reachable, DeviceInv, ServerInv, PullInv, ForeignFromServer, History;
    var dev, slog := w.devices[d], w.server.oplog;
    DeviceFacts(w, d);
    OwnInLog(w.past, slog, dev, d);
    PrefixInLog(slog, dev, dev.checkpoint);
    if d in w.pulls {
      PageFitsHorizon(slog, dev, w.pulls[d]);
    }
    PrefixFits(slog, dev, dev.checkpoint);
    ForeignInPrefix(slog, dev, d, Horizon(dev, w.pulls, d), Min(|slog|, dev.checkpoint + PULL_PAGE_SIZE));
  }

  /** In every reachable state, whatever else is under way, every device can fetch the next 100
      rows of the server log, or what there is of them, and learns whether there are more. */
  lemma FetchIsStep(w: World, d: string)
    requires Reachable(w) && d in w.devices
    ensures var now, c := Step(w, Fetch(d)), w.devices[d].checkpoint;
      && now.devices == w.devices && now.server == w.server && now.handlers == w.handlers
      && now.past == w.past && now.readings == w.readings
      && d in now.pulls && (forall e :: e != d ==> (e in now.pulls <==> e in w.pulls))
      && (forall e :: e in w.pulls && e != d ==> now.pulls[e] == w.pulls[e])
      && var page := now.pulls[d].page;
         && now.pulls[d].pos == 0 && 0 <= c <= |w.server.oplog|
         && page.rows == w.server.oplog[c..Min(|w.server.oplog|, c + 100)] && page.next == c + |page.rows|
         && (page.hasMore <==> c + 100 < |w.server.oplog|)
  {
    hide Reachable, History, CausalLog, OwnLog, OwnCountIsKnown, RecordsMatch, ConflictsRight, ClockCovers,
      AcknowledgedOnServer, PullInv, ForeignFromServer, PageSince;
    DeviceFacts(w, d);
    PageIsNextSlice(w.server, w.devices[d].checkpoint);
  }

  predicate IsPushed(log: seq<Row>, p: Op) {
    exists i :: 0 <= i < |log| && log[i].op == p && log[i].pushed
  }

  lemma OutboxOrPushed(h: Past, slog: seq<Row>, dev: Device, d: string, p: Op)
    requires DeviceInv(h, slog, dev, d) && p in h && p.deviceId == d
    ensures p in Outbox(dev.st.oplog, d) <==> !IsPushed(dev.st.oplog, p)
    ensures p in Outbox(dev.st.oplog, d) || p in Ops(slog)
  {
    var log := dev.st.oplog;
    OutboxMembers(log, d);
    var i :| 0 <= i < |log| && Ops(log)[i] == p;
    forall j | 0 <= j < |log| && log[j].op == p ensures j == i {
      assert Ops(log)[j] == p;
    }
  }

  /** No write is lost: it waits in its device's outbox or is on the server, and it leaves
      the outbox exactly when its acceptance was acknowledged. */
  lemma WritesAreConserved(w: World, p: Op)
    requires Reachable(w) && p in w.past
    ensures p.deviceId in w.devices
    ensures p in Outbox(w.devices[p.deviceId].st.oplog, p.deviceId) || p in ServerLog(w)
    ensures p in Outbox(w.devices[p.deviceId].st.oplog, p.deviceId)
      <==> !IsPushed(w.devices[p.deviceId].st.oplog, p)
  {
    hide Reachable, DeviceInv, ServerInv, PullInv, ForeignFromServer, History, IsPushed, HandlerInv;
    ReachableInv(w);
    OutboxOrPushed(w.past, w.server.oplog, w.devices[p.deviceId], p.deviceId, p);
  }

  // ---------------------------------------------------------------- exactly-once pushes

  /** No op id has two rows on the server. */
  lemma ServerIdsAreUnique(w: World, i: nat, j: nat)
    requires Reachable(w) && i < j < |ServerLog(w)|
    ensures ServerLog(w)[i].id != ServerLog(w)[j].id
  {
    ReachableInv(w);
    hide Reachable;
    var xs := ServerLog(w);
    assert xs[i] in xs && xs[j] in xs;
    assert CausalLog(w.past, xs) && IdsIdentify(w.past);
  }

  /** Rows never change: an op's server_seq is fixed for the rest of the run. */
  lemma ServerSeqIsForever(w: World, run: seq<Label>, i: nat)
    requires i < |w.server.oplog|
    ensures i < |Run(w, run).server.oplog| && Run(w, run).server.oplog[i] == w.server.oplog[i]
  {
    hide Step;
    RunExtends(w, run);
  }

  /** A handler goes over one op: all three statements. */
  function HandleOne(h: nat): seq<Label> {
    [AppendNext(h), LoadNext(h), SaveNext(h)]
  }

  function HandleMany(h: nat, n: nat): seq<Label> {
    if n == 0 then [] else HandleMany(h, n - 1) + HandleOne(h)
  }

  lemma RunThree(w: World, h: nat)
    ensures Run(w, HandleOne(h)) == StepSave(StepLoad(StepAppend(w, h), h), h)
  {
    var a, b, c := AppendNext(h), LoadNext(h), SaveNext(h);
    hide StepSave, StepLoad, StepAppend;
    assert [a, b, c][..2] == [a, b];
    assert [a, b][..1] == [a];
    assert [a][..0] == [];
    assert Run(w, [a]) == StepAppend(w, h);
    assert Run(w, [a, b]) == StepLoad(StepAppend(w, h), h);
  }

  /** A handler logs a new op and loads its record. */
  lemma AppendThenLoad(w: World, h: nat)
    requires Working(w, h) && w.handlers[h].stage.Ready? && Admissible(Current(w, h), w.handlers[h].deviceId)
    requires !HasId(w.server.oplog, Current(w, h).id)
    ensures StepLoad(StepAppend(w, h), h) == w.(
      server := Append(w.server, Current(w, h), 0, true).st,
      handlers := w.handlers[h := w.handlers[h].(
        stage := Loaded(w.server.next, Lookup(w.server, KeyOf(Current(w, h)))))])
  {
  }

  lemma SaveStepIs(w: World, h: nat)
    requires Working(w, h) && w.handlers[h].stage.Loaded?
    ensures StepSave(w, h) == w.(
      server := Settle(w.server, Resolve(w.handlers[h].stage.existing, Current(w, h)), Current(w, h),
        w.handlers[h].stage.serverSeq),
      handlers := w.handlers[h := w.handlers[h].(done := w.handlers[h].done + 1, stage := Ready)])
  {
  }

  /** Redelivering an op the server has only moves the handler on: no row, no counter, no
      record and no conflict row changes. */
  lemma RedeliveredOp(w: World, h: nat)
    requires Working(w, h) && w.handlers[h].stage.Ready? && Admissible(Current(w, h), w.handlers[h].deviceId)
    requires HasId(w.server.oplog, Current(w, h).id)
    ensures var w' := Run(w, HandleOne(h));
      w' == w.(handlers := w.handlers[h := w.handlers[h].(done := w.handlers[h].done + 1)])
  {
    RunThree(w, h);
    var w1 := StepAppend(w, h);
    assert w1 == w.(handlers := w.handlers[h := w.handlers[h].(done := w.handlers[h].done + 1, stage := Ready)]);
    hide StepAppend, Append;
    assert StepLoad(w1, h) == w1;
    assert StepSave(w1, h) == w1;
  }

  /** Whatever other handlers and devices do in between, a handler that comes to an op the
      server has moves past it in one step that changes nothing else. */
  lemma RedeliveredStep(w: World, h: nat)
    requires Reachable(w) && Working(w, h) && w.handlers[h].stage.Ready? && Current(w, h) in ServerLog(w)
    ensures Step(w, AppendNext(h))
      == w.(handlers := w.handlers[h := w.handlers[h].(done := w.handlers[h].done + 1)])
  {
    hide Reachable, DeviceInv, ServerInv, PullInv, ForeignFromServer, History, HandlerInv, Admissible, HasId;
    ReachableInv(w);
    BatchIsAdmissible(w.past, w.server.oplog, w.handlers[h]);
    assert Current(w, h) in w.handlers[h].batch;
  }

  /** An op that arrives under a stored id is the stored op, so what AppendOp returns for it
      is the stored row. */
  lemma RedeliveredOpIsStored(w: World, h: nat, i: nat)
    requires Reachable(w) && Working(w, h) && i < |ServerLog(w)| && ServerLog(w)[i].id == Current(w, h).id
    ensures ServerLog(w)[i] == Current(w, h) && SeqOf(w.server.oplog, Current(w, h).id) == i + 1
  {
    hide Reachable, DeviceInv, PullInv, ForeignFromServer, Plausible;
    ReachableInv(w);
    assert HandlerInv(w.past, w.server.oplog, w.handlers[h]);
    assert ServerLog(w)[i] in ServerLog(w);
    forall j | 0 <= j < i ensures w.server.oplog[j].op.id != Current(w, h).id {
      ServerIdsAreUnique(w, j, i);
    }
    SeqOfFirst(w.server.oplog, Current(w, h).id, i);
  }

  lemma {:induction false} RedeliveredOps(w: World, h: nat, n: nat)
    requires h < |w.handlers| && w.handlers[h].stage.Ready?
    requires w.handlers[h].done + n <= |w.handlers[h].batch|
    requires forall p :: p in w.handlers[h].batch ==>
      Admissible(p, w.handlers[h].deviceId) && HasId(w.server.oplog, p.id)
    ensures Run(w, HandleMany(h, n))
      == w.(handlers := w.handlers[h := w.handlers[h].(done := w.handlers[h].done + n)])
  {
    hide Step, Admissible, HasId;
    if n > 0 {
      RedeliveredOps(w, h, n - 1);
      var mid := Run(w, HandleMany(h, n - 1));
      RunConcat(w, HandleMany(h, n - 1), HandleOne(h));
      assert Current(mid, h) in w.handlers[h].batch;
      RedeliveredOp(mid, h);
    }
  }

  lemma BatchIsAdmissible(h: Past, slog: seq<Row>, hd: Handler)
    requires History(h) && HandlerInv(h, slog, hd)
    ensures forall p :: p in hd.batch ==> Admissible(p, hd.deviceId)
    ensures forall p :: p in hd.batch && p in Ops(slog) ==> HasId(slog, p.id)
  {
    forall p | p in hd.batch && p in Ops(slog) ensures HasId(slog, p.id) {
      HasIdInOps(slog, p.id);
    }
  }

  /** Redelivering any part of a batch whose ops are all on the server is a no-op on the
      whole system but for the handler itself. */
  lemma RedeliveryIsNoOp(w: World, h: nat, n: nat)
    requires Reachable(w) && h < |w.handlers| && w.handlers[h].stage.Ready?
    requires w.handlers[h].done + n <= |w.handlers[h].batch|
    requires forall p :: p in w.handlers[h].batch ==> p in ServerLog(w)
    ensures Run(w, HandleMany(h, n))
      == w.(handlers := w.handlers[h := w.handlers[h].(done := w.handlers[h].done + n)])
  {
    hide Reachable, DeviceInv, ServerInv, PullInv, ForeignFromServer, History, HandlerInv, Step, Admissible, HasId;
    ReachableInv(w);
    BatchIsAdmissible(w.past, w.server.oplog, w.handlers[h]);
    RedeliveredOps(w, h, n);
  }

  // ---------------------------------------------------------------- conflicts

  /** A local write never takes the stale or the conflict branch, whatever the record. */
  lemma LocalWriteFastForwards(dev: Device, d: string, k: Key, change: Option<string>, id: string, phys: int64)
    ensures var op := NewOp(dev, d, k, change, id, Tick(dev.clock, d, phys));
      Resolve(Lookup(dev.st, k), op) == Decision(FromOp(op), false, op.id, "")
  {
    var existing := Lookup(dev.st, k);
    if existing.Some? {
      BumpAdvances(existing.value.vv, d);
    }
  }

  /** A local write is refused exactly when a name it needs is empty. */
  lemma WriteAcceptedIff(dev: Device, d: string, k: Key, change: Option<string>, id: string, phys: int64)
    ensures LocalWrite(dev, d, k, change, id, phys).ok <==>
      id != "" && d != "" && k.collection != "" && k.recordId != ""
  {
  }

  /** The op of a local write: its names, what it carries, whether it creates, updates or
      deletes, its stamp, and the counters, one up for the writer. */
  ghost predicate IsWriteOf(op: Op, existing: Option<Record>, d: string, k: Key, change: Option<string>, id: string,
      stamp: Timestamp)
  {
    && op.id == id && op.deviceId == d && op.collection == k.collection && op.recordId == k.recordId
    && op.payload == change && op.hlc == stamp
    && (op.kind == Kind.Delete <==> change.None?)
    && (op.kind == Kind.Create <==> change.Some? && (existing.None? || existing.value.deleted))
    && forall n :: At(op.vv, n) == (if existing.Some? then At(existing.value.vv, n) else 0) + if n == d then 1 else 0
  }

  /** What an accepted local write does: it is the record, and the last row of the outbox. */
  lemma WriteIs(dev: Device, d: string, k: Key, change: Option<string>, id: string, phys: int64)
    ensures var w, existing := LocalWrite(dev, d, k, change, id, phys), Lookup(dev.st, k);
      && IsWriteOf(w.op, existing, d, k, change, id, w.dev.clock)
      && (w.ok ==> var rec := Lookup(w.dev.st, k);
           && rec.Some? && Shows(rec.value, w.op) && rec.value.vv == w.op.vv
           && (forall j :: j != k ==> Lookup(w.dev.st, j) == Lookup(dev.st, j))
           && w.dev.st.conflicts == dev.st.conflicts && w.dev.st.next == dev.st.next
           && w.dev.st.oplog == dev.st.oplog + if HasId(dev.st.oplog, id) then [] else [Row(w.op, 0, false)])
      && (!w.ok ==> w.dev.st == dev.st)
  {
    LocalWriteFastForwards(dev, d, k, change, id, phys);
    var existing := Lookup(dev.st, k);
    BumpAdvances(if existing.Some? then existing.value.vv else map[], d);
    hide Resolve, Tick;
  }

  lemma FreshIdIsNew(w: World, d: string, id: string)
    requires Reachable(w) && d in w.devices && FreshId(w.past, id)
    ensures !HasId(w.devices[d].st.oplog, id)
  {
    hide Reachable, History, ServerInv, PullInv, ForeignFromServer;
    DeviceFacts(w, d);
    HasIdInOps(w.devices[d].st.oplog, id);
  }

  lemma OutboxGrows(log: seq<Row>, op: Op, d: string)
    requires op.deviceId == d
    ensures Outbox(log + [Row(op, 0, false)], d) == Outbox(log, d) + [op]
  {
    assert (log + [Row(op, 0, false)])[..|log|] == log;
  }

  /** In every reachable state, whatever pushes and pulls are under way, every device can write
      to every record: the write is shown, is the last op of the log and of the outbox, and its
      past is the log before it.  Nothing else changes. */
  lemma WriteIsStep(w: World, d: string, k: Key, change: Option<string>, id: string, phys: int64) returns (p: Op)
    requires Reachable(w) && d in w.devices && FreshId(w.past, id)
    requires id != "" && d != "" && k.collection != "" && k.recordId != ""
    ensures var now := Step(w, Write(d, k, change, id, phys));
      && now.server == w.server && now.handlers == w.handlers && now.pulls == w.pulls
      && now.readings == w.readings + [phys] && now.devices.Keys == w.devices.Keys
      && (forall e :: e in w.devices && e != d ==> now.devices[e] == w.devices[e])
      && var was, here := w.devices[d], now.devices[d];
         && here.checkpoint == was.checkpoint && here.st.conflicts == was.st.conflicts
         && IsWriteOf(p, Lookup(was.st, k), d, k, change, id, here.clock)
         && Lookup(here.st, k).Some? && Shows(Lookup(here.st, k).value, p) && Lookup(here.st, k).value.vv == p.vv
         && (forall j :: j != k ==> Lookup(here.st, j) == Lookup(was.st, j))
         && LogOf(now, d) == LogOf(w, d) + [p] && Outbox(here.st.oplog, d) == Outbox(was.st.oplog, d) + [p]
         && p !in w.past && now.past.Keys == w.past.Keys + {p}
         && (forall q :: q in w.past ==> now.past[q] == w.past[q])
         && forall q :: q in now.past[p] <==> q in LogOf(w, d)
  {
    var dev := w.devices[d];
    FreshIdIsNew(w, d, id);
    WriteAcceptedIff(dev, d, k, change, id, phys);
    WriteIs(dev, d, k, change, id, phys);
    p := LocalWrite(dev, d, k, change, id, phys).op;
    OpsAppend(dev.st.oplog, Row(p, 0, false));
    OutboxGrows(dev.st.oplog, p, d);
    hide Reachable, Shows, Outbox, Ops, HasId, Lookup;
  }

  /** What one application of a new row does to the log and the audit rows. */
  lemma ApplyNewRow(dev: Device, d: string, row: Row, phys: int64)
    requires !HasId(dev.st.oplog, row.op.id)
    ensures var after, dec := ApplyRow(dev, d, row, phys).st, Resolve(Lookup(dev.st, KeyOf(row.op)), row.op);
      && Ops(after.oplog) == Ops(dev.st.oplog) + [row.op]
      && after.conflicts == dev.st.conflicts
           + if dec.conflicted then [AuditRow(dec, row.op, row.serverSeq)] else []
  {
    OpsAppend(dev.st.oplog, Row(row.op, row.serverSeq, false));
    hide Resolve;
  }

  lemma NewToDevice(h: Past, slog: seq<Row>, dev: Device, d: string, op: Op)
    requires History(h) && DeviceInv(h, slog, dev, d) && op in h && op !in Ops(dev.st.oplog)
    ensures !HasId(dev.st.oplog, op.id) && CausalLog(h, Ops(dev.st.oplog))
    ensures Lookup(dev.st, KeyOf(op)) == Fold(OnKey(Ops(dev.st.oplog), KeyOf(op)))
  {
    HasIdInOps(dev.st.oplog, op.id);
  }

  /** Applying a new pulled op never takes the stale branch.  It adds one audit row exactly
      when some op in the device's log on that record is causally concurrent with it, and
      the row names the latest of all ops applied by then and an earlier one. */
  lemma DeviceDetectsExactly(w: World, d: string, phys: int64)
    requires Reachable(w) && d in w.devices && d in w.pulls && w.pulls[d].pos < |w.pulls[d].page.rows|
    requires w.pulls[d].page.rows[w.pulls[d].pos].op !in LogOf(w, d)
    ensures var q, w' := w.pulls[d].page.rows[w.pulls[d].pos].op, Step(w, ApplyNext(d, phys));
      var existing := Lookup(w.devices[d].st, KeyOf(q));
      && (existing.Some? ==> Relate(existing.value.vv, q.vv).Ancestor? || Relate(existing.value.vv, q.vv).Concurrent?)
      && d in w'.devices && LogOf(w', d) == LogOf(w, d) + [q]
      && if exists p :: p in LogOf(w, d) && KeyOf(p) == KeyOf(q) && ConcurrentIn(w.past, p, q)
         then exists c :: w'.devices[d].st.conflicts == w.devices[d].st.conflicts + [c] && RowIsRight(c, LogOf(w', d))
         else w'.devices[d].st.conflicts == w.devices[d].st.conflicts
  {
    hide DeviceInv, ServerInv, PullInv, ForeignFromServer, History, Reachable, ConcurrentIn, ApplyRow, Resolve,
      CausalLog, Validates, HasId, Lookup, RowIsRight, Relate, Fold, OnKey;
    var dev, pull := w.devices[d], w.pulls[d];
    var row := pull.page.rows[pull.pos];
    DeviceFacts(w, d);
    PulledRow(w.past, w.server, dev, pull);
    NewToDevice(w.past, w.server.oplog, dev, d, row.op);
    DetectionIsExact(w.past, LogOf(w, d), row.op);
    ApplyNewRow(dev, d, row, phys);
    if Resolve(Lookup(dev.st, KeyOf(row.op)), row.op).conflicted {
      ConflictNamesLatest(w.past, LogOf(w, d), row.op, row.serverSeq);
    }
  }

  lemma DeviceConflicts(h: Past, slog: seq<Row>, dev: Device, d: string)
    requires DeviceInv(h, slog, dev, d)
    ensures ConflictsRight(dev.st)
  {
  }

  /** Every audit row a device keeps was added when one log row arrived: it carries that
      row's number, names its op, and names as winner the latest of the ops applied by then
      and as loser another of them with a smaller timestamp. */
  lemma ConflictRowsAreRight(w: World, d: string, c: ConflictRow)
    requires Reachable(w) && d in w.devices && c in w.devices[d].st.conflicts
    ensures exists n :: FoundAt(c, w.devices[d].st.oplog, n)
  {
    hide DeviceInv, ServerInv, PullInv, ForeignFromServer, History, Reachable, FoundAt;
    DeviceFacts(w, d);
    DeviceConflicts(w.past, w.server.oplog, w.devices[d], d);
  }
}
