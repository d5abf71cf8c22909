/** Two rounds of Sync make everyone agree (pkg/client/sync.go:15-46, and the scenario of
    test/integration/sync_integration_test.go for any number of devices and any history). */
module Rounds {
  import opened Hlc
  import opened Oplog
  import opened Conflict
  import opened Store
  import opened Causality
  import opened Protocol
  import opened Invariants
  import opened Safety
  import opened Theorems
  import opened ServerRecords
  import opened ServerTheorems
  import opened Sync

  // ---------------------------------------------------------------- runs without writes

  lemma {:induction false} NoWritesKeepPast(w: World, run: seq<Label>)
    requires NoWrites(run)
    ensures Run(w, run).past == w.past
  {
    hide LocalWrite, ApplyRow, Outbox, PageSince, Append, Settle, MarkAll, Elements, Ops, Admissible;
    if run != [] {
      assert run[|run| - 1] in run;
      NoWritesKeepPast(w, run[..|run| - 1]);
    }
  }

  /** A run without writes from a reachable state. */
  lemma QuietProgress(w: World, run: seq<Label>)
    requires Reachable(w) && NoWrites(run) && |Run(w, run).readings| <= MAX_LOGICAL
    ensures Reachable(Run(w, run)) && Run(w, run).past == w.past && Extends(w, Run(w, run))
  {
    hide Reachable, Run;
    ReachableRun(w, run);
    NoWritesKeepPast(w, run);
    RunExtends(w, run);
  }

  // ---------------------------------------------------------------- one push

  lemma {:induction false} HandledAreStored(st: Store, d: string, ops: seq<Op>)
    requires HandleOps(st, d, ops).ok
    ensures forall p :: p in ops ==> HasId(HandleOps(st, d, ops).st.oplog, p.id)
  {
    hide Resolve, Settle, Admissible;
    if ops != [] {
      var front, op := ops[..|ops| - 1], ops[|ops| - 1];
      HandledAreStored(st, d, front);
      Front(ops);
      IngestStores(HandleOps(st, d, front).st, op);
    }
  }

  lemma IngestStores(st: Store, op: Op)
    ensures var st' := Ingest(st, op, 0, true).st;
      HasId(st'.oplog, op.id) && forall id :: HasId(st.oplog, id) ==> HasId(st'.oplog, id)
  {
    hide Resolve;
    var st' := Ingest(st, op, 0, true).st;
    if !HasId(st.oplog, op.id) {
      assert st'.oplog == st.oplog + [Row(op, st.next, false)];
      assert st'.oplog[|st.oplog|].op.id == op.id;
      forall id | HasId(st.oplog, id) ensures HasId(st'.oplog, id) {
        var i :| 0 <= i < |st.oplog| && st.oplog[i].op.id == id;
        assert st'.oplog[i].op.id == id;
      }
    }
  }

  lemma ReachablePush(w: World, d: string)
    requires Reachable(w) && d in w.devices
    ensures forall p :: p in Outbox(w.devices[d].st.oplog, d) ==> Admissible(p, d)
    ensures Run(w, PushRun(w, d)) == SyncPush(w, d) && NoWrites(PushRun(w, d))
    ensures HandleOps(w.server, d, Outbox(w.devices[d].st.oplog, d)).ok
  {
    hide Reachable, DeviceInv, ServerInv, PullInv, ForeignFromServer, History, Admissible, Outbox, HandlerInv, Run;
    DeviceFacts(w, d);
    var batch := Outbox(w.devices[d].st.oplog, d);
    OutboxIsBatch(w.past, w.server.oplog, w.devices[d], d, Horizon(w.devices[d], w.pulls, d));
    BatchIsAdmissible(w.past, w.server.oplog, Handler(d, batch, 0, Ready));
    SyncPushIsRun(w, d);
    HandleOpsAccept(w.server, d, batch);
  }

  lemma {:induction false} HandleOpsAccept(st: Store, d: string, ops: seq<Op>)
    requires forall p :: p in ops ==> Admissible(p, d)
    ensures HandleOps(st, d, ops).ok
  {
    hide Admissible, Ingest;
    if ops != [] {
      Front(ops);
      HandleOpsAccept(st, d, ops[..|ops| - 1]);
      assert ops[|ops| - 1] in ops;
    }
  }

  /** A push that is answered leaves the outbox empty and every write of the device on the
      server. */
  lemma PushDelivers(w: World, d: string)
    requires Reachable(w) && d in w.devices
    ensures Reachable(SyncPush(w, d)) && SyncPush(w, d).past == w.past && Extends(w, SyncPush(w, d))
    ensures d in SyncPush(w, d).devices && Outbox(SyncPush(w, d).devices[d].st.oplog, d) == []
    ensures forall p :: p in w.past && p.deviceId == d ==> p in ServerLog(SyncPush(w, d))
  {
    hide Reachable, DeviceInv, Admissible, Outbox, HandleOps, Run, MarkAll, Ops, HasId;
    var w' := SyncPush(w, d);
    ReachablePush(w, d);
    assert w'.readings == w.readings;
    ReachableBound(w);
    QuietProgress(w, PushRun(w, d));
    MarkedOutboxIsEmpty(w.devices[d].st, d);
    var batch := Outbox(w.devices[d].st.oplog, d);
    HandledAreStored(w.server, d, batch);
    forall p | p in w.past && p.deviceId == d ensures p in ServerLog(w') {
      WritesAreConserved(w, p);
      if p in batch {
        StoredById(w', p);
      }
    }
  }

  lemma StoredById(w: World, p: Op)
    requires Reachable(w) && p in w.past && HasId(w.server.oplog, p.id)
    ensures p in ServerLog(w)
  {
    hide Reachable, DeviceInv, PullInv, ForeignFromServer, HandlerInv, Plausible;
    ReachableInv(w);
    HasIdInOps(w.server.oplog, p.id);
  }

  lemma {:induction false} NothingPending(log: seq<Row>, d: string)
    requires forall i :: 0 <= i < |log| ==> log[i].op.deviceId != d || log[i].pushed
    ensures Outbox(log, d) == []
  {
    if log != [] {
      NothingPending(log[..|log| - 1], d);
    }
  }

  lemma MarkedOutboxIsEmpty(st: Store, d: string)
    ensures Outbox(MarkAll(st, Ids(Outbox(st.oplog, d))).oplog, d) == []
  {
    var batch := Outbox(st.oplog, d);
    var st' := MarkAll(st, Ids(batch));
    OutboxMembers(st.oplog, d);
    forall i | 0 <= i < |st'.oplog| ensures st'.oplog[i].op.deviceId != d || st'.oplog[i].pushed {
      if st.oplog[i].op.deviceId == d && !st.oplog[i].pushed {
        var j :| 0 <= j < |batch| && batch[j] == st.oplog[i].op;
        assert Ids(batch)[j] == st.oplog[i].op.id;
      }
    }
    NothingPending(st'.oplog, d);
  }

  // ---------------------------------------------------------------- one pull

  lemma ServerRowsValidate(w: World)
    requires Reachable(w)
    ensures Dense(w.server)
    ensures forall i :: 0 <= i < |w.server.oplog| ==> Validates(w.server.oplog[i].op)
  {
    hide Reachable, DeviceInv, PullInv, ForeignFromServer, HandlerInv, Plausible, Validates;
    ReachableInv(w);
    forall i | 0 <= i < |w.server.oplog| ensures Validates(w.server.oplog[i].op) {
      assert ServerLog(w)[i] in ServerLog(w);
    }
  }

  /** A pull that completes leaves the device with the whole server log. */
  lemma PullCatchesUp(w: World, d: string, walls: nat -> int64)
    requires Reachable(w) && d in w.devices && |SyncPull(w, d, walls).readings| <= MAX_LOGICAL
    ensures Reachable(SyncPull(w, d, walls)) && SyncPull(w, d, walls).past == w.past
    ensures Extends(w, SyncPull(w, d, walls)) && SyncPull(w, d, walls).server == w.server
    ensures d in SyncPull(w, d, walls).devices
    ensures SyncPull(w, d, walls).devices[d].checkpoint == |w.server.oplog|
    ensures forall p :: p in ServerLog(w) ==> p in LogOf(SyncPull(w, d, walls), d)
  {
    hide Reachable, Validates, PullAll, Run, Ops;
    var w' := SyncPull(w, d, walls);
    ServerRowsValidate(w);
    DeviceLogIsBounded(w, d);
    assert |ServerLog(w)| == |w.server.oplog|;
    var run := SyncPullIsRun(w, d, walls);
    QuietProgress(w, run);
    DeviceLogIsBounded(w', d);
    assert ServerLog(w)[..|w.server.oplog|] == ServerLog(w);
  }

  // ---------------------------------------------------------------- one Sync, one round

  lemma SyncDelivers(w: World, d: string, walls: nat -> int64)
    requires Reachable(w) && d in w.devices && |SyncOne(w, d, walls).readings| <= MAX_LOGICAL
    ensures var w' := SyncOne(w, d, walls);
      && Reachable(w') && w'.past == w.past && Extends(w, w') && d in w'.devices
      && (forall p :: p in w.past && p.deviceId == d ==> p in ServerLog(w'))
      && (forall p :: p in ServerLog(w') ==> p in LogOf(w', d))
  {
    hide Reachable, SyncPush, SyncPull;
    PushDelivers(w, d);
    PullCatchesUp(SyncPush(w, d), d, walls);
    ExtendsTransitive(w, SyncPush(w, d), SyncOne(w, d, walls));
  }

  lemma SyncReadingsGrow(w: World, d: string, walls: nat -> int64)
    requires d in w.devices
    ensures |w.readings| <= |SyncOne(w, d, walls).readings|
  {
    hide PullAll, HandleOps, Outbox, MarkAll;
  }

  /** After a round, the server holds every write of every device that took part. */
  lemma {:induction false} RoundDelivers(w: World, order: seq<string>, walls: nat -> int64)
    requires Reachable(w) && forall d :: d in order ==> d in w.devices
    requires |Round(w, order, walls).readings| <= MAX_LOGICAL
    ensures var w' := Round(w, order, walls);
      && Reachable(w') && w'.past == w.past && Extends(w, w')
      && (forall p :: p in w.past && p.deviceId in order ==> p in ServerLog(w'))
  {
    hide Reachable, SyncOne, Extends;
    if order == [] {
      ExtendsReflexive(w);
    } else {
      var n := |order| - 1;
      var mid, w' := Round(w, order[..n], walls), Round(w, order, walls);
      SyncReadingsGrow(mid, order[n], walls);
      RoundDelivers(w, order[..n], walls);
      SyncDelivers(mid, order[n], walls);
      ExtendsTransitive(w, mid, w');
      forall p | p in w.past && p.deviceId in order ensures p in ServerLog(w') {
        if p.deviceId != order[n] {
          var i :| 0 <= i < |order| && order[i] == p.deviceId;
          assert order[..n][i] == p.deviceId;
          ServerKeeps(mid, w', p);
        }
      }
    }
  }

  lemma ExtendsReflexive(w: World)
    ensures Extends(w, w)
  {
  }

  lemma ServerKeeps(w: World, w': World, p: Op)
    requires Extends(w, w') && p in ServerLog(w)
    ensures p in ServerLog(w')
  {
    OpsPrefix(w.server.oplog, w'.server.oplog);
  }

  lemma DeviceKeeps(w: World, w': World, d: string, p: Op)
    requires Extends(w, w') && d in w.devices && p in LogOf(w, d)
    ensures d in w'.devices && p in LogOf(w', d)
  {
  }

  /** A server that holds every write stays as it is. */
  lemma FullServerIsFixed(w: World, w': World)
    requires Reachable(w') && Extends(w, w') && w'.past == w.past
    requires forall p :: p in w.past ==> p in ServerLog(w)
    ensures ServerLog(w') == ServerLog(w)
  {
    hide Reachable, DeviceInv, PullInv, ForeignFromServer, HandlerInv, Plausible, History;
    ReachableInv(w');
    OpsPrefix(w.server.oplog, w'.server.oplog);
    FullPrefix(ServerLog(w), ServerLog(w'));
  }

  lemma FullPrefix(a: seq<Op>, b: seq<Op>)
    requires a <= b && NoRepeats(b) && forall p :: p in b ==> p in a
    ensures a == b
  {
    LongerRepeats(a, b);
  }

  lemma LongerRepeats(a: seq<Op>, b: seq<Op>)
    requires a <= b && forall p :: p in b ==> p in a
    ensures |a| < |b| ==> !NoRepeats(b)
  {
    if |a| < |b| {
      assert b[|a|] in b;
      var i :| 0 <= i < |a| && a[i] == b[|a|];
      assert b[i] == a[i];
    }
  }

  /** Once the server holds every write, a device that syncs ends up with all of them. */
  lemma {:induction false} SecondRound(w: World, order: seq<string>, walls: nat -> int64)
    requires Reachable(w) && forall d :: d in order ==> d in w.devices
    requires |Round(w, order, walls).readings| <= MAX_LOGICAL
    requires forall p :: p in w.past ==> p in ServerLog(w)
    ensures Reachable(Round(w, order, walls)) && Round(w, order, walls).past == w.past
    ensures Extends(w, Round(w, order, walls))
    ensures ServerLog(Round(w, order, walls)) == ServerLog(w)
    ensures forall d, p :: d in order && p in w.past ==> p in LogOf(Round(w, order, walls), d)
  {
    hide Reachable, SyncOne, Extends, Ops;
    RoundDelivers(w, order, walls);
    FullServerIsFixed(w, Round(w, order, walls));
    if order != [] {
      var n := |order| - 1;
      var mid, w' := Round(w, order[..n], walls), Round(w, order, walls);
      SyncReadingsGrow(mid, order[n], walls);
      SecondRound(w, order[..n], walls);
      SyncDelivers(mid, order[n], walls);
      forall d, p | d in order && p in w.past ensures p in LogOf(w', d) {
        if d != order[n] {
          var i :| 0 <= i < |order| && order[i] == d;
          assert order[..n][i] == d;
          DeviceKeeps(mid, w', d, p);
        }
      }
    }
  }

  // ---------------------------------------------------------------- the theorem

  /** Two rounds suffice.  From any reachable state, with no writes in between: if every
      device that ever wrote takes part in the first round, then after the second round
      every device that took part in it (a fresh one included) holds exactly the writes the
      server holds, which are all of them, and all their records are identical. */
  lemma TwoRoundsSuffice(w: World, first: seq<string>, second: seq<string>, walls: nat -> int64)
    requires Reachable(w)
    requires forall d :: d in first || d in second ==> d in w.devices
    requires forall p :: p in w.past ==> p.deviceId in first
    requires |Round(Round(w, first, walls), second, walls).readings| <= MAX_LOGICAL
    ensures var w' := Round(Round(w, first, walls), second, walls);
      && Reachable(w') && w'.past == w.past
      && (forall p :: p in w.past <==> p in ServerLog(w'))
      && (forall d, p :: d in second ==> (p in w.past <==> p in LogOf(w', d)))
      && (forall d, e, k :: d in second && e in second ==> Lookup(w'.devices[d].st, k) == Lookup(w'.devices[e].st, k))
  {
    hide Reachable, Extends, Ops, SyncOne, Round;
    var mid := Round(w, first, walls);
    var w' := Round(mid, second, walls);
    RoundReadingsGrow(mid, second, walls);
    RoundDelivers(w, first, walls);
    SecondRound(mid, second, walls);
    LogsHoldKnownOps(w');
    forall d, e, k | d in second && e in second
      ensures Lookup(w'.devices[d].st, k) == Lookup(w'.devices[e].st, k)
    {
      DevicesConverge(w', d, e, k);
    }
  }

  // ---------------------------------------------------------------- rounds whose calls interleave

  /** Nothing waits to be pushed: every writer's push was acknowledged. */
  predicate AllPushed(w: World) {
    forall d :: d in w.devices ==> Outbox(w.devices[d].st.oplog, d) == []
  }

  /** Once nothing waits to be pushed, the server has every write. */
  lemma PushedIsOnServer(w: World)
    requires Reachable(w) && AllPushed(w)
    ensures forall p :: p in w.past ==> p in ServerLog(w)
  {
    hide Reachable, Outbox, Ops;
    forall p | p in w.past ensures p in ServerLog(w) {
      WritesAreConserved(w, p);
    }
  }

  /** The last page of a pull by d: fetched at i, saved at j, nothing left beyond it. */
  ghost predicate PullEnds(w: World, run: seq<Label>, d: string, i: nat, j: nat) {
    && i < j < |run| && d in w.devices
    && run[i] == Fetch(d) && run[j] == SavePage(d)
    && (forall m :: i < m < j ==> run[m] != Fetch(d) && run[m] != SavePage(d))
    && AtLastPage(Run(w, run[..i]), d) && PageApplied(Run(w, run[..j]), d)
  }

  /** A page fetched now would be the last one. */
  predicate AtLastPage(w: World, d: string) {
    d in w.devices && !PageSince(w.server.oplog, w.devices[d].checkpoint, "", PULL_PAGE_SIZE).hasMore
  }

  predicate PageApplied(w: World, d: string) {
    d in w.pulls && w.pulls[d].pos == |w.pulls[d].page.rows|
  }

  /** The device fetched a page and goes on applying it. */
  predicate Holding(w: World, d: string, page: Page, checkpoint: int) {
    d in w.devices && d in w.pulls && w.pulls[d].page == page && w.devices[d].checkpoint == checkpoint
  }

  lemma StepKeepsPage(w: World, l: Label, d: string, page: Page, checkpoint: int)
    requires Holding(w, d, page, checkpoint) && l != Fetch(d) && l != SavePage(d)
    ensures Holding(Step(w, l), d, page, checkpoint)
  {
    hide Tick, Receive, Resolve, Append, Settle, Ingest, NewOp, Outbox, PageSince, Elements, Ops, Validates, FreshId,
      HasId, SeqOf, Admissible;
  }

  lemma {:induction false} RunKeepsPage(w: World, run: seq<Label>, d: string, page: Page, checkpoint: int)
    requires Holding(w, d, page, checkpoint) && forall l :: l in run ==> l != Fetch(d) && l != SavePage(d)
    ensures Holding(Run(w, run), d, page, checkpoint)
  {
    hide Step, Holding;
    if run != [] {
      var front, l := run[..|run| - 1], run[|run| - 1];
      assert l in run && forall m :: m in front ==> m in run;
      RunKeepsPage(w, front, d, page, checkpoint);
      StepKeepsPage(Run(w, front), l, d, page, checkpoint);
    }
  }

  lemma FetchHolds(w: World, d: string)
    requires d in w.devices
    ensures Holding(Step(w, Fetch(d)), d,
      PageSince(w.server.oplog, w.devices[d].checkpoint, "", PULL_PAGE_SIZE), w.devices[d].checkpoint)
  {
    hide PageSince;
  }

  lemma AppliedAll(slog: seq<Row>, dev: Device, pull: Pulling, n: nat)
    requires PullInv(slog, dev, pull) && pull.pos == |pull.page.rows| && n <= dev.checkpoint + |pull.page.rows|
    ensures n <= |slog| && forall p :: p in Ops(slog)[..n] ==> p in Ops(dev.st.oplog)
  {
    PrefixInLog(slog, dev, dev.checkpoint + pull.pos);
    forall p | p in Ops(slog)[..n] ensures p in Ops(slog)[..dev.checkpoint + pull.pos] {
      var i :| 0 <= i < n && Ops(slog)[..n][i] == p;
      assert Ops(slog)[..dev.checkpoint + pull.pos][i] == p;
    }
  }

  lemma LastPageReachesEnd(w: World, d: string)
    requires Reachable(w) && d in w.devices
    requires !PageSince(w.server.oplog, w.devices[d].checkpoint, "", PULL_PAGE_SIZE).hasMore
    ensures var page := PageSince(w.server.oplog, w.devices[d].checkpoint, "", PULL_PAGE_SIZE);
      w.devices[d].checkpoint + |page.rows| == |w.server.oplog|
  {
    hide Reachable, PageSince, Validates, Ops;
    ServerRowsValidate(w);
    DeviceLogIsBounded(w, d);
    assert |ServerLog(w)| == |w.server.oplog|;
    PageIsNextSlice(w.server, w.devices[d].checkpoint);
  }

  /** A device that ended a pull during the run has what the server had when the run began. */
  lemma EndedPullCatchesUp(w: World, run: seq<Label>, d: string, i: nat, j: nat)
    requires Reachable(w) && |Run(w, run).readings| <= MAX_LOGICAL && PullEnds(w, run, d, i, j)
    ensures d in Run(w, run).devices
    ensures forall p :: p in ServerLog(w) ==> p in LogOf(Run(w, run), d)
  {
    hide Reachable, Run, Step, PageSince, Ops, PullInv, DeviceInv, ForeignFromServer, History, ServerInv;
    var at, end := Run(w, run[..i]), Run(w, run[..j]);
    PrefixReads(w, run, i);
    PrefixReads(w, run, j);
    ReachableRun(w, run[..i]);
    ReachableRun(w, run[..j]);
    LastPageReachesEnd(at, d);
    HeldPage(w, run, d, i, j);
    DeviceFacts(end, d);
    var n := |w.server.oplog|;
    RunExtends(w, run[..i]);
    RunExtends(w, run[..j]);
    assert |at.server.oplog| >= n;
    AppliedAll(end.server.oplog, end.devices[d], end.pulls[d], n);
    OpsPrefix(w.server.oplog, end.server.oplog);
    assert |ServerLog(w)| == n && ServerLog(end)[..n] == ServerLog(w);
    LaterKeepsLog(w, run, d, j);
  }

  lemma HeldPage(w: World, run: seq<Label>, d: string, i: nat, j: nat)
    requires PullEnds(w, run, d, i, j)
    ensures var at := Run(w, run[..i]);
      d in at.devices && Holding(Run(w, run[..j]), d,
        PageSince(at.server.oplog, at.devices[d].checkpoint, "", PULL_PAGE_SIZE), at.devices[d].checkpoint)
  {
    hide Run, Step, PageSince, Holding;
    var at, mid := Run(w, run[..i]), run[i + 1..j];
    FetchHolds(at, d);
    assert run[..i + 1] == run[..i] + [run[i]];
    RunConcat(w, run[..i], [run[i]]);
    RunOne(at, run[i]);
    assert run[..j] == run[..i + 1] + mid;
    RunConcat(w, run[..i + 1], mid);
    forall l | l in mid ensures l != Fetch(d) && l != SavePage(d) {
      var m :| 0 <= m < |mid| && mid[m] == l;
      assert run[i + 1 + m] == l;
    }
    RunKeepsPage(Run(w, run[..i + 1]), mid, d,
      PageSince(at.server.oplog, at.devices[d].checkpoint, "", PULL_PAGE_SIZE), at.devices[d].checkpoint);
  }

  lemma LaterKeepsLog(w: World, run: seq<Label>, d: string, j: nat)
    requires j <= |run| && d in Run(w, run[..j]).devices
    ensures d in Run(w, run).devices
    ensures forall p :: p in LogOf(Run(w, run[..j]), d) ==> p in LogOf(Run(w, run), d)
  {
    hide Run, Ops;
    assert run == run[..j] + run[j..];
    RunConcat(w, run[..j], run[j..]);
    RunExtends(Run(w, run[..j]), run[j..]);
  }

  /** Two rounds with their calls interleaved in any way, retried, cut or abandoned: any run
      without writes that comes to a state in which nothing waits to be pushed, and any run
      without writes from there in which every device of `ds` ends a pull.  Then the server and
      all of `ds` hold exactly all writes, and all their records are identical. */
  lemma InterleavedRoundsSuffice(w: World, first: seq<Label>, second: seq<Label>, ds: set<string>)
    requires Reachable(w) && NoWrites(first) && NoWrites(second)
    requires |Run(Run(w, first), second).readings| <= MAX_LOGICAL
    requires AllPushed(Run(w, first))
    requires forall d :: d in ds ==> exists i, j :: PullEnds(Run(w, first), second, d, i, j)
    ensures var w' := Run(Run(w, first), second);
      && Reachable(w') && w'.past == w.past
      && (forall p :: p in w.past <==> p in ServerLog(w'))
      && (forall d :: d in ds ==> d in w'.devices && forall p :: p in w.past <==> p in LogOf(w', d))
      && (forall d, e, k :: d in ds && e in ds ==> Lookup(w'.devices[d].st, k) == Lookup(w'.devices[e].st, k))
  {
    hide Reachable, Run, Ops, PullEnds, Extends, AllPushed, NoWrites, Lookup;
    var mid := Run(w, first);
    var w' := Run(mid, second);
    RunReads(mid, second);
    QuietProgress(w, first);
    QuietProgress(mid, second);
    PushedIsOnServer(mid);
    FullServerIsFixed(mid, w');
    LogsHoldKnownOps(w');
    forall d | d in ds ensures d in w'.devices && forall p :: p in w.past <==> p in LogOf(w', d) {
      var i, j :| PullEnds(mid, second, d, i, j);
      EndedPullCatchesUp(mid, second, d, i, j);
    }
    forall d, e, k | d in ds && e in ds ensures Lookup(w'.devices[d].st, k) == Lookup(w'.devices[e].st, k) {
      DevicesConverge(w', d, e, k);
    }
  }

  lemma RunReads(w: World, run: seq<Label>)
    ensures |w.readings| <= |Run(w, run).readings|
  {
    hide Run;
    PrefixReads(w, run, 0);
    RunNone(w);
  }

  lemma {:induction false} RoundReadingsGrow(w: World, order: seq<string>, walls: nat -> int64)
    requires forall d :: d in order ==> d in w.devices
    ensures |w.readings| <= |Round(w, order, walls).readings|
  {
    hide SyncOne;
    if order != [] {
      var n := |order| - 1;
      RoundReadingsGrow(w, order[..n], walls);
      SyncReadingsGrow(Round(w, order[..n], walls), order[n], walls);
    }
  }

  lemma LogsHoldKnownOps(w: World)
    requires Reachable(w)
    ensures forall p :: p in ServerLog(w) ==> p in w.past
    ensures forall d, p :: d in w.devices && p in LogOf(w, d) ==> p in w.past
  {
    hide Reachable, PullInv, ForeignFromServer, HandlerInv, Plausible, History;
    ReachableInv(w);
    forall d, p | d in w.devices && p in LogOf(w, d) ensures p in w.past {
      DeviceLogIsCausal(w, d);
    }
  }

  // ---------------------------------------------------------------- the server's own table

  lemma {:induction false} NoSavesLossless(w: World, run: seq<Label>)
    requires forall l :: l in run ==> !l.SaveNext?
    ensures LosslessRun(w, run)
  {
    hide Run, Step, LosesNothing;
    if run != [] {
      assert run[|run| - 1] in run;
      NoSavesLossless(w, run[..|run| - 1]);
    }
  }

  lemma LosslessSnoc(w: World, run: seq<Label>, l: Label)
    requires LosslessRun(w, run) && LosslessStep(Run(w, run), l)
    ensures LosslessRun(w, run + [l])
  {
    assert (run + [l])[..|run|] == run;
  }

  /** A handler that takes its three steps in a row saves the record it has just loaded. */
  lemma HandleOneLossless(w: World, h: nat)
    requires h < |w.handlers| && w.handlers[h].stage.Ready?
    ensures LosslessRun(w, HandleOne(h))
  {
    var a, b, c := AppendNext(h), LoadNext(h), SaveNext(h);
    var w2 := StepLoad(StepAppend(w, h), h);
    LoadedNow(w, h);
    hide StepAppend, StepLoad, StepSave, LosslessRun, Run;
    FreshLoadLosesNothing(w2, h);
    RunTwo(w, h);
    NoSavesLossless(w, [a, b]);
    LosslessSnoc(w, [a, b], c);
    assert [a, b] + [c] == HandleOne(h);
  }

  lemma RunTwo(w: World, h: nat)
    ensures Run(w, [AppendNext(h), LoadNext(h)]) == StepLoad(StepAppend(w, h), h)
  {
    hide StepAppend, StepLoad;
    RunConcat(w, [AppendNext(h)], [LoadNext(h)]);
    RunOne(w, AppendNext(h));
    RunOne(StepAppend(w, h), LoadNext(h));
    assert [AppendNext(h)] + [LoadNext(h)] == [AppendNext(h), LoadNext(h)];
  }

  lemma LoadedNow(w: World, h: nat)
    requires h < |w.handlers| && w.handlers[h].stage.Ready?
    ensures var w2 := StepLoad(StepAppend(w, h), h);
      Working(w2, h) && w2.handlers[h].stage.Loaded? ==>
        w2.handlers[h].stage.existing == Lookup(w2.server, KeyOf(Current(w2, h)))
  {
    hide HasId, SeqOf, Admissible;
  }

  lemma {:induction false} HandleManyLossless(w: World, h: nat, n: nat)
    requires h < |w.handlers| && w.handlers[h].done == 0 && n <= |w.handlers[h].batch| && w.handlers[h].stage.Ready?
    requires forall p :: p in w.handlers[h].batch ==> Admissible(p, w.handlers[h].deviceId)
    ensures LosslessRun(w, HandleMany(h, n))
  {
    hide Run, Step, Admissible, HandleOps, LosslessStep;
    if n > 0 {
      HandleManyLossless(w, h, n - 1);
      HandleManyIs(w, h, n - 1);
      HandleOneLossless(Run(w, HandleMany(h, n - 1)), h);
      LosslessConcat(w, HandleMany(h, n - 1), HandleOne(h));
    }
  }

  lemma PushIsLossless(w: World, d: string)
    requires d in w.devices
    requires forall p :: p in Outbox(w.devices[d].st.oplog, d) ==> Admissible(p, d)
    ensures LosslessRun(w, PushRun(w, d))
  {
    hide Admissible, HandleOps, Outbox, Run, MarkAll, LosslessRun;
    var batch, h := Outbox(w.devices[d].st.oplog, d), |w.handlers|;
    if batch == [] {
      NoSavesLossless(w, []);
    } else {
      var w1 := Step(w, Send(d));
      assert w1 == w.(handlers := w.handlers + [Handler(d, batch, 0, Ready)]);
      hide Step;
      RunOne(w, Send(d));
      NoSavesLossless(w, [Send(d)]);
      HandleManyLossless(w1, h, |batch|);
      LosslessConcat(w, [Send(d)], HandleMany(h, |batch|));
      RunConcat(w, [Send(d)], HandleMany(h, |batch|));
      NoSavesLossless(Run(w1, HandleMany(h, |batch|)), [Acknowledge(h)]);
      LosslessConcat(w, [Send(d)] + HandleMany(h, |batch|), [Acknowledge(h)]);
    }
  }

  lemma SyncStaysLossless(w: World, d: string, walls: nat -> int64)
    requires ReachableLosslessly(w) && d in w.devices && |SyncOne(w, d, walls).readings| <= MAX_LOGICAL
    ensures ReachableLosslessly(SyncOne(w, d, walls))
  {
    hide Reachable, ReachableLosslessly, LosslessRun, Validates, PullAll, Run, Outbox, HandleOps, MarkAll, Admissible,
      TableInv, Inv, Complete;
    LosslessFacts(w);
    ReachablePush(w, d);
    PushIsLossless(w, d);
    var mid := SyncPush(w, d);
    assert mid.readings == w.readings;
    ReachableBound(w);
    LosslessRunOn(w, PushRun(w, d));
    LosslessFacts(mid);
    ServerRowsValidate(mid);
    DeviceLogIsBounded(mid, d);
    var run := SyncPullIsRun(mid, d, walls);
    NoSavesLossless(mid, run);
    LosslessRunOn(mid, run);
  }

  lemma {:induction false} RoundStaysLossless(w: World, order: seq<string>, walls: nat -> int64)
    requires ReachableLosslessly(w) && forall d :: d in order ==> d in w.devices
    requires |Round(w, order, walls).readings| <= MAX_LOGICAL
    ensures ReachableLosslessly(Round(w, order, walls))
  {
    hide ReachableLosslessly, SyncOne;
    if order != [] {
      var n := |order| - 1;
      SyncReadingsGrow(Round(w, order[..n], walls), order[n], walls);
      RoundStaysLossless(w, order[..n], walls);
      SyncStaysLossless(Round(w, order[..n], walls), order[n], walls);
    }
  }

  /** Handlers that stalled before the round hold what they held; no others hold anything. */
  lemma {:induction false} RoundHolds(w: World, order: seq<string>, walls: nat -> int64)
    requires forall d :: d in order ==> d in w.devices
    ensures forall p :: IsHeld(Round(w, order, walls), p) <==> IsHeld(w, p)
  {
    hide PullAll, HandleOps, Outbox, MarkAll, IsHeld;
    if order != [] {
      var n := |order| - 1;
      var mid := Round(w, order[..n], walls);
      RoundHolds(w, order[..n], walls);
      SyncHolds(mid, SyncOne(mid, order[n], walls));
    }
  }

  lemma SyncHolds(w: World, w': World)
    requires w'.handlers == w.handlers
      || exists hd: Handler :: hd.stage.Ready? && w'.handlers == w.handlers + [hd]
    ensures forall p :: IsHeld(w', p) <==> IsHeld(w, p)
  {
    assert forall i :: 0 <= i < |w.handlers| ==> w'.handlers[i] == w.handlers[i];
    assert forall i :: |w.handlers| <= i < |w'.handlers| ==> w'.handlers[i].stage.Ready?;
    forall p ensures IsHeld(w', p) <==> IsHeld(w, p) {
      if i :| 0 <= i < |w.handlers| && Holds(w.handlers[i], p) {
        assert Holds(w'.handlers[i], p);
      }
    }
  }

  /** After two rounds from any state reached without a lossy save, the server's record is the
      fold of all writes on it but those that a stalled handler held before the rounds; where
      none did, it is the devices' record. */
  lemma TwoRoundsServerAgrees(w: World, first: seq<string>, second: seq<string>, walls: nat -> int64, d: string, k: Key)
    requires ReachableLosslessly(w)
    requires forall d :: d in first || d in second ==> d in w.devices
    requires forall p :: p in w.past ==> p.deviceId in first
    requires |Round(Round(w, first, walls), second, walls).readings| <= MAX_LOGICAL
    requires d in second
    ensures var w' := Round(Round(w, first, walls), second, walls);
      && Lookup(w'.server, k) == Fold(SavedOn(w', k))
      && (forall p :: p in SavedOn(w', k) <==> p in w.past && KeyOf(p) == k && !IsHeld(w, p))
      && ((forall p :: IsHeld(w, p) ==> KeyOf(p) != k) ==> Lookup(w'.server, k) == Lookup(w'.devices[d].st, k))
  {
    hide Reachable, ReachableLosslessly, TableInv, Inv, Round, Ops, Lookup, IsHeld, SavedOn, Fold;
    var mid := Round(w, first, walls);
    var w' := Round(mid, second, walls);
    RoundReadingsGrow(mid, second, walls);
    LosslessFacts(w);
    RoundStaysLossless(w, first, walls);
    RoundStaysLossless(mid, second, walls);
    RoundHolds(w, first, walls);
    RoundHolds(mid, second, walls);
    TwoRoundsSuffice(w, first, second, walls);
    LosslessFacts(w');
    SavedOnMembers(w', k);
    assert Lookup(w'.server, k) == Fold(SavedOn(w', k));
    if forall p :: IsHeld(w, p) ==> KeyOf(p) != k {
      ServerConverges(w', d, k);
    }
  }

  /** After two rounds from any reachable state at all: the server's record is the devices' if
      and only if it covers every write on it. */
  lemma TwoRoundsServerAgreesIff(w: World, first: seq<string>, second: seq<string>, walls: nat -> int64, d: string,
      k: Key)
    requires Reachable(w)
    requires forall d :: d in first || d in second ==> d in w.devices
    requires forall p :: p in w.past ==> p.deviceId in first
    requires |Round(Round(w, first, walls), second, walls).readings| <= MAX_LOGICAL
    requires d in second
    ensures var w' := Round(Round(w, first, walls), second, walls);
      (Lookup(w'.server, k) == Lookup(w'.devices[d].st, k)
       <==> forall p :: p in w.past && KeyOf(p) == k ==> Covers(Lookup(w'.server, k), p))
  {
    hide Reachable, Round, Ops, Lookup, Covers;
    TwoRoundsSuffice(w, first, second, walls);
    ServerAgreesIff(Round(Round(w, first, walls), second, walls), d, k);
  }
}
