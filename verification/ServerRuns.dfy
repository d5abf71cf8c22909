/** Runs that leave the server's record table wrong.  Each is a reachable state in which no
    device is to blame: the log, the devices and the clocks are as they should be. */
module ServerRuns {
  import opened Wrappers
  import opened Vectors
  import opened Hlc
  import opened Oplog
  import opened Conflict
  import opened Store
  import opened Causality
  import opened Protocol
  import opened Safety
  import opened Theorems
  import opened ServerTheorems

  const K := Key("c", "r")

  lemma ReachableStep(w: World, l: Label)
    requires Reachable(w) && |Step(w, l).readings| <= MAX_LOGICAL
    ensures Reachable(Step(w, l))
  {
    hide Reachable, Step;
    RunOne(w, l);
    ReachableRun(w, [l]);
  }

  lemma ReachableStart(ids: set<string>)
    ensures Reachable(Init(ids))
  {
    assert Run(Init(ids), []) == Init(ids);
  }

  // ---------------------------------------------------------------- single steps

  lemma OutboxOfOne(op: Op, d: string)
    requires op.deviceId == d
    ensures Outbox([Row(op, 0, false)], d) == [op]
  {
    assert [Row(op, 0, false)][..0] == [];
    assert Outbox([], d) == [];
  }

  lemma FirstWrite(d: string, payload: string, id: string)
    requires d != "" && id != ""
    ensures var r := LocalWrite(NEW_DEVICE, d, K, Some(payload), id, 0);
      && r.ok && r.op.id == id && r.op.deviceId == d && KeyOf(r.op) == K && !r.op.kind.Delete?
      && r.op.vv == map[d := 1] && Validates(r.op)
      && r.dev.st.oplog == [Row(r.op, 0, false)] && Outbox(r.dev.st.oplog, d) == [r.op]
      && Lookup(r.dev.st, K) == Some(FromOp(r.op)) && r.dev.checkpoint == 0
  {
    var op := NewOp(NEW_DEVICE, d, K, Some(payload), id, Tick(NEW_DEVICE.clock, d, 0));
    assert op.vv == map[d := 1] && Validates(op);
    OutboxOfOne(op, d);
    assert Resolve(None, op) == Decision(FromOp(op), false, op.id, "");
    hide Resolve, Outbox, Tick, Bump, Validates, FromOp;
  }

  lemma FirstWriteStep(w: World, d: string, payload: string, id: string)
    requires d in w.devices && w.devices[d] == NEW_DEVICE && FreshId(w.past, id)
    requires d != "" && id != ""
    ensures var r := LocalWrite(NEW_DEVICE, d, K, Some(payload), id, 0);
      Step(w, Write(d, K, Some(payload), id, 0)) == w.(
        devices := w.devices[d := r.dev], past := w.past[r.op := {}], readings := w.readings + [0])
  {
    FirstWrite(d, payload, id);
    assert Elements(Ops(NEW_DEVICE.st.oplog)) == {};
    hide LocalWrite;
  }

  lemma SendOne(w: World, d: string, op: Op)
    requires d in w.devices && Outbox(w.devices[d].st.oplog, d) == [op]
    ensures Step(w, Send(d)) == w.(handlers := w.handlers + [Handler(d, [op], 0, Ready)])
  {
  }

  /** Handler h carries the one op and has not begun. */
  predicate Carries(w: World, h: nat, op: Op) {
    h < |w.handlers| && w.handlers[h] == Handler(op.deviceId, [op], 0, Ready) && Validates(op) && KeyOf(op) == K
  }

  /** Append and load, as two steps, of an op the server does not have. */
  lemma OpenWindow(w: World, h: nat, op: Op)
    requires Carries(w, h, op) && !HasId(w.server.oplog, op.id)
    ensures Step(Step(w, AppendNext(h)), LoadNext(h)) == w.(
      server := w.server.(oplog := w.server.oplog + [Row(op, w.server.next, false)], next := w.server.next + 1),
      handlers := w.handlers[h := Handler(op.deviceId, [op], 0, Loaded(w.server.next, Lookup(w.server, K)))])
    ensures Step(w, AppendNext(h)).readings == w.readings
  {
    AppendThenLoad(w, h);
  }

  /** The save of a handler that had loaded "no record". */
  lemma CloseWindow(w: World, h: nat, op: Op, n: nat)
    requires h < |w.handlers| && w.handlers[h] == Handler(op.deviceId, [op], 0, Loaded(n, None)) && KeyOf(op) == K
    ensures Step(w, SaveNext(h)) == w.(
      server := Put(w.server, FromOp(op)),
      handlers := w.handlers[h := Handler(op.deviceId, [op], 1, Ready)])
  {
    SaveStepIs(w, h);
    assert Resolve(None, op) == Decision(FromOp(op), false, op.id, "");
  }

  predicate AllDone(w: World) {
    forall i :: 0 <= i < |w.handlers| ==> w.handlers[i].done == |w.handlers[i].batch|
  }

  lemma LogOfTwo(p: Op, q: Op)
    ensures Ops([Row(p, 1, false), Row(q, 2, false)]) == [p, q]
  {
  }

  lemma NotCovered(w: World, p: Op, q: Op)
    requires Reachable(w) && p in ServerLog(w) && KeyOf(p) == K && Lookup(w.server, K) == Some(FromOp(q))
    requires !Leq(p.vv, q.vv)
    ensures Lookup(w.server, K) != Fold(OnKey(ServerLog(w), K))
  {
    hide Reachable;
    TableRightIff(w, K);
    assert !Covers(Lookup(w.server, K), p);
  }

  // ---------------------------------------------------------------- an overlap loses a write

  lemma TwoOffline() returns (w: World, p: Op, q: Op)
    ensures Reachable(w) && |w.readings| == 2 && w.server == EMPTY
    ensures Carries(w, 0, p) && Carries(w, 1, q) && |w.handlers| == 2
    ensures p.id == "p" && q.id == "q" && p.vv == map["A" := 1] && q.vv == map["B" := 1]
    ensures w.past == map[p := {}, q := {}]
  {
    hide Step, LocalWrite, Outbox, Validates, Reachable;
    var a, b := LocalWrite(NEW_DEVICE, "A", K, Some("x"), "p", 0), LocalWrite(NEW_DEVICE, "B", K, Some("y"), "q", 0);
    p, q := a.op, b.op;
    FirstWrite("A", "x", "p");
    FirstWrite("B", "y", "q");
    var w0 := Init({"A", "B"});
    ReachableStart({"A", "B"});
    FirstWriteStep(w0, "A", "x", "p");
    var w1 := Step(w0, Write("A", K, Some("x"), "p", 0));
    ReachableStep(w0, Write("A", K, Some("x"), "p", 0));
    FirstWriteStep(w1, "B", "y", "q");
    var w2 := Step(w1, Write("B", K, Some("y"), "q", 0));
    ReachableStep(w1, Write("B", K, Some("y"), "q", 0));
    SendOne(w2, "A", p);
    ReachableStep(w2, Send("A"));
    var w3 := Step(w2, Send("A"));
    SendOne(w3, "B", q);
    ReachableStep(w3, Send("B"));
    w := Step(w3, Send("B"));
  }

  lemma BothLoaded(w0: World, p: Op, q: Op) returns (w: World)
    requires Reachable(w0) && |w0.readings| == 2 && w0.server == EMPTY && p.id != q.id
    requires Carries(w0, 0, p) && Carries(w0, 1, q) && |w0.handlers| == 2
    ensures Reachable(w) && |w.readings| == 2 && w.past == w0.past
    ensures w.server == EMPTY.(oplog := [Row(p, 1, false), Row(q, 2, false)], next := 3)
    ensures w.handlers ==
      [Handler(p.deviceId, [p], 0, Loaded(1, None)), Handler(q.deviceId, [q], 0, Loaded(2, None))]
  {
    hide Step, Reachable, Validates;
    OpenWindow(w0, 0, p);
    ReachableStep(w0, AppendNext(0));
    ReachableStep(Step(w0, AppendNext(0)), LoadNext(0));
    var w1 := Step(Step(w0, AppendNext(0)), LoadNext(0));
    assert w1.server.oplog == [Row(p, 1, false)];
    OpenWindow(w1, 1, q);
    ReachableStep(w1, AppendNext(1));
    ReachableStep(Step(w1, AppendNext(1)), LoadNext(1));
    w := Step(Step(w1, AppendNext(1)), LoadNext(1));
    assert w.server.oplog == [Row(p, 1, false), Row(q, 2, false)];
  }

  /** Two devices write one record offline and push at once.  Both handlers load before either
      saves: when both have finished, the table shows q alone, p is neither in the record nor
      in its vector, and there is no audit row. */
  lemma OverlapLosesWrite() returns (w: World, p: Op, q: Op)
    ensures Reachable(w) && AllDone(w) && ServerLog(w) == [p, q] && KeyOf(p) == KeyOf(q) == K
    ensures p in w.past && q in w.past && ConcurrentIn(w.past, p, q)
    ensures Lookup(w.server, K) == Some(FromOp(q)) && w.server.conflicts == []
    ensures Lookup(w.server, K) != Fold(OnKey(ServerLog(w), K))
  {
    var w0;
    w0, p, q := TwoOffline();
    hide Step, Reachable, Validates;
    var w2 := BothLoaded(w0, p, q);
    CloseWindow(w2, 0, p, 1);
    ReachableStep(w2, SaveNext(0));
    var w3 := Step(w2, SaveNext(0));
    CloseWindow(w3, 1, q, 2);
    ReachableStep(w3, SaveNext(1));
    w := Step(w3, SaveNext(1));
    LogOfTwo(p, q);
    assert Ops(w.server.oplog)[0] == p;
    assert p.vv["A"] > At(q.vv, "A");
    NotCovered(w, p, q);
  }

  // ---------------------------------------------------------------- an overwritten value returns

  /** A device applies the server's only row. */
  lemma PullOne(w: World, d: string, p: Op)
    requires d in w.devices && w.devices[d] == NEW_DEVICE && Validates(p) && KeyOf(p) == K
    requires w.server.oplog == [Row(p, 1, false)]
    ensures var w' := Step(Step(w, Fetch(d)), ApplyNext(d, 0));
      && w'.readings == w.readings + [0] && Step(w, Fetch(d)).readings == w.readings
      && w'.server == w.server && w'.handlers == w.handlers && w'.past == w.past
      && w'.devices.Keys == w.devices.Keys
      && w'.devices[d].st == Store([Row(p, 1, false)], map[K := FromOp(p)], [], 1)
  {
    var row := Row(p, 1, false);
    assert [row][..0] == [];
    assert Matching([], 0, "") == [];
    assert Matching([row], 0, "") == [row];
    var w1 := Step(w, Fetch(d));
    assert w1.pulls[d] == Pulling(Page([row], 1, false), 0);
    AppliedFirst(NEW_DEVICE, d, row);
  }

  lemma AppliedFirst(dev: Device, d: string, row: Row)
    requires dev == NEW_DEVICE && KeyOf(row.op) == K && !row.pushed
    ensures ApplyRow(dev, d, row, 0).st == Store([row], map[K := FromOp(row.op)], [], 1)
  {
    assert Resolve(None, row.op) == Decision(FromOp(row.op), false, row.op.id, "");
  }

  /** A device that applied p deletes the record. */
  lemma DeleteStep(w: World, d: string, p: Op, id: string)
    requires d in w.devices && d != "" && id != "" && FreshId(w.past, id) && p.id != id && p.deviceId != d
    requires KeyOf(p) == K
    requires w.devices[d].st == Store([Row(p, 1, false)], map[K := FromOp(p)], [], 1)
    ensures var r, w' := LocalWrite(w.devices[d], d, K, None, id, 0), Step(w, Write(d, K, None, id, 0));
      && w' == w.(devices := w.devices[d := r.dev], past := w.past[r.op := {p}], readings := w.readings + [0])
      && Validates(r.op) && r.op.id == id && r.op.deviceId == d && KeyOf(r.op) == K && r.op.kind.Delete?
      && r.op.vv == Bump(p.vv, d) && Outbox(r.dev.st.oplog, d) == [r.op]
  {
    var dev := w.devices[d];
    var r := LocalWrite(dev, d, K, None, id, 0);
    assert Elements(Ops(dev.st.oplog)) == {p} by {
      assert Ops(dev.st.oplog) == [p];
    }
    assert !HasId(dev.st.oplog, id);
    var log := [Row(p, 1, false), Row(r.op, 0, false)];
    assert r.dev.st.oplog == log;
    assert log[..1] == [Row(p, 1, false)] && [Row(p, 1, false)][..0] == [];
    assert Outbox([], d) == [] && Outbox(log[..1], d) == [];
  }

  /** A writes p; while its handler is between load and save, B pulls p, deletes the record as
      q and pushes; the handler of q saves, and then the handler of p.  The last save brings the
      deleted value back: the table shows p, which q had seen and overwritten, every handler has
      finished, and there is no audit row. */
  lemma OverwrittenValueReturns() returns (before: World, w: World, p: Op, q: Op)
    ensures Reachable(before) && w == Step(before, SaveNext(0)) && Reachable(w) && AllDone(w)
    ensures ServerLog(w) == [p, q] && p in w.past && q in w.past && p in w.past[q] && q.kind.Delete?
    ensures Lookup(before.server, K) == Some(FromOp(q)) && Lookup(before.server, K).value.deleted
    ensures Lookup(w.server, K) == Some(FromOp(p)) && !Lookup(w.server, K).value.deleted && w.server.conflicts == []
    ensures !LosesNothing(before, 0) && Lookup(w.server, K) != Fold(OnKey(ServerLog(w), K))
  {
    hide Step, LocalWrite, Outbox, Validates, Reachable, LosesNothing;
    var a := LocalWrite(NEW_DEVICE, "A", K, Some("x"), "p", 0);
    p := a.op;
    FirstWrite("A", "x", "p");
    var w0 := Init({"A", "B"});
    ReachableStart({"A", "B"});
    FirstWriteStep(w0, "A", "x", "p");
    var w1 := Step(w0, Write("A", K, Some("x"), "p", 0));
    ReachableStep(w0, Write("A", K, Some("x"), "p", 0));
    SendOne(w1, "A", p);
    var w2 := Step(w1, Send("A"));
    ReachableStep(w1, Send("A"));
    OpenWindow(w2, 0, p);
    ReachableStep(w2, AppendNext(0));
    ReachableStep(Step(w2, AppendNext(0)), LoadNext(0));
    var w4 := Step(Step(w2, AppendNext(0)), LoadNext(0));
    assert w4.server.oplog == [Row(p, 1, false)];
    PullOne(w4, "B", p);
    ReachableStep(w4, Fetch("B"));
    ReachableStep(Step(w4, Fetch("B")), ApplyNext("B", 0));
    var w6 := Step(Step(w4, Fetch("B")), ApplyNext("B", 0));
    DeleteStep(w6, "B", p, "q");
    ReachableStep(w6, Write("B", K, None, "q", 0));
    var w7 := Step(w6, Write("B", K, None, "q", 0));
    q := LocalWrite(w6.devices["B"], "B", K, None, "q", 0).op;
    before, w := DeleteIsPushed(w7, p, q);
  }

  lemma DeleteIsPushed(w7: World, p: Op, q: Op) returns (before: World, w: World)
    requires Reachable(w7) && |w7.readings| <= 3 && "B" in w7.devices && Outbox(w7.devices["B"].st.oplog, "B") == [q]
    requires w7.handlers == [Handler(p.deviceId, [p], 0, Loaded(1, None))]
    requires w7.server == EMPTY.(oplog := [Row(p, 1, false)], next := 2)
    requires Validates(q) && KeyOf(p) == KeyOf(q) == K && q.deviceId == "B" && p.id != q.id
    requires q.vv == Bump(p.vv, "B") && p in w7.past && q in w7.past && p in w7.past[q]
    requires q.kind.Delete? && !p.kind.Delete?
    ensures Reachable(before) && w == Step(before, SaveNext(0)) && Reachable(w) && AllDone(w)
    ensures ServerLog(w) == [p, q] && w.past == w7.past
    ensures Lookup(before.server, K) == Some(FromOp(q))
    ensures Lookup(w.server, K) == Some(FromOp(p)) && w.server.conflicts == []
    ensures !LosesNothing(before, 0) && Lookup(w.server, K) != Fold(OnKey(ServerLog(w), K))
  {
    hide Step, Outbox, Validates, Reachable, LosesNothing;
    SendOne(w7, "B", q);
    var w8 := Step(w7, Send("B"));
    ReachableStep(w7, Send("B"));
    OpenWindow(w8, 1, q);
    ReachableStep(w8, AppendNext(1));
    ReachableStep(Step(w8, AppendNext(1)), LoadNext(1));
    var w10 := Step(Step(w8, AppendNext(1)), LoadNext(1));
    CloseWindow(w10, 1, q, 2);
    before := Step(w10, SaveNext(1));
    ReachableStep(w10, SaveNext(1));
    CloseWindow(before, 0, p, 1);
    w := Step(before, SaveNext(0));
    ReachableStep(before, SaveNext(0));
    assert w.server.oplog == [Row(p, 1, false), Row(q, 2, false)];
    LogOfTwo(p, q);
    assert Ops(w.server.oplog)[1] == q;
    BumpAdvances(p.vv, "B");
    NotCovered(w, q, p);
    GoesBack(before, w, p, q);
  }

  lemma GoesBack(before: World, w: World, p: Op, q: Op)
    requires Reachable(before) && SaveEnabled(before, 0) && Current(before, 0) == p && KeyOf(p) == K
    requires w == Step(before, SaveNext(0)) && !Leq(q.vv, p.vv)
    requires Lookup(before.server, K) == Some(FromOp(q)) && Lookup(w.server, K) == Some(FromOp(p))
    ensures !LosesNothing(before, 0)
  {
    hide Step, Reachable, LosesNothing;
    SaveAdvancesIff(before, 0);
  }

  // ---------------------------------------------------------------- a cut push is not repaired

  /** The server has the op already. */
  lemma SkipKnown(w: World, h: nat, op: Op)
    requires Carries(w, h, op) && HasId(w.server.oplog, op.id)
    ensures Step(w, AppendNext(h)) == w.(handlers := w.handlers[h := Handler(op.deviceId, [op], 1, Ready)])
  {
  }

  lemma AcknowledgeOne(w: World, h: nat, d: string, op: Op)
    requires h < |w.handlers| && w.handlers[h] == Handler(d, [op], 1, Ready) && d in w.devices
    requires w.devices[d].st.oplog == [Row(op, 0, false)]
    ensures var w' := Step(w, Acknowledge(h));
      && w'.server == w.server && w'.past == w.past && w'.readings == w.readings && w'.devices.Keys == w.devices.Keys
      && w'.devices[d] == w.devices[d].(st := MarkAll(w.devices[d].st, [op.id]))
      && Outbox(w'.devices[d].st.oplog, d) == []
  {
    assert Ids([op]) == [op.id];
    var st := MarkAll(w.devices[d].st, [op.id]);
    assert op.id in [op.id];
    assert Mark(Row(op, 0, false), [op.id]) == Row(op, 0, true);
    assert st.oplog == [Row(op, 0, true)];
    assert [Row(op, 0, true)][..0] == [] && Outbox([], d) == [];
  }

  /** A pushes p; the connection breaks after the op was logged and before its record was
      saved; A pushes again and is acknowledged.  A's outbox is empty, the log has p, A shows
      p, and the server's table has no record: the retry took p for folded. */
  lemma CutPushIsNotRepaired() returns (w: World, p: Op)
    ensures Reachable(w) && ServerLog(w) == [p] && KeyOf(p) == K && "A" in w.devices
    ensures Outbox(w.devices["A"].st.oplog, "A") == [] && Lookup(w.devices["A"].st, K) == Some(FromOp(p))
    ensures Lookup(w.server, K) == None && Fold(OnKey(ServerLog(w), K)) == Some(FromOp(p))
  {
    hide Step, LocalWrite, Outbox, Validates, Reachable, MarkAll;
    var a := LocalWrite(NEW_DEVICE, "A", K, Some("x"), "p", 0);
    p := a.op;
    FirstWrite("A", "x", "p");
    var w0 := Init({"A"});
    ReachableStart({"A"});
    FirstWriteStep(w0, "A", "x", "p");
    var w1 := Step(w0, Write("A", K, Some("x"), "p", 0));
    ReachableStep(w0, Write("A", K, Some("x"), "p", 0));
    SendOne(w1, "A", p);
    var w2 := Step(w1, Send("A"));
    ReachableStep(w1, Send("A"));
    AppendOnly(w2, 0, p);
    var w3 := Step(w2, AppendNext(0));
    ReachableStep(w2, AppendNext(0));
    SendOne(w3, "A", p);
    var w4 := Step(w3, Send("A"));
    ReachableStep(w3, Send("A"));
    assert w4.server.oplog == [Row(p, 1, false)];
    assert w4.server.oplog[0].op.id == p.id;
    SkipKnown(w4, 1, p);
    var w5 := Step(w4, AppendNext(1));
    ReachableStep(w4, AppendNext(1));
    AcknowledgeOne(w5, 1, "A", p);
    w := Step(w5, Acknowledge(1));
    ReachableStep(w5, Acknowledge(1));
    assert Ops(w.server.oplog) == [p];
    assert [p][..0] == [] && OnKey([], K) == [];
    assert OnKey([p], K) == [p];
    LookupUnderMarks(w5.devices["A"].st, [p.id]);
  }

  lemma LookupUnderMarks(st: Store, ids: seq<string>)
    ensures Lookup(MarkAll(st, ids), K) == Lookup(st, K)
  {
  }

  lemma AppendOnly(w: World, h: nat, op: Op)
    requires Carries(w, h, op) && !HasId(w.server.oplog, op.id)
    ensures Step(w, AppendNext(h)) == w.(
      server := w.server.(oplog := w.server.oplog + [Row(op, w.server.next, false)], next := w.server.next + 1),
      handlers := w.handlers[h := Handler(op.deviceId, [op], 0, Logged(w.server.next))])
  {
  }
}
