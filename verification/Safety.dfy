/** The invariant holds in every reachable state. */
module Safety {
  import opened Wrappers
  import opened Vectors
  import opened Hlc
  import opened Oplog
  import opened Conflict
  import opened Store
  import opened Causality
  import opened Protocol
  import opened Invariants
  import opened Preservation

  // ---------------------------------------------------------------- clocks

  lemma PlausibleLater(t: Timestamp, readings: seq<int64>, phys: int64)
    requires Plausible(t, readings)
    ensures Plausible(t, readings + [phys])
  {
  }

  lemma TickIsPlausible(last: Timestamp, d: string, readings: seq<int64>, phys: int64)
    requires Plausible(last, readings)
    ensures Plausible(Tick(last, d, phys), readings + [phys])
  {
    assert (readings + [phys])[|readings|] == phys;
    CallsAreBounded(last, last, d, phys);
    PlausibleLater(last, readings, phys);
  }

  lemma ReceiveIsPlausible(last: Timestamp, remote: Timestamp, d: string, readings: seq<int64>, phys: int64)
    requires Plausible(last, readings) && Plausible(remote, readings)
    ensures Plausible(Receive(last, remote, d, phys), readings + [phys])
  {
    assert (readings + [phys])[|readings|] == phys;
    CallsAreBounded(last, remote, d, phys);
    PlausibleLater(last, readings, phys);
    PlausibleLater(remote, readings, phys);
  }

  /** All clocks of `w'` come from `w` or from one call that read `phys`. */
  lemma ClocksStayPlausible(w: World, w': World, phys: int64)
    requires ClocksPlausible(w) && w'.readings == w.readings + [phys]
    requires w'.devices.Keys == w.devices.Keys
    requires forall d :: d in w.devices && w'.devices[d].clock != w.devices[d].clock ==>
      Plausible(w'.devices[d].clock, w'.readings)
    requires forall p :: p in w'.past && p !in w.past ==>
      Plausible(p.hlc, w'.readings) && CountsUpTo(p.vv, |w'.readings|)
    ensures ClocksPlausible(w')
  {
    forall p | p in w.past && CountsUpTo(p.vv, |w.readings|) ensures CountsUpTo(p.vv, |w'.readings|) {
    }
    forall t | Plausible(t, w.readings) ensures Plausible(t, w'.readings) {
      PlausibleLater(t, w.readings, phys);
    }
  }

  // ---------------------------------------------------------------- pages

  /** On a densely numbered log a pull sees exactly the suffix after `since`. */
  lemma {:induction false} MatchingIsSuffix(log: seq<Row>, since: nat)
    requires forall i :: 0 <= i < |log| ==> log[i].serverSeq == i + 1
    ensures Matching(log, since, "") == if since <= |log| then log[since..] else []
  {
    if log != [] {
      var front := log[..|log| - 1];
      MatchingIsSuffix(front, since);
      if since <= |front| {
        assert log[since..] == front[since..] + [log[|log| - 1]];
      }
    }
  }

  lemma SliceOfSuffix(log: seq<Row>, since: nat)
    requires since <= |log| && forall i :: 0 <= i < |log| ==> log[i].serverSeq == i + 1
    ensures var page := PageOf(log[since..], since, PULL_PAGE_SIZE);
      && since + |page.rows| == Min(|log|, since + PULL_PAGE_SIZE)
      && page.rows == log[since..since + |page.rows|]
      && page.next == since + |page.rows|
      && (page.hasMore <==> since + PULL_PAGE_SIZE < |log|)
  {
    var n := |PageOf(log[since..], since, PULL_PAGE_SIZE).rows|;
    assert log[since..][..n] == log[since..since + n];
    if n > 0 {
      assert log[since..][..n][n - 1] == log[since + n - 1];
    }
  }

  lemma PageIsNextSlice(st: Store, since: nat)
    requires Dense(st) && since <= |st.oplog|
    ensures var page := PageSince(st.oplog, since, "", PULL_PAGE_SIZE);
      && since + |page.rows| == Min(|st.oplog|, since + PULL_PAGE_SIZE)
      && page.rows == st.oplog[since..since + |page.rows|]
      && page.next == since + |page.rows|
      && (page.hasMore <==> since + PULL_PAGE_SIZE < |st.oplog|)
  {
    MatchingIsSuffix(st.oplog, since);
    SliceOfSuffix(st.oplog, since);
    hide Matching, PageOf;
  }

  // ---------------------------------------------------------------- local writes

  /** What a local write does to the device and to the history. */
  lemma WriterKeeps(w: World, d: string, k: Key, change: Option<string>, id: string, phys: int64)
    requires Inv(w) && |w.readings| < MAX_LOGICAL && d in w.devices && FreshId(w.past, id)
    ensures var r, w' := LocalWrite(w.devices[d], d, k, change, id, phys), StepWrite(w, d, k, change, id, phys);
      && History(w'.past) && DeviceInv(w'.past, w.server.oplog, r.dev, d) && r.dev == w'.devices[d]
      && Plausible(r.dev.clock, w'.readings) && r.op.hlc == r.dev.clock
      && r.op.deviceId == d && r.dev.checkpoint == w.devices[d].checkpoint
      && (r.ok ==> r.op !in w.past && r.op.vv == Bump(VectorOn(Ops(w.devices[d].st.oplog), KeyOf(r.op)), d))
      && r.dev.st.oplog == w.devices[d].st.oplog + if r.ok then [Row(r.op, 0, false)] else []
  {
    var dev, h, slog := w.devices[d], w.past, w.server.oplog;
    assert DeviceInv(h, slog, dev, d) && History(h) && Plausible(dev.clock, w.readings);
    hide DeviceInv, History, LocalWrite, PullsInv, HandlersInv, DevicesInv, ClocksPlausible, VectorOn, Ops;
    LocalWriteIsFresh(h, slog, dev, d, k, change, id, phys);
    LocalWriteShape(dev, d, k, change, id, phys);
    TickIsPlausible(dev.clock, d, w.readings, phys);
    var r := LocalWrite(dev, d, k, change, id, phys);
    if r.ok {
      DeviceWrites(h, slog, dev, d, k, change, id, phys);
    } else {
      ClockMoves(h, slog, dev, d, r.dev);
    }
  }

  lemma WriterCounts(w: World, d: string, q: Op)
    requires Inv(w) && d in w.devices && q.vv == Bump(VectorOn(Ops(w.devices[d].st.oplog), KeyOf(q)), q.deviceId)
    ensures CountsUpTo(q.vv, |w.readings| + 1)
  {
    assert DeviceInv(w.past, w.server.oplog, w.devices[d], d);
    WriteCounts(w.past, Ops(w.devices[d].st.oplog), q, |w.readings|);
  }

  lemma WriteStep(w: World, d: string, k: Key, change: Option<string>, id: string, phys: int64)
    requires Inv(w) && |w.readings| < MAX_LOGICAL
    ensures Inv(StepWrite(w, d, k, change, id, phys))
  {
    hide DeviceInv, HandlerInv, PullsInv, History, ServerInv, Ops, LocalWrite, Plausible, VectorOn, Bump, CountsUpTo;
    var w' := StepWrite(w, d, k, change, id, phys);
    if d in w.devices && FreshId(w.past, id) {
      var dev := w.devices[d];
      var r := LocalWrite(dev, d, k, change, id, phys);
      WriterKeeps(w, d, k, change, id, phys);
      if r.ok {
        WriterCounts(w, d, r.op);
      }
      ClocksStayPlausible(w, w', phys);
      PullsUnderWrite(w, w', d, Row(r.op, 0, false));
      if r.ok {
        OthersUnderWrite(w, d, r.op);
        ServerUnderWrite(w.past, w.server, r.op, Elements(Ops(dev.st.oplog)));
        HandlersUnderWrite(w, r.op, Elements(Ops(dev.st.oplog)));
      }
    }
  }

  lemma LocalWriteShape(dev: Device, d: string, k: Key, change: Option<string>, id: string, phys: int64)
    ensures var r := LocalWrite(dev, d, k, change, id, phys);
      && r.dev.clock == Tick(dev.clock, d, phys) && r.op.hlc == r.dev.clock && r.op.id == id
      && r.dev.checkpoint == dev.checkpoint
      && (!r.ok ==> r.dev == dev.(clock := r.dev.clock))
  {
  }

  lemma ServerUnderWrite(h: Past, st: Store, q: Op, s: set<Op>)
    requires ServerInv(h, st) && q !in h
    ensures ServerInv(h[q := s], st)
  {
    CausalLogExtendHistory(h, Ops(st.oplog), q, s);
  }

  lemma HandlersUnderWrite(w: World, q: Op, s: set<Op>)
    requires HandlersInv(w) && q !in w.past
    ensures forall i :: 0 <= i < |w.handlers| ==> HandlerInv(w.past[q := s], w.server.oplog, w.handlers[i])
  {
  }

  lemma ClockMoves(h: Past, slog: seq<Row>, dev: Device, d: string, dev': Device)
    requires DeviceInv(h, slog, dev, d) && dev' == dev.(clock := dev'.clock) && After(dev'.clock, dev.clock)
    ensures DeviceInv(h, slog, dev', d)
  {
    forall p | p in Ops(dev'.st.oplog) ensures !After(p.hlc, dev'.clock) {
      NotAfterThenAfter(p.hlc, dev.clock, dev'.clock);
      CompareTotal(p.hlc, dev'.clock);
    }
  }

  lemma OthersUnderWrite(w: World, d: string, q: Op)
    requires DevicesInv(w) && d in w.devices && q.deviceId == d && q !in w.past
    requires q.vv == Bump(VectorOn(Ops(w.devices[d].st.oplog), KeyOf(q)), d)
    ensures forall e :: e in w.devices && e != d ==>
      DeviceInv(w.past[q := Elements(Ops(w.devices[d].st.oplog))], w.server.oplog, w.devices[e], e)
  {
    forall e | e in w.devices && e != d
      ensures DeviceInv(w.past[q := Elements(Ops(w.devices[d].st.oplog))], w.server.oplog, w.devices[e], e)
    {
      OtherUnderWrite(w.past, w.server.oplog, w.devices[d], w.devices[e], e, q);
    }
  }

  lemma OtherUnderWrite(h: Past, slog: seq<Row>, dev: Device, other: Device, e: string, q: Op)
    requires DeviceInv(h, slog, dev, q.deviceId) && DeviceInv(h, slog, other, e) && e != q.deviceId && q !in h
    requires q.vv == Bump(VectorOn(Ops(dev.st.oplog), KeyOf(q)), q.deviceId)
    ensures DeviceInv(h[q := Elements(Ops(dev.st.oplog))], slog, other, e)
  {
    WriteRespectsOthers(h, Ops(dev.st.oplog), q, e, Ops(other.st.oplog));
    DeviceUnderForeignWrite(h, slog, other, e, q, Elements(Ops(dev.st.oplog)));
  }

  /** Pulls only look at the server log and at foreign rows; own rows may be added. */
  lemma PullsUnderWrite(w: World, w': World, d: string, row: Row)
    requires PullsInv(w) && d in w.devices && row.op.deviceId == d
    requires w'.pulls == w.pulls && w'.server == w.server
    requires w'.devices.Keys == w.devices.Keys
    requires forall e :: e in w.devices && e != d ==> w'.devices[e] == w.devices[e]
    requires w'.devices[d].checkpoint == w.devices[d].checkpoint
    requires w'.devices[d].st.oplog == w.devices[d].st.oplog
      || w'.devices[d].st.oplog == w.devices[d].st.oplog + [row]
    ensures PullsInv(w')
  {
    hide PullInv, ForeignFromServer;
    var dev, dev', slog := w.devices[d], w'.devices[d], w.server.oplog;
    if d in w.pulls {
      OwnRowInPull(slog, dev, dev', w.pulls[d], row);
    }
    OwnRowIsNotForeign(slog, dev, dev', d, row, Horizon(dev, w.pulls, d));
  }

  lemma OwnRowInPull(slog: seq<Row>, dev: Device, dev': Device, pull: Pulling, row: Row)
    requires PullInv(slog, dev, pull) && dev'.checkpoint == dev.checkpoint
    requires dev'.st.oplog == dev.st.oplog || dev'.st.oplog == dev.st.oplog + [row]
    ensures PullInv(slog, dev', pull)
  {
    OpsAppend(dev.st.oplog, row);
  }

  lemma OwnRowIsNotForeign(slog: seq<Row>, dev: Device, dev': Device, d: string, row: Row, horizon: int)
    requires ForeignFromServer(slog, dev, d, horizon) && row.op.deviceId == d
    requires dev'.st.oplog == dev.st.oplog || dev'.st.oplog == dev.st.oplog + [row]
    ensures ForeignFromServer(slog, dev', d, horizon)
  {
  }

  // ---------------------------------------------------------------- pushes

  lemma SendStep(w: World, d: string)
    requires Inv(w)
    ensures Inv(StepSend(w, d))
  {
    hide DeviceInv, HandlerInv, PullInv, ForeignFromServer, History, ServerInv, Plausible, Resolve, Outbox, Ops,
      Append, Settle, LocalWrite, ApplyRow, PageSince, MarkAll, HasId, Lookup;
    if d in w.devices && Outbox(w.devices[d].st.oplog, d) != [] {
      assert DeviceInv(w.past, w.server.oplog, w.devices[d], d);
      OutboxIsBatch(w.past, w.server.oplog, w.devices[d], d,
        Horizon(w.devices[d], w.pulls, d));
    }
  }

  lemma OutboxIsBatch(h: Past, slog: seq<Row>, dev: Device, d: string, horizon: int)
    requires DeviceInv(h, slog, dev, d) && ForeignFromServer(slog, dev, d, horizon)
    ensures HandlerInv(h, slog, Handler(d, Outbox(dev.st.oplog, d), 0, Ready))
  {
    var log, batch := dev.st.oplog, Outbox(dev.st.oplog, d);
    OutboxMembers(log, d);
    forall j | 0 <= j < |batch|
      ensures batch[j] in h && batch[j].deviceId == d
      ensures forall p :: p in h[batch[j]] ==> p in Ops(slog) || p in batch[..j]
    {
      var i := OutboxOrder(log, d, j);
      assert Ops(log)[i] == batch[j];
      forall p | p in h[batch[j]] ensures p in Ops(slog) || p in batch[..j] {
        assert p in Ops(log)[..i];
        var m :| 0 <= m < i && Ops(log)[m] == p;
        assert log[m].op == p;
        if p.deviceId != d {
          assert Ops(slog)[log[m].serverSeq - 1] == p;
        }
      }
    }
  }

  lemma HandlerUnderLongerServer(h: Past, slog: seq<Row>, slog': seq<Row>, hd: Handler)
    requires HandlerInv(h, slog, hd) && slog <= slog'
    ensures HandlerInv(h, slog', hd)
  {
    forall p | p in Ops(slog) ensures p in Ops(slog') {
      var i :| 0 <= i < |slog| && Ops(slog)[i] == p;
      assert Ops(slog')[i] == p;
    }
  }

  /** The server's log got longer; everything that refers to it still holds. */
  lemma UnderLongerServer(w: World, w': World)
    requires DevicesInv(w) && PullsInv(w) && HandlersInv(w)
    requires w.server.oplog <= w'.server.oplog
    requires w'.devices == w.devices && w'.pulls == w.pulls && w'.past == w.past
    ensures DevicesInv(w') && PullsInv(w')
    ensures forall i :: 0 <= i < |w.handlers| ==> HandlerInv(w.past, w'.server.oplog, w.handlers[i])
  {
    var s, s' := w.server.oplog, w'.server.oplog;
    forall d | d in w.devices
      ensures DeviceInv(w.past, s', w.devices[d], d)
      ensures ForeignFromServer(s', w.devices[d], d, Horizon(w.devices[d], w.pulls, d))
    {
      var horizon := Horizon(w.devices[d], w.pulls, d);
      DeviceUnderLongerServer(w.past, s, s', w.devices[d], d);
      ForeignUnderLongerServer(s, s', w.devices[d], d, horizon, horizon);
    }
    forall d | d in w.pulls ensures PullInv(s', w.devices[d], w.pulls[d]) {
      PullUnderLongerServer(s, s', w.devices[d], w.pulls[d]);
    }
    forall i | 0 <= i < |w.handlers| ensures HandlerInv(w.past, s', w.handlers[i]) {
      HandlerUnderLongerServer(w.past, s, s', w.handlers[i]);
    }
  }

  /** The op a handler works on has its whole past on the server. */
  lemma CurrentIsDeliverable(h: Past, st: Store, hd: Handler)
    requires History(h) && ServerInv(h, st) && HandlerInv(h, st.oplog, hd) && hd.done < |hd.batch|
    ensures var op := hd.batch[hd.done];
      && op in h && h[op] <= Elements(Ops(st.oplog))
      && (HasId(st.oplog, op.id) <==> op in Ops(st.oplog))
  {
    var op, slog := hd.batch[hd.done], st.oplog;
    forall p | p in h[op] ensures p in Ops(slog) {
      assert forall j :: 0 <= j < hd.done ==> hd.batch[..hd.done][j] in Ops(slog);
    }
    HasIdInOps(slog, op.id);
  }

  lemma ServerAppends(h: Past, st: Store, op: Op)
    requires ServerInv(h, st) && op in h && op !in Ops(st.oplog) && h[op] <= Elements(Ops(st.oplog))
    requires !HasId(st.oplog, op.id)
    ensures var st' := Append(st, op, 0, true).st;
      ServerInv(h, st') && st.oplog <= st'.oplog && op in Ops(st'.oplog)
  {
    var row := Row(op, st.next, false);
    OpsAppend(st.oplog, row);
    CausalLogAppend(h, Ops(st.oplog), op);
    assert Ops(st.oplog + [row])[|st.oplog|] == op;
  }

  lemma AppendStep(w: World, h: nat)
    requires Inv(w)
    ensures Inv(StepAppend(w, h))
  {
    hide DeviceInv, HandlerInv, PullInv, ForeignFromServer, History, ServerInv, Plausible, Resolve, Outbox, Ops,
      Settle, LocalWrite, ApplyRow, PageSince, MarkAll, HasId, Lookup;
    var w' := StepAppend(w, h);
    if Working(w, h) && w.handlers[h].stage.Ready? && Admissible(Current(w, h), w.handlers[h].deviceId) {
      var hd, op := w.handlers[h], Current(w, h);
      assert HandlerInv(w.past, w.server.oplog, hd);
      CurrentIsDeliverable(w.past, w.server, hd);
      if !HasId(w.server.oplog, op.id) {
        ServerAppends(w.past, w.server, op);
      }
      UnderLongerServer(w, w');
      HandlerTakes(w.past, w'.server.oplog, hd, w'.handlers[h]);
    }
  }

  /** The current op is on the server now; the handler turns to the next one or loads it. */
  lemma HandlerTakes(h: Past, slog: seq<Row>, hd: Handler, hd': Handler)
    requires HandlerInv(h, slog, hd) && hd.done < |hd.batch| && hd.batch[hd.done] in Ops(slog)
    requires hd' == hd.(done := hd'.done, stage := hd'.stage)
    requires hd'.done == hd.done || (hd'.done == hd.done + 1 && hd'.stage.Ready?)
    ensures HandlerInv(h, slog, hd')
  {
  }

  lemma HandlerGoesOn(h: Past, slog: seq<Row>, hd: Handler, hd': Handler)
    requires HandlerInv(h, slog, hd) && !hd.stage.Ready?
    requires hd' == hd.(done := hd'.done, stage := hd'.stage)
    requires hd'.done == hd.done || (hd'.done == hd.done + 1 && hd'.stage.Ready?)
    ensures HandlerInv(h, slog, hd')
  {
    HandlerTakes(h, slog, hd, hd');
  }

  lemma SettleServer(h: Past, st: Store, d: Decision, op: Op, seqNo: nat)
    requires ServerInv(h, st)
    ensures ServerInv(h, Settle(st, d, op, seqNo)) && Settle(st, d, op, seqNo).oplog == st.oplog
  {
  }

  lemma LoadStep(w: World, h: nat)
    requires Inv(w)
    ensures Inv(StepLoad(w, h))
  {
    hide DeviceInv, HandlerInv, PullInv, ForeignFromServer, History, ServerInv, Plausible, Resolve, Outbox, Ops,
      Append, Settle, LocalWrite, ApplyRow, PageSince, MarkAll, HasId, Lookup;
    var w' := StepLoad(w, h);
    if Working(w, h) && w.handlers[h].stage.Logged? {
      var hd := w.handlers[h];
      assert HandlerInv(w.past, w.server.oplog, hd);
      HandlerGoesOn(w.past, w.server.oplog, hd, w'.handlers[h]);
    }
  }

  lemma SaveStep(w: World, h: nat)
    requires Inv(w)
    ensures Inv(StepSave(w, h))
  {
    hide DeviceInv, HandlerInv, PullInv, ForeignFromServer, History, ServerInv, Plausible, Resolve, Outbox, Ops,
      Append, Settle, LocalWrite, ApplyRow, PageSince, MarkAll, HasId, Lookup;
    var w' := StepSave(w, h);
    if Working(w, h) && w.handlers[h].stage.Loaded? {
      var hd := w.handlers[h];
      assert HandlerInv(w.past, w.server.oplog, hd);
      SettleServer(w.past, w.server, Resolve(hd.stage.existing, Current(w, h)), Current(w, h), hd.stage.serverSeq);
      HandlerGoesOn(w.past, w.server.oplog, hd, w'.handlers[h]);
    }
  }

  lemma AcknowledgeStep(w: World, h: nat)
    requires Inv(w)
    ensures Inv(StepAcknowledge(w, h))
  {
    hide DeviceInv, HandlerInv, PullInv, ForeignFromServer, History, ServerInv, Plausible, Resolve, Outbox, Ops,
      Append, Settle, LocalWrite, ApplyRow, PageSince, MarkAll, HasId, Lookup;
    var w' := StepAcknowledge(w, h);
    if h < |w.handlers| && w.handlers[h].done == |w.handlers[h].batch| && w.handlers[h].deviceId in w.devices {
      var hd := w.handlers[h];
      var d, slog := hd.deviceId, w.server.oplog;
      assert HandlerInv(w.past, slog, hd);
      BatchIdsOnServer(w.past, slog, hd);
      DeviceMarks(w.past, slog, w.devices[d], d, Ids(hd.batch));
      MarksAreInvisible(slog, w.devices[d], d, Ids(hd.batch), Horizon(w.devices[d], w.pulls, d));
      if d in w.pulls {
        MarksInPull(slog, w.devices[d], Ids(hd.batch), w.pulls[d]);
      }
    }
  }

  lemma BatchIdsOnServer(h: Past, slog: seq<Row>, hd: Handler)
    requires HandlerInv(h, slog, hd) && hd.done == |hd.batch|
    ensures forall id :: id in Ids(hd.batch) ==> exists p :: p in Ops(slog) && p in h && p.id == id
  {
    forall id | id in Ids(hd.batch) ensures exists p :: p in Ops(slog) && p in h && p.id == id {
      var i :| 0 <= i < |hd.batch| && Ids(hd.batch)[i] == id;
      assert hd.batch[i] in Ops(slog);
    }
  }

  lemma MarksAreInvisible(slog: seq<Row>, dev: Device, d: string, ids: seq<string>, horizon: int)
    requires ForeignFromServer(slog, dev, d, horizon)
    ensures ForeignFromServer(slog, dev.(st := MarkAll(dev.st, ids)), d, horizon)
  {
  }

  lemma MarksInPull(slog: seq<Row>, dev: Device, ids: seq<string>, pull: Pulling)
    requires PullInv(slog, dev, pull)
    ensures PullInv(slog, dev.(st := MarkAll(dev.st, ids)), pull)
  {
    assert Ops(MarkAll(dev.st, ids).oplog) == Ops(dev.st.oplog);
  }

  // ---------------------------------------------------------------- pulls

  lemma FetchStep(w: World, d: string)
    requires Inv(w)
    ensures Inv(StepFetch(w, d))
  {
    hide DeviceInv, HandlerInv, PullInv, ForeignFromServer, History, ServerInv, Plausible, Resolve, Outbox, Ops,
      Append, Settle, LocalWrite, ApplyRow, PageSince, MarkAll, HasId, Lookup;
    var w' := StepFetch(w, d);
    if d in w.devices {
      var dev, slog := w.devices[d], w.server.oplog;
      assert DeviceInv(w.past, slog, dev, d);
      FetchedPage(w.past, w.server, dev, d);
      if d in w.pulls {
        PageFitsHorizon(slog, dev, w.pulls[d]);
      }
      ForeignUnderLongerServer(slog, slog, dev, d, Horizon(dev, w.pulls, d), Horizon(dev, w'.pulls, d));
    }
  }

  lemma PageFitsHorizon(slog: seq<Row>, dev: Device, pull: Pulling)
    requires PullInv(slog, dev, pull)
    ensures dev.checkpoint + |pull.page.rows| <= Min(|slog|, dev.checkpoint + PULL_PAGE_SIZE)
  {
  }

  lemma FetchedPage(h: Past, st: Store, dev: Device, d: string)
    requires ServerInv(h, st) && DeviceInv(h, st.oplog, dev, d)
    ensures var page := PageSince(st.oplog, dev.checkpoint, "", PULL_PAGE_SIZE);
      && PullInv(st.oplog, dev, Pulling(page, 0))
      && dev.checkpoint + |page.rows| == Min(|st.oplog|, dev.checkpoint + PULL_PAGE_SIZE)
  {
    hide PageSince, Matching, CausalLog, OwnLog, OwnCountIsKnown, RecordsMatch, ConflictsRight, ClockCovers,
      AcknowledgedOnServer;
    PageIsNextSlice(st, dev.checkpoint);
  }

  /** The row a pull applies next is a server row whose past the device has. */
  lemma PulledRow(h: Past, st: Store, dev: Device, pull: Pulling)
    requires ServerInv(h, st) && History(h) && PullInv(st.oplog, dev, pull) && pull.pos < |pull.page.rows|
    ensures var row, n := pull.page.rows[pull.pos], dev.checkpoint + pull.pos;
      && 0 <= n < |st.oplog| && st.oplog[n] == row && row in st.oplog && row.serverSeq == n + 1
      && row.op in h && h[row.op] <= Elements(Ops(dev.st.oplog)) && Validates(row.op)
  {
    var n, slog := dev.checkpoint + pull.pos, st.oplog;
    assert slog[n] == pull.page.rows[pull.pos];
    var op := slog[n].op;
    assert Ops(slog)[n] == op;
    forall p | p in h[op] ensures p in Ops(dev.st.oplog) {
      assert p in Ops(slog)[..n];
      var m :| 0 <= m < n && Ops(slog)[m] == p;
      assert slog[m].op in Ops(dev.st.oplog);
    }
  }

  /** Applying the next row keeps everything about the one device that applies it. */
  lemma DeviceTakesRow(h: Past, st: Store, dev: Device, d: string, pull: Pulling, readings: seq<int64>, phys: int64)
    requires History(h) && ServerInv(h, st) && DeviceInv(h, st.oplog, dev, d)
    requires PullInv(st.oplog, dev, pull) && pull.pos < |pull.page.rows|
    requires ForeignFromServer(st.oplog, dev, d, dev.checkpoint + |pull.page.rows|)
    requires Plausible(dev.clock, readings) && |readings| < MAX_LOGICAL
    requires forall p :: p in h ==> Plausible(p.hlc, readings)
    ensures var row := pull.page.rows[pull.pos];
      var dev' := ApplyRow(dev, d, row, phys);
      && Validates(row.op)
      && DeviceInv(h, st.oplog, dev', d)
      && PullInv(st.oplog, dev', pull.(pos := pull.pos + 1))
      && ForeignFromServer(st.oplog, dev', d, dev'.checkpoint + |pull.page.rows|)
      && Plausible(dev'.clock, readings + [phys])
      && dev'.checkpoint == dev.checkpoint
  {
    hide DeviceInv, PullInv, ForeignFromServer, History, ServerInv, Ops, ApplyRow, Validates;
    var row := pull.page.rows[pull.pos];
    PulledRow(h, st, dev, pull);
    DeviceApplies(h, st.oplog, dev, d, row, phys);
    ApplyShape(dev, d, row, phys);
    ReceiveIsPlausible(dev.clock, row.op.hlc, d, readings, phys);
    PullAdvances(h, st, dev, ApplyRow(dev, d, row, phys), d, pull, dev.checkpoint + |pull.page.rows|);
  }

  /** One device applied a row of its page; the others and the server stand still. */
  lemma OthersUnderApply(w: World, w': World, d: string, dev: Device, pull: Pulling, phys: int64)
    requires Inv(w) && d in w.devices && d in w.pulls
    requires w' == w.(devices := w.devices[d := dev], pulls := w.pulls[d := pull], readings := w.readings + [phys])
    requires DeviceInv(w.past, w.server.oplog, dev, d) && PullInv(w.server.oplog, dev, pull)
    requires ForeignFromServer(w.server.oplog, dev, d, dev.checkpoint + |pull.page.rows|)
    requires Plausible(dev.clock, w'.readings)
    ensures Inv(w')
  {
    hide DeviceInv, HandlersInv, PullInv, ForeignFromServer, History, ServerInv, Plausible, CountsUpTo;
    ClocksStayPlausible(w, w', phys);
    hide ClocksPlausible;
    SameHandlers(w, w');
    PullsUnderApply(w, w', d, dev, pull);
    hide PullsInv;
  }

  lemma PullsUnderApply(w: World, w': World, d: string, dev: Device, pull: Pulling)
    requires PullsInv(w) && d in w.devices && d in w.pulls && w'.server == w.server
    requires w'.devices == w.devices[d := dev] && w'.pulls == w.pulls[d := pull]
    requires PullInv(w.server.oplog, dev, pull)
    requires ForeignFromServer(w.server.oplog, dev, d, dev.checkpoint + |pull.page.rows|)
    ensures PullsInv(w')
  {
    hide PullInv, ForeignFromServer;
  }

  lemma SameHandlers(w: World, w': World)
    requires HandlersInv(w) && w'.past == w.past && w'.server == w.server && w'.handlers == w.handlers
    ensures HandlersInv(w')
  {
  }

  lemma ApplyStep(w: World, d: string, phys: int64)
    requires Inv(w) && |w.readings| < MAX_LOGICAL
    ensures Inv(StepApply(w, d, phys))
  {
    hide DeviceInv, HandlerInv, PullInv, ForeignFromServer, History, ServerInv, Plausible, ApplyRow, Validates;
    if d in w.devices && d in w.pulls && w.pulls[d].pos < |w.pulls[d].page.rows|
       && Validates(w.pulls[d].page.rows[w.pulls[d].pos].op)
    {
      var dev, pull := w.devices[d], w.pulls[d];
      assert ForeignFromServer(w.server.oplog, dev, d, dev.checkpoint + |pull.page.rows|);
      assert DeviceInv(w.past, w.server.oplog, dev, d) && PullInv(w.server.oplog, dev, pull);
      DeviceTakesRow(w.past, w.server, dev, d, pull, w.readings, phys);
      var dev' := ApplyRow(dev, d, pull.page.rows[pull.pos], phys);
      hide DevicesInv, PullsInv, HandlersInv, ClocksPlausible, PastInv;
      OthersUnderApply(w, StepApply(w, d, phys), d, dev', pull.(pos := pull.pos + 1), phys);
    }
  }

  lemma ApplyShape(dev: Device, d: string, row: Row, phys: int64)
    ensures ApplyRow(dev, d, row, phys).clock == Receive(dev.clock, row.op.hlc, d, phys)
    ensures ApplyRow(dev, d, row, phys).checkpoint == dev.checkpoint
  {
  }

  lemma PullAdvances(h: Past, st: Store, dev: Device, dev': Device, d: string, pull: Pulling, horizon: int)
    requires PullInv(st.oplog, dev, pull) && pull.pos < |pull.page.rows|
    requires ForeignFromServer(st.oplog, dev, d, horizon) && horizon == dev.checkpoint + |pull.page.rows|
    requires ServerInv(h, st) && dev'.checkpoint == dev.checkpoint
    requires var row := pull.page.rows[pull.pos];
      && (dev'.st.oplog == dev.st.oplog || dev'.st.oplog == dev.st.oplog + [Row(row.op, row.serverSeq, false)])
      && row.op in Ops(dev'.st.oplog)
    ensures PullInv(st.oplog, dev', pull.(pos := pull.pos + 1))
    ensures ForeignFromServer(st.oplog, dev', d, horizon)
  {
    var row, n := pull.page.rows[pull.pos], dev.checkpoint + pull.pos;
    assert st.oplog[n] == row;
    assert forall p :: p in Ops(dev.st.oplog) ==> p in Ops(dev'.st.oplog) by {
      OpsAppend(dev.st.oplog, Row(row.op, row.serverSeq, false));
    }
    PrefixAdvances(st.oplog, dev, dev', n);
    NewRowIsServerRow(st, dev, dev', d, n, horizon);
  }

  lemma PrefixAdvances(slog: seq<Row>, dev: Device, dev': Device, n: int)
    requires HasPrefix(slog, dev, n) && n < |slog| && slog[n].op in Ops(dev'.st.oplog)
    requires forall p :: p in Ops(dev.st.oplog) ==> p in Ops(dev'.st.oplog)
    ensures HasPrefix(slog, dev', n + 1)
  {
  }

  lemma NewRowIsServerRow(st: Store, dev: Device, dev': Device, d: string, n: int, horizon: int)
    requires ForeignFromServer(st.oplog, dev, d, horizon) && Dense(st) && 0 <= n < |st.oplog| && n < horizon
    requires dev'.st.oplog == dev.st.oplog
      || dev'.st.oplog == dev.st.oplog + [Row(st.oplog[n].op, st.oplog[n].serverSeq, false)]
    ensures ForeignFromServer(st.oplog, dev', d, horizon)
  {
  }

  lemma SavePageStep(w: World, d: string)
    requires Inv(w)
    ensures Inv(StepSavePage(w, d))
  {
    hide DeviceInv, HandlerInv, PullInv, ForeignFromServer, History, ServerInv, Plausible, Resolve, Outbox, Ops,
      Append, Settle, LocalWrite, ApplyRow, PageSince, MarkAll, HasId, Lookup;
    var w' := StepSavePage(w, d);
    if d in w.devices && d in w.pulls && w.pulls[d].pos == |w.pulls[d].page.rows| {
      var dev, dev', slog := w.devices[d], w'.devices[d], w.server.oplog;
      assert PullInv(slog, dev, w.pulls[d]) && DeviceInv(w.past, slog, dev, d);
      PageSaved(w.past, slog, dev, dev', d, w.pulls[d]);
      assert ForeignFromServer(slog, dev, d, Horizon(dev, w.pulls, d));
      ForeignUnderLongerServer(slog, slog, dev, d, Horizon(dev, w.pulls, d), Horizon(dev', w'.pulls, d));
      SameLogForeign(slog, dev, dev', d, Horizon(dev', w'.pulls, d));
    }
  }

  lemma PageSaved(h: Past, slog: seq<Row>, dev: Device, dev': Device, d: string, pull: Pulling)
    requires DeviceInv(h, slog, dev, d) && PullInv(slog, dev, pull) && pull.pos == |pull.page.rows|
    requires dev' == dev.(checkpoint := pull.page.next)
    ensures DeviceInv(h, slog, dev', d) && dev'.checkpoint == dev.checkpoint + |pull.page.rows| <= |slog|
  {
  }

  lemma SameLogForeign(slog: seq<Row>, dev: Device, dev': Device, d: string, horizon: int)
    requires ForeignFromServer(slog, dev, d, horizon) && dev'.st == dev.st
    ensures ForeignFromServer(slog, dev', d, horizon)
  {
  }

  // ---------------------------------------------------------------- runs

  /** One step keeps the invariant as long as no clock can have wrapped. */
  lemma StepKeepsInv(w: World, l: Label)
    requires Inv(w) && |Step(w, l).readings| <= MAX_LOGICAL
    ensures Inv(Step(w, l)) && |w.readings| <= |Step(w, l).readings|
  {
    hide Inv, LocalWrite, ApplyRow, Outbox, PageSince, Append, Settle, MarkAll, Elements, Ops;
    if Step(w, l) != w {
      match l
      case Write(d, k, change, id, phys) => WriteStep(w, d, k, change, id, phys);
      case Send(d) => SendStep(w, d);
      case AppendNext(h) => AppendStep(w, h);
      case LoadNext(h) => LoadStep(w, h);
      case SaveNext(h) => SaveStep(w, h);
      case Acknowledge(h) => AcknowledgeStep(w, h);
      case Fetch(d) => FetchStep(w, d);
      case ApplyNext(d, phys) => ApplyStep(w, d, phys);
      case SavePage(d) => SavePageStep(w, d);
    }
  }

  lemma ReadingsGrow(w: World, l: Label)
    ensures w.readings <= Step(w, l).readings
  {
    hide LocalWrite, ApplyRow, Outbox, PageSince, Append, Settle, MarkAll, Elements, Ops;
  }

  lemma {:induction false} RunKeepsInv(w: World, run: seq<Label>)
    requires Inv(w) && |Run(w, run).readings| <= MAX_LOGICAL
    ensures Inv(Run(w, run)) && |w.readings| <= |Run(w, run).readings|
  {
    hide Inv, Step;
    if run != [] {
      var n := |run| - 1;
      ReadingsGrow(Run(w, run[..n]), run[n]);
      RunKeepsInv(w, run[..n]);
      StepKeepsInv(Run(w, run[..n]), run[n]);
    }
  }

  lemma InitInv(ids: set<string>)
    ensures Inv(Init(ids))
  {
    var w := Init(ids);
    forall d | d in w.devices
      ensures DeviceInv(w.past, w.server.oplog, w.devices[d], d)
      ensures ForeignFromServer(w.server.oplog, w.devices[d], d, Horizon(w.devices[d], w.pulls, d))
      ensures Plausible(w.devices[d].clock, w.readings)
    {
    }
    assert Ops(EMPTY.oplog) == [];
  }

  /** Reached from some fresh system by some run that takes fewer than 2^32 clock readings. */
  ghost predicate Reachable(w: World) {
    exists ids: set<string>, run: seq<Label> :: w == Run(Init(ids), run) && |w.readings| <= MAX_LOGICAL
  }

  lemma ReachableInv(w: World)
    requires Reachable(w)
    ensures Inv(w)
  {
    hide Inv, Step;
    var ids, run :| w == Run(Init(ids), run) && |w.readings| <= MAX_LOGICAL;
    InitInv(ids);
    RunKeepsInv(Init(ids), run);
  }

  lemma ReachableBound(w: World)
    requires Reachable(w)
    ensures |w.readings| <= MAX_LOGICAL
  {
  }

  lemma ReachableRun(w: World, run: seq<Label>)
    requires Reachable(w) && |Run(w, run).readings| <= MAX_LOGICAL
    ensures Reachable(Run(w, run))
  {
    hide Step;
    var ids, before :| w == Run(Init(ids), before) && |w.readings| <= MAX_LOGICAL;
    RunConcat(Init(ids), before, run);
    assert Run(w, run) == Run(Init(ids), before + run);
  }
}
