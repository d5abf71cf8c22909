/** The server's record table.  A push handler appends an op, loads the record and saves the
    result in three separate statements, and handlers interleave between them.  Here is what
    the table holds in every reachable state, exactly when it is right, and exactly which
    saves keep it so. */
module ServerRecords {
  import opened Wrappers
  import opened Hlc
  import opened Oplog
  import opened Conflict
  import opened Store
  import opened Causality
  import opened Protocol
  import opened Invariants
  import opened Safety
  import opened Theorems

  // ---------------------------------------------------------------- logged, held and saved ops

  /** The handler has logged its current op and not yet saved the record. */
  predicate InWindow(hd: Handler) {
    !hd.stage.Ready? && hd.done < |hd.batch|
  }

  predicate Holds(hd: Handler, p: Op) {
    InWindow(hd) && hd.batch[hd.done] == p
  }

  predicate IsHeld(w: World, p: Op) {
    exists i :: 0 <= i < |w.handlers| && Holds(w.handlers[i], p)
  }

  /** The op was logged, and the handler that logged it has saved its record. */
  predicate IsSaved(w: World, p: Op) {
    p in ServerLog(w) && !IsHeld(w, p)
  }

  function Unheld(w: World, xs: seq<Op>): seq<Op> {
    if xs == [] then []
    else
      var n := |xs| - 1;
      if IsHeld(w, xs[n]) then Unheld(w, xs[..n]) else Unheld(w, xs[..n]) + [xs[n]]
  }

  /** The saved ops on record k, in log order. */
  function SavedOn(w: World, k: Key): seq<Op> {
    Unheld(w, OnKey(ServerLog(w), k))
  }

  lemma {:induction false} UnheldMembers(w: World, xs: seq<Op>)
    ensures forall p :: p in Unheld(w, xs) <==> p in xs && !IsHeld(w, p)
  {
    hide IsHeld;
    if xs != [] {
      Front(xs);
      UnheldMembers(w, xs[..|xs| - 1]);
    }
  }

  lemma SavedOnMembers(w: World, k: Key)
    ensures forall p :: p in SavedOn(w, k) <==> IsSaved(w, p) && KeyOf(p) == k
  {
    hide IsHeld, Unheld, OnKey, Ops;
    UnheldMembers(w, OnKey(ServerLog(w), k));
    OnKeyMembers(ServerLog(w), k);
  }

  /** Handlers whose windows are closed hold nothing. */
  lemma NothingHeld(w: World, k: Key)
    requires forall p :: IsHeld(w, p) ==> KeyOf(p) != k
    ensures SavedOn(w, k) == OnKey(ServerLog(w), k)
  {
    hide IsHeld, OnKey, Ops;
    OnKeyMembers(ServerLog(w), k);
    AllUnheld(w, OnKey(ServerLog(w), k));
  }

  lemma {:induction false} AllUnheld(w: World, xs: seq<Op>)
    requires forall p :: p in xs ==> !IsHeld(w, p)
    ensures Unheld(w, xs) == xs
  {
    hide IsHeld;
    if xs != [] {
      AllUnheld(w, xs[..|xs| - 1]);
    }
  }

  // ---------------------------------------------------------------- the invariant of every run

  function SeqOfStage(s: Stage): nat
    requires !s.Ready?
  {
    s.serverSeq
  }

  /** What the handler holds is the log row with the number it was given. */
  ghost predicate HoldsRow(log: seq<Row>, hd: Handler) {
    InWindow(hd) ==>
      && 0 < SeqOfStage(hd.stage) <= |log|
      && log[SeqOfStage(hd.stage) - 1].op == hd.batch[hd.done]
  }

  /** No two handlers hold the same log row. */
  ghost predicate HeldOnce(w: World) {
    && (forall i :: 0 <= i < |w.handlers| ==> HoldsRow(w.server.oplog, w.handlers[i]))
    && forall i, j :: 0 <= i < j < |w.handlers| && InWindow(w.handlers[i]) && InWindow(w.handlers[j]) ==>
      SeqOfStage(w.handlers[i].stage) != SeqOfStage(w.handlers[j].stage)
  }

  /** The record is the fold of saved ops, some of them perhaps missing. */
  ghost predicate FoldOfSaved(w: World, k: Key, r: Option<Record>, cs: seq<Op>) {
    (forall p :: p in cs ==> IsSaved(w, p) && KeyOf(p) == k) && r == Fold(cs)
  }

  ghost predicate FromSaved(w: World, k: Key, r: Option<Record>) {
    exists cs :: FoldOfSaved(w, k, r, cs)
  }

  ghost predicate LoadedFromSaved(w: World, hd: Handler) {
    InWindow(hd) && hd.stage.Loaded? ==> FromSaved(w, KeyOf(hd.batch[hd.done]), hd.stage.existing)
  }

  ghost predicate TableInv(w: World) {
    && HeldOnce(w)
    && (forall k :: FromSaved(w, k, Lookup(w.server, k)))
    && forall i :: 0 <= i < |w.handlers| ==> LoadedFromSaved(w, w.handlers[i])
  }

  // ---------------------------------------------------------------- preservation

  /** What was folded from saved ops stays so while saved ops stay saved. */
  lemma SavedGrows(w: World, w': World, k: Key, r: Option<Record>)
    requires FromSaved(w, k, r) && forall p :: IsSaved(w, p) ==> IsSaved(w', p)
    ensures FromSaved(w', k, r)
  {
    hide IsSaved;
    var cs :| FoldOfSaved(w, k, r, cs);
    assert FoldOfSaved(w', k, r, cs);
  }

  /** No other handler changes. */
  predicate OnlyHandler(w: World, w': World, h: nat) {
    h < |w.handlers| == |w'.handlers| && w'.handlers == w.handlers[h := w'.handlers[h]]
  }

  lemma HeldAfter(w: World, w': World, h: nat, p: Op)
    requires OnlyHandler(w, w', h)
    ensures IsHeld(w', p) <==>
      Holds(w'.handlers[h], p) || exists i :: 0 <= i < |w.handlers| && i != h && Holds(w.handlers[i], p)
  {
    if IsHeld(w', p) {
      var i :| 0 <= i < |w'.handlers| && Holds(w'.handlers[i], p);
      assert i == h || Holds(w.handlers[i], p);
    }
    if i :| 0 <= i < |w.handlers| && i != h && Holds(w.handlers[i], p) {
      assert Holds(w'.handlers[i], p);
    }
  }

  lemma SameHeld(w: World, w': World, h: nat)
    requires OnlyHandler(w, w', h) && w'.server.oplog == w.server.oplog
    requires forall p :: Holds(w'.handlers[h], p) <==> Holds(w.handlers[h], p)
    ensures forall p :: IsHeld(w', p) <==> IsHeld(w, p)
  {
    hide Holds;
    forall p ensures IsHeld(w', p) <==> IsHeld(w, p) {
      HeldAfter(w, w', h, p);
    }
  }

  lemma SameTable(w: World, w': World)
    requires TableInv(w) && w'.server == w.server
    requires w'.handlers == w.handlers
      || exists hd: Handler :: hd.stage.Ready? && w'.handlers == w.handlers + [hd]
    ensures TableInv(w')
    ensures forall p :: IsHeld(w', p) <==> IsHeld(w, p)
  {
    hide FromSaved, HoldsRow;
    assert forall i :: 0 <= i < |w.handlers| ==> w'.handlers[i] == w.handlers[i];
    assert forall i :: |w.handlers| <= i < |w'.handlers| ==> w'.handlers[i].stage.Ready?;
    forall p ensures IsHeld(w', p) <==> IsHeld(w, p) {
      if i :| 0 <= i < |w.handlers| && Holds(w.handlers[i], p) {
        assert Holds(w'.handlers[i], p);
      }
    }
    forall k, r | FromSaved(w, k, r) ensures FromSaved(w', k, r) {
      SavedGrows(w, w', k, r);
    }
    forall i | 0 <= i < |w'.handlers| ensures LoadedFromSaved(w', w'.handlers[i]) {
      assert i < |w.handlers| ==> LoadedFromSaved(w, w.handlers[i]);
    }
    forall i | 0 <= i < |w'.handlers| ensures HoldsRow(w'.server.oplog, w'.handlers[i]) {
      if i >= |w.handlers| {
        ReadyHoldsNothing(w'.server.oplog, w'.handlers[i]);
      }
    }
  }

  lemma ReadyHoldsNothing(log: seq<Row>, hd: Handler)
    requires hd.stage.Ready?
    ensures HoldsRow(log, hd)
  {
  }

  // ---- append

  lemma AppendKeepsHeldOnce(w: World, w': World, h: nat, op: Op)
    requires HeldOnce(w) && Dense(w.server) && h < |w.handlers|
    requires w'.server.oplog == w.server.oplog + [Row(op, w.server.next, false)]
    requires OnlyHandler(w, w', h)
    requires Holds(w'.handlers[h], op) && SeqOfStage(w'.handlers[h].stage) == w.server.next
    ensures HeldOnce(w')
  {
    assert forall i :: 0 <= i < |w.handlers| && i != h ==> w'.handlers[i] == w.handlers[i];
    forall i | 0 <= i < |w'.handlers| ensures HoldsRow(w'.server.oplog, w'.handlers[i]) {
      if i != h {
        assert HoldsRow(w.server.oplog, w.handlers[i]);
      }
    }
    forall i, j | 0 <= i < j < |w'.handlers| && InWindow(w'.handlers[i]) && InWindow(w'.handlers[j])
      ensures SeqOfStage(w'.handlers[i].stage) != SeqOfStage(w'.handlers[j].stage)
    {
      if i == h { assert HoldsRow(w.server.oplog, w.handlers[j]); }
      if j == h { assert HoldsRow(w.server.oplog, w.handlers[i]); }
    }
  }

  /** After an append the new op is held, and the saved ops are those that were. */
  lemma AppendHolds(w: World, w': World, h: nat, op: Op)
    requires h < |w.handlers| && w.handlers[h].stage.Ready? && op !in ServerLog(w)
    requires w'.server.oplog == w.server.oplog + [Row(op, w.server.next, false)]
    requires OnlyHandler(w, w', h) && Holds(w'.handlers[h], op)
    ensures forall p :: IsSaved(w', p) <==> IsSaved(w, p)
  {
    OpsAppend(w.server.oplog, Row(op, w.server.next, false));
    forall p ensures IsSaved(w', p) <==> IsSaved(w, p) {
      HeldAfter(w, w', h, p);
      HeldAfter(w, w, h, p);
    }
  }

  lemma AppendKeepsTable(w: World, h: nat)
    requires TableInv(w) && Dense(w.server)
    ensures TableInv(StepAppend(w, h))
    ensures forall p :: IsSaved(StepAppend(w, h), p) <==> IsSaved(w, p)
    ensures forall k :: Lookup(StepAppend(w, h).server, k) == Lookup(w.server, k)
  {
    hide HasId, Admissible, Ops, FromSaved, HeldOnce;
    var w' := StepAppend(w, h);
    if Working(w, h) && w.handlers[h].stage.Ready? && Admissible(Current(w, h), w.handlers[h].deviceId) {
      var op := Current(w, h);
      if HasId(w.server.oplog, op.id) {
        SameHeld(w, w', h);
        ReadyKeepsHeldOnce(w, w', h);
      } else {
        HasIdInOps(w.server.oplog, op.id);
        AppendHolds(w, w', h, op);
        AppendKeepsHeldOnce(w, w', h, op);
      }
      TableAfter(w, w', h);
    }
  }

  lemma ReadyKeepsHeldOnce(w: World, w': World, h: nat)
    requires HeldOnce(w) && h < |w.handlers| && w'.server.oplog == w.server.oplog
    requires OnlyHandler(w, w', h) && w'.handlers[h].stage.Ready?
    ensures HeldOnce(w')
  {
    assert forall i :: 0 <= i < |w.handlers| && i != h ==> w'.handlers[i] == w.handlers[i];
    forall i | 0 <= i < |w'.handlers| ensures HoldsRow(w'.server.oplog, w'.handlers[i]) {
      assert HoldsRow(w.server.oplog, w.handlers[i]);
    }
  }

  /** The parts of TableInv that only ask saved ops to stay saved. */
  lemma TableAfter(w: World, w': World, h: nat)
    requires TableInv(w) && HeldOnce(w') && h < |w.handlers|
    requires OnlyHandler(w, w', h) && !w'.handlers[h].stage.Loaded?
    requires w'.server.records == w.server.records
    requires forall p :: IsSaved(w, p) ==> IsSaved(w', p)
    ensures TableInv(w')
  {
    hide FromSaved, HeldOnce, IsSaved;
    forall k ensures FromSaved(w', k, Lookup(w'.server, k)) {
      SavedGrows(w, w', k, Lookup(w.server, k));
    }
    forall i | 0 <= i < |w'.handlers| ensures LoadedFromSaved(w', w'.handlers[i]) {
      if i != h {
        LoadedStays(w, w', w.handlers[i]);
      }
    }
  }

  lemma LoadedStays(w: World, w': World, hd: Handler)
    requires LoadedFromSaved(w, hd) && forall p :: IsSaved(w, p) ==> IsSaved(w', p)
    ensures LoadedFromSaved(w', hd)
  {
    hide IsSaved, FromSaved;
    if InWindow(hd) && hd.stage.Loaded? {
      SavedGrows(w, w', KeyOf(hd.batch[hd.done]), hd.stage.existing);
    }
  }

  // ---- load

  lemma LoadKeepsTable(w: World, h: nat)
    requires TableInv(w)
    ensures TableInv(StepLoad(w, h))
    ensures forall p :: IsSaved(StepLoad(w, h), p) <==> IsSaved(w, p)
  {
    var w' := StepLoad(w, h);
    if Working(w, h) && w.handlers[h].stage.Logged? {
      SameHeld(w, w', h);
      LoadKeepsHeldOnce(w, w', h);
      hide FromSaved, HeldOnce, IsSaved, Lookup;
      forall k ensures FromSaved(w', k, Lookup(w'.server, k)) {
        SavedGrows(w, w', k, Lookup(w.server, k));
      }
      forall i | 0 <= i < |w'.handlers| ensures LoadedFromSaved(w', w'.handlers[i]) {
        if i != h {
          LoadedStays(w, w', w.handlers[i]);
        }
      }
    }
  }

  lemma LoadKeepsHeldOnce(w: World, w': World, h: nat)
    requires HeldOnce(w) && h < |w.handlers| && w'.server.oplog == w.server.oplog && InWindow(w.handlers[h])
    requires OnlyHandler(w, w', h)
    requires w'.handlers[h] == w.handlers[h].(stage := w'.handlers[h].stage) && !w'.handlers[h].stage.Ready?
    requires SeqOfStage(w'.handlers[h].stage) == SeqOfStage(w.handlers[h].stage)
    ensures HeldOnce(w')
  {
    assert forall i :: 0 <= i < |w.handlers| && i != h ==> w'.handlers[i] == w.handlers[i];
    forall i | 0 <= i < |w'.handlers| ensures HoldsRow(w'.server.oplog, w'.handlers[i]) {
      assert HoldsRow(w.server.oplog, w.handlers[i]);
    }
  }

  // ---- save

  /** The saved op is held by nobody else, so it counts as saved from now on. */
  lemma SaveReleases(w: World, w': World, h: nat)
    requires HeldOnce(w) && NoRepeats(ServerLog(w)) && h < |w.handlers| && InWindow(w.handlers[h])
    requires w'.server.oplog == w.server.oplog
    requires OnlyHandler(w, w', h) && w'.handlers[h].stage.Ready?
    ensures var op := w.handlers[h].batch[w.handlers[h].done];
      op in ServerLog(w) && forall p :: IsSaved(w', p) <==> IsSaved(w, p) || p == op
  {
    var op, log := w.handlers[h].batch[w.handlers[h].done], w.server.oplog;
    assert HoldsRow(log, w.handlers[h]);
    assert Ops(log)[SeqOfStage(w.handlers[h].stage) - 1] == op;
    forall i | 0 <= i < |w.handlers| && i != h ensures !Holds(w.handlers[i], op) {
      HoldersDiffer(w, h, i);
    }
    forall p ensures IsSaved(w', p) <==> IsSaved(w, p) || p == op {
      HeldAfter(w, w', h, p);
      HeldAfter(w, w, h, p);
    }
  }

  lemma HoldersDiffer(w: World, i: nat, j: nat)
    requires HeldOnce(w) && NoRepeats(ServerLog(w)) && i < |w.handlers| && j < |w.handlers| && i != j
    requires InWindow(w.handlers[i])
    ensures !Holds(w.handlers[j], w.handlers[i].batch[w.handlers[i].done])
  {
    var log, a, b := w.server.oplog, w.handlers[i], w.handlers[j];
    assert HoldsRow(log, a) && HoldsRow(log, b);
    if InWindow(b) {
      var m, n := SeqOfStage(a.stage) - 1, SeqOfStage(b.stage) - 1;
      assert m != n && Ops(log)[m] == a.batch[a.done] && Ops(log)[n] == b.batch[b.done];
    }
  }

  /** What a save stores is again the fold of saved ops. */
  lemma SavedRecord(w: World, w': World, op: Op, existing: Option<Record>)
    requires FromSaved(w, KeyOf(op), existing)
    requires forall p :: IsSaved(w, p) || p == op ==> IsSaved(w', p)
    ensures KeyOfRecord(Resolve(existing, op).rec) == KeyOf(op)
    ensures FromSaved(w', KeyOf(op), Some(Resolve(existing, op).rec))
  {
    hide IsSaved, Fold, Resolve;
    var cs :| FoldOfSaved(w, KeyOf(op), existing, cs);
    FoldAppend(cs, op);
    FoldKey(cs + [op], KeyOf(op));
    assert FoldOfSaved(w', KeyOf(op), Some(Resolve(existing, op).rec), cs + [op]);
  }

  lemma SavedAreKnown(h: Past, w: World, cs: seq<Op>, k: Key)
    requires CausalLog(h, ServerLog(w)) && forall p :: p in cs ==> IsSaved(w, p) && KeyOf(p) == k
    ensures OpsOn(h, cs, k)
    ensures forall p :: p in cs ==> p in ServerLog(w) && !IsHeld(w, p)
  {
  }

  lemma LoggedIsKnown(h: Past, xs: seq<Op>, p: Op)
    requires CausalLog(h, xs) && p in xs
    ensures p in h
  {
  }

  lemma SettleIs(st: Store, d: Decision, op: Op, serverSeq: nat)
    requires KeyOfRecord(d.rec) == KeyOf(op)
    ensures var st' := Settle(st, d, op, serverSeq);
      && st'.oplog == st.oplog && st'.next == st.next
      && Lookup(st', KeyOf(op)) == Some(d.rec)
      && (forall k :: k != KeyOf(op) ==> Lookup(st', k) == Lookup(st, k))
      && st'.conflicts == st.conflicts + if d.conflicted then [AuditRow(d, op, serverSeq)] else []
  {
  }

  /** All that one save does. */
  lemma SaveIs(w: World, h: nat)
    requires Inv(w) && TableInv(w) && Working(w, h) && w.handlers[h].stage.Loaded?
    ensures var w', op, s := StepSave(w, h), Current(w, h), w.handlers[h].stage;
      var d := Resolve(s.existing, op);
      && OnlyHandler(w, w', h) && w'.handlers[h].stage.Ready? && w'.past == w.past && w'.readings == w.readings
      && w'.server.oplog == w.server.oplog && w'.server.next == w.server.next
      && Lookup(w'.server, KeyOf(op)) == Some(d.rec)
      && (forall k :: k != KeyOf(op) ==> Lookup(w'.server, k) == Lookup(w.server, k))
      && w'.server.conflicts == w.server.conflicts
           + (if d.conflicted then [AuditRow(d, op, s.serverSeq)] else [])
      && op in ServerLog(w) && !IsSaved(w, op)
      && (forall p :: IsSaved(w', p) <==> IsSaved(w, p) || p == op)
  {
    hide FromSaved, HeldOnce, PastInv, DevicesInv, PullsInv, HandlersInv, ClocksPlausible, IsHeld, Ops,
      Resolve, Settle, Lookup;
    var w', op, s := StepSave(w, h), Current(w, h), w.handlers[h].stage;
    assert LoadedFromSaved(w, w.handlers[h]);
    SettleKeepsLog(w.server, Resolve(s.existing, op), op, s.serverSeq);
    SaveReleases(w, w', h);
    SavedRecord(w, w', op, s.existing);
    SettleIs(w.server, Resolve(s.existing, op), op, s.serverSeq);
    HeldHere(w, h);
  }

  lemma HeldHere(w: World, h: nat)
    requires h < |w.handlers| && InWindow(w.handlers[h])
    ensures IsHeld(w, w.handlers[h].batch[w.handlers[h].done])
  {
    assert Holds(w.handlers[h], w.handlers[h].batch[w.handlers[h].done]);
  }

  lemma SaveKeepsTable(w: World, h: nat)
    requires Inv(w) && TableInv(w)
    ensures TableInv(StepSave(w, h))
  {
    hide FromSaved, HeldOnce, Inv, IsSaved, Ops, Resolve, Lookup;
    if Working(w, h) && w.handlers[h].stage.Loaded? {
      var w', op, s := StepSave(w, h), Current(w, h), w.handlers[h].stage;
      SaveIs(w, h);
      hide StepSave;
      ReadyKeepsHeldOnce(w, w', h);
      assert LoadedFromSaved(w, w.handlers[h]);
      SavedRecord(w, w', op, s.existing);
      forall k ensures FromSaved(w', k, Lookup(w'.server, k)) {
        if k != KeyOf(op) {
          SavedGrows(w, w', k, Lookup(w.server, k));
        }
      }
      forall i | 0 <= i < |w'.handlers| ensures LoadedFromSaved(w', w'.handlers[i]) {
        if i != h {
          LoadedStays(w, w', w.handlers[i]);
        }
      }
    }
  }

  lemma ServerHistory(w: World)
    requires Inv(w)
    ensures History(w.past) && CausalLog(w.past, ServerLog(w)) && Dense(w.server)
  {
  }

  // ---- all steps and runs

  lemma OtherStepsKeepTable(w: World, l: Label)
    requires TableInv(w) && !l.AppendNext? && !l.LoadNext? && !l.SaveNext?
    ensures TableInv(Step(w, l)) && Step(w, l).server == w.server
    ensures forall p :: IsHeld(Step(w, l), p) <==> IsHeld(w, p)
  {
    hide TableInv, LocalWrite, ApplyRow, Outbox, PageSince, MarkAll, Elements, Ops, Validates, FreshId, IsHeld;
    SameTable(w, Step(w, l));
  }

  lemma StepKeepsTable(w: World, l: Label)
    requires Inv(w) && TableInv(w)
    ensures TableInv(Step(w, l))
  {
    hide TableInv, StepAppend, StepLoad, StepSave, PastInv, DevicesInv, PullsInv, HandlersInv, ClocksPlausible;
    match l
    case AppendNext(h) => AppendKeepsTable(w, h);
    case LoadNext(h) => LoadKeepsTable(w, h);
    case SaveNext(h) => SaveKeepsTable(w, h);
    case _ => OtherStepsKeepTable(w, l);
  }

  lemma {:induction false} RunKeepsTable(w: World, run: seq<Label>)
    requires Inv(w) && TableInv(w) && |Run(w, run).readings| <= MAX_LOGICAL
    ensures TableInv(Run(w, run))
  {
    hide Inv, TableInv, Step;
    if run != [] {
      var mid := Run(w, run[..|run| - 1]);
      ReadingsGrow(mid, run[|run| - 1]);
      RunKeepsInv(w, run[..|run| - 1]);
      RunKeepsTable(w, run[..|run| - 1]);
      StepKeepsTable(mid, run[|run| - 1]);
    }
  }

  lemma InitTable(ids: set<string>)
    ensures TableInv(Init(ids))
  {
    var w := Init(ids);
    forall k ensures FromSaved(w, k, Lookup(w.server, k)) {
      assert FoldOfSaved(w, k, None, []);
    }
  }

  /** The table invariant, whatever handlers interleave, stall or die. */
  lemma ReachableTable(w: World)
    requires Reachable(w)
    ensures Inv(w) && TableInv(w)
  {
    hide Inv, TableInv, Step;
    ReachableInv(w);
    var ids, run :| w == Run(Init(ids), run) && |w.readings| <= MAX_LOGICAL;
    InitInv(ids);
    InitTable(ids);
    RunKeepsTable(Init(ids), run);
  }
}
