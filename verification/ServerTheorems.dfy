/** When the server's record table is right, which saves keep it so, and what then holds on
    the server as it does on every device. */
module ServerTheorems {
  import opened Wrappers
  import opened Vectors
  import opened Hlc
  import opened Oplog
  import opened Conflict
  import opened Store
  import opened Causality
  import opened Protocol
  import opened Invariants
  import opened Safety
  import opened Theorems
  import opened ServerRecords

  /** The vector a record counts with: {} when there is no record. */
  function RecordVector(r: Option<Record>): Vector {
    if r.Some? then r.value.vv else map[]
  }

  /** The record has taken account of the write. */
  predicate Covers(r: Option<Record>, p: Op) {
    r.Some? && Leq(p.vv, r.value.vv)
  }

  // ---------------------------------------------------------------- exactly when the table is right

  lemma FoldVector(h: Past, cs: seq<Op>, k: Key)
    requires History(h) && OpsOn(h, cs, k)
    ensures Fold(cs).Some? <==> cs != []
    ensures RecordVector(Fold(cs)) == JoinAll(cs)
  {
    hide History, JoinAll, Fold;
    if cs == [] {
      FoldNothing(cs);
      JoinNothing(cs);
    } else {
      AnyFold(h, cs, k);
    }
  }

  lemma JoinNothing(cs: seq<Op>)
    requires cs == []
    ensures JoinAll(cs) == map[]
  {
  }

  /** A record folded from some of the ops ys is the fold of all of them if and only if it
      covers all of them. */
  lemma PartIsWholeIff(h: Past, w: World, ys: seq<Op>, k: Key, r: Option<Record>)
    requires History(h) && CausalLog(h, ServerLog(w)) && FromSaved(w, k, r)
    requires forall p :: p in ys ==> p in ServerLog(w) && KeyOf(p) == k
    requires forall p :: IsSaved(w, p) && KeyOf(p) == k ==> p in ys
    ensures r == Fold(ys) <==> forall p :: p in ys ==> Covers(r, p)
  {
    hide History, CausalLog, IsSaved, JoinAll, Fold, Leq;
    var cs :| FoldOfSaved(w, k, r, cs);
    SavedAreKnown(h, w, cs, k);
    forall p | p in ys ensures p in h { LoggedIsKnown(h, ServerLog(w), p); }
    FoldVector(h, cs, k);
    CoverMeansFold(h, cs, ys, k);
  }

  /** The server's table against its log, in every reachable state: on a record it is the
      fold of all logged ops if and only if it covers every one of them. */
  lemma TableRightIff(w: World, k: Key)
    requires Reachable(w)
    ensures Lookup(w.server, k) == Fold(OnKey(ServerLog(w), k))
      <==> forall p :: p in ServerLog(w) && KeyOf(p) == k ==> Covers(Lookup(w.server, k), p)
  {
    hide Reachable, Inv, Lookup, Fold, OnKey, Ops, Covers, FromSaved, HeldOnce;
    ReachableTable(w);
    ServerHistory(w);
    OnKeyMembers(ServerLog(w), k);
    PartIsWholeIff(w.past, w, OnKey(ServerLog(w), k), k, Lookup(w.server, k));
  }

  /** The same against the saved ops: the ops that no handler still holds. */
  lemma SavedRightIff(w: World, k: Key)
    requires Inv(w) && TableInv(w)
    ensures Lookup(w.server, k) == Fold(SavedOn(w, k))
      <==> forall p :: IsSaved(w, p) && KeyOf(p) == k ==> Covers(Lookup(w.server, k), p)
  {
    hide Inv, Lookup, Fold, SavedOn, Covers, FromSaved, HeldOnce;
    ServerHistory(w);
    SavedOnMembers(w, k);
    PartIsWholeIff(w.past, w, SavedOn(w, k), k, Lookup(w.server, k));
  }

  lemma SameCounters(a: Vector, b: Vector, c: Vector)
    requires forall n :: At(a, n) == At(b, n)
    ensures Leq(c, a) <==> Leq(c, b)
  {
    forall n | n in c ensures c[n] <= At(a, n) <==> c[n] <= At(b, n) {
      assert At(a, n) == At(b, n);
    }
  }

  /** The record a save stores counts what the loaded record and the op count. */
  lemma ResolvedVector(existing: Option<Record>, op: Op, c: Vector)
    ensures Leq(c, Resolve(existing, op).rec.vv) <==> Leq(c, Join(RecordVector(existing), op.vv))
  {
    var e, v := RecordVector(existing), Resolve(existing, op).rec.vv;
    forall n ensures At(v, n) == At(Join(e, op.vv), n) {
      JoinAt(e, op.vv, n);
      if existing.Some? {
        if Leq(op.vv, e) { LeqAt(op.vv, e, n); }
        if Leq(e, op.vv) { LeqAt(e, op.vv, n); }
      }
    }
    SameCounters(v, Join(e, op.vv), c);
  }

  /** What a caller could check before a save: the stored vector will be `Stored(w, h)`. */
  function Stored(w: World, h: nat): Vector
    requires Working(w, h) && w.handlers[h].stage.Loaded?
  {
    Join(RecordVector(w.handlers[h].stage.existing), Current(w, h).vv)
  }

  lemma SaveCovers(w: World, h: nat, p: Op)
    requires Inv(w) && TableInv(w) && Working(w, h) && w.handlers[h].stage.Loaded?
    ensures Covers(Lookup(StepSave(w, h).server, KeyOf(Current(w, h))), p) <==> Leq(p.vv, Stored(w, h))
  {
    hide Inv, TableInv, StepSave, Leq, Resolve;
    SaveIs(w, h);
    ResolvedVector(w.handlers[h].stage.existing, Current(w, h), p.vv);
  }

  lemma SaveIsReachable(w: World, h: nat)
    requires Reachable(w)
    ensures Reachable(StepSave(w, h)) && StepSave(w, h).past == w.past
  {
    hide Reachable, StepSave;
    RunOne(w, SaveNext(h));
    SaveReads(w, h);
    ReachableBound(w);
    ReachableRun(w, [SaveNext(h)]);
  }

  lemma SaveReads(w: World, h: nat)
    ensures StepSave(w, h).readings == w.readings && StepSave(w, h).past == w.past
  {
  }

  /** Before a save, in any reachable state: the save makes the table right on its record if
      and only if every logged op on the record is at or below the vector it will store. */
  lemma SaveRightIff(w: World, h: nat)
    requires Reachable(w) && Working(w, h) && w.handlers[h].stage.Loaded?
    ensures var k, w' := KeyOf(Current(w, h)), Step(w, SaveNext(h));
      && ServerLog(w') == ServerLog(w)
      && (Lookup(w'.server, k) == Fold(OnKey(ServerLog(w'), k))
          <==> forall p :: p in ServerLog(w) && KeyOf(p) == k ==> Leq(p.vv, Stored(w, h)))
  {
    hide Reachable, Inv, TableInv, StepSave, Leq, Fold, OnKey, Ops, Lookup, Stored, Covers, Join;
    var w', k := StepSave(w, h), KeyOf(Current(w, h));
    ReachableTable(w);
    SaveIs(w, h);
    SaveIsReachable(w, h);
    TableRightIff(w', k);
    forall p ensures Covers(Lookup(w'.server, k), p) <==> Leq(p.vv, Stored(w, h)) {
      SaveCovers(w, h, p);
    }
    assert ServerLog(w') == ServerLog(w);
  }

  // ---------------------------------------------------------------- exactly which saves lose nothing

  /** The save takes account of everything the record it replaces had taken account of. */
  predicate LosesNothing(w: World, h: nat) {
    Working(w, h) && w.handlers[h].stage.Loaded? ==>
      Leq(RecordVector(Lookup(w.server, KeyOf(Current(w, h)))), Stored(w, h))
  }

  predicate LosslessStep(w: World, l: Label) {
    l.SaveNext? ==> LosesNothing(w, l.h)
  }

  predicate LosslessRun(w: World, run: seq<Label>) {
    run != [] ==>
      LosslessRun(w, run[..|run| - 1]) && LosslessStep(Run(w, run[..|run| - 1]), run[|run| - 1])
  }

  /** The record did not go back, neither in vector nor in timestamp. */
  predicate Advances(r: Option<Record>, s: Option<Record>) {
    r.Some? ==> s.Some? && Leq(r.value.vv, s.value.vv) && !After(r.value.hlc, s.value.hlc)
  }

  lemma AdvancesIffDominates(h: Past, w: World, w': World, k: Key, r: Option<Record>, s: Option<Record>)
    requires History(h) && CausalLog(h, ServerLog(w)) && ServerLog(w') == ServerLog(w)
    requires FromSaved(w, k, r) && FromSaved(w', k, s) && s.Some?
    ensures Advances(r, s) <==> Leq(RecordVector(r), RecordVector(s))
  {
    hide History, CausalLog, IsSaved, JoinAll, Fold, Leq, Latest;
    var xs :| FoldOfSaved(w, k, r, xs);
    var ys :| FoldOfSaved(w', k, s, ys);
    SavedAreKnown(h, w, xs, k);
    SavedAreKnown(h, w', ys, k);
    FoldVector(h, xs, k);
    FoldVector(h, ys, k);
    EmptyIsBelow(JoinAll(ys));
    if xs != [] && Leq(JoinAll(xs), JoinAll(ys)) {
      AnyFold(h, xs, k);
      AnyFold(h, ys, k);
      DominanceMeansLater(h, xs, ys, k);
    }
  }

  lemma EmptyIsBelow(v: Vector)
    ensures Leq(map[], v)
  {
  }

  /** In any reachable state a save keeps its record from going back if and only if the
      vector it stores dominates that of the record it replaces. */
  lemma SaveAdvancesIff(w: World, h: nat)
    requires Reachable(w) && Working(w, h) && w.handlers[h].stage.Loaded?
    ensures var k := KeyOf(Current(w, h));
      Advances(Lookup(w.server, k), Lookup(Step(w, SaveNext(h)).server, k)) <==> LosesNothing(w, h)
  {
    hide Reachable, Inv, StepSave, Leq, Fold, OnKey, Ops, Lookup, Stored, Advances, FromSaved, HeldOnce, Resolve;
    var w', k := StepSave(w, h), KeyOf(Current(w, h));
    ReachableTable(w);
    SaveIs(w, h);
    SaveIsReachable(w, h);
    ReachableTable(w');
    ServerHistory(w);
    AdvancesIffDominates(w.past, w, w', k, Lookup(w.server, k), Lookup(w'.server, k));
    ResolvedVector(w.handlers[h].stage.existing, Current(w, h), RecordVector(Lookup(w.server, k)));
    StoredIs(w, h);
  }

  lemma StoredIs(w: World, h: nat)
    requires Working(w, h) && w.handlers[h].stage.Loaded?
    ensures Stored(w, h) == Join(RecordVector(w.handlers[h].stage.existing), Current(w, h).vv)
  {
  }

  lemma OtherStepsKeepRecords(w: World, l: Label)
    requires !l.SaveNext? || !(Working(w, l.h) && w.handlers[l.h].stage.Loaded?)
    ensures forall k :: Lookup(Step(w, l).server, k) == Lookup(w.server, k)
  {
    hide LocalWrite, ApplyRow, Outbox, PageSince, MarkAll, Elements, Ops, Validates, FreshId, HasId, SeqOf, Admissible;
  }

  lemma AdvancesSelf(r: Option<Record>)
    ensures Advances(r, r)
  {
    if r.Some? {
      CompareTotal(r.value.hlc, r.value.hlc);
    }
  }

  /** One step keeps all records of the server from going back if and only if it loses
      nothing. */
  lemma StepAdvancesIff(w: World, l: Label)
    requires Reachable(w)
    ensures (forall k :: Advances(Lookup(w.server, k), Lookup(Step(w, l).server, k))) <==> LosslessStep(w, l)
  {
    hide Reachable, Inv, TableInv, Step, Lookup, Advances, LosesNothing;
    forall k ensures Advances(Lookup(w.server, k), Lookup(w.server, k)) {
      AdvancesSelf(Lookup(w.server, k));
    }
    if l.SaveNext? && Working(w, l.h) && w.handlers[l.h].stage.Loaded? {
      SaveAdvancesIff(w, l.h);
      ReachableTable(w);
      SaveIs(w, l.h);
      StepIsSave(w, l.h);
    } else {
      OtherStepsKeepRecords(w, l);
      if l.SaveNext? {
        IdleLosesNothing(w, l.h);
      }
    }
  }

  lemma StepIsSave(w: World, h: nat)
    ensures Step(w, SaveNext(h)) == StepSave(w, h)
  {
  }

  lemma IdleLosesNothing(w: World, h: nat)
    requires !(Working(w, h) && w.handlers[h].stage.Loaded?)
    ensures LosesNothing(w, h)
  {
  }

  /** No step of the run lets a record of the server go back. */
  ghost predicate NeverGoesBack(w: World, run: seq<Label>) {
    run != [] ==>
      var before, after := Run(w, run[..|run| - 1]), Run(w, run);
      NeverGoesBack(w, run[..|run| - 1]) && forall k :: Advances(Lookup(before.server, k), Lookup(after.server, k))
  }

  /** Along a run from any reachable state the server's records never go back if and only if
      no save of the run loses anything. */
  lemma {:induction false} NeverGoesBackIff(w: World, run: seq<Label>)
    requires Reachable(w) && |Run(w, run).readings| <= MAX_LOGICAL
    ensures NeverGoesBack(w, run) <==> LosslessRun(w, run)
  {
    hide Reachable, Step, Lookup, Advances, LosslessStep;
    if run != [] {
      var mid := Run(w, run[..|run| - 1]);
      ReadingsGrow(mid, run[|run| - 1]);
      NeverGoesBackIff(w, run[..|run| - 1]);
      ReachableRun(w, run[..|run| - 1]);
      StepAdvancesIff(mid, run[|run| - 1]);
    }
  }

  lemma AdvancesTransitive(r: Option<Record>, s: Option<Record>, t: Option<Record>)
    requires Advances(r, s) && Advances(s, t)
    ensures Advances(r, t)
  {
    if r.Some? {
      LeqTransitive(r.value.vv, s.value.vv, t.value.vv);
      CompareTotal(s.value.hlc, t.value.hlc);
      if After(r.value.hlc, t.value.hlc) {
        NotAfterThenAfter(s.value.hlc, t.value.hlc, r.value.hlc);
      }
    }
  }

  /** Along a run whose saves lose nothing every record of the server only advances. */
  lemma {:induction false} ServerRecordsNeverGoBack(w: World, run: seq<Label>, k: Key)
    requires Reachable(w) && LosslessRun(w, run) && |Run(w, run).readings| <= MAX_LOGICAL
    ensures Advances(Lookup(w.server, k), Lookup(Run(w, run).server, k))
  {
    hide Reachable, Step, Lookup, Advances, LosslessStep;
    if run == [] {
      AdvancesSelf(Lookup(w.server, k));
    } else {
      var mid := Run(w, run[..|run| - 1]);
      ReadingsGrow(mid, run[|run| - 1]);
      ServerRecordsNeverGoBack(w, run[..|run| - 1], k);
      ReachableRun(w, run[..|run| - 1]);
      StepAdvancesIff(mid, run[|run| - 1]);
      AdvancesTransitive(Lookup(w.server, k), Lookup(mid.server, k), Lookup(Run(w, run).server, k));
    }
  }

  // ---------------------------------------------------------------- exactly when saved ops stay counted

  /** Every record is the fold of the saved ops on it. */
  ghost predicate Complete(w: World) {
    forall k :: Lookup(w.server, k) == Fold(SavedOn(w, k))
  }

  lemma CoversBelow(r: Option<Record>, v: Vector, p: Op)
    requires Covers(r, p) && Leq(RecordVector(r), v)
    ensures Leq(p.vv, v)
  {
    LeqTransitive(p.vv, r.value.vv, v);
  }

  /** A record that covers nothing more than v is below v if all the ops it covers are. */
  lemma FoldBelow(h: Past, w: World, k: Key, r: Option<Record>, v: Vector)
    requires History(h) && CausalLog(h, ServerLog(w)) && FromSaved(w, k, r)
    requires forall p :: IsSaved(w, p) && KeyOf(p) == k ==> Leq(p.vv, v)
    ensures Leq(RecordVector(r), v)
  {
    hide History, CausalLog, IsSaved, JoinAll, Fold, Leq;
    var cs :| FoldOfSaved(w, k, r, cs);
    SavedAreKnown(h, w, cs, k);
    FoldVector(h, cs, k);
    JoinAllIsLeastUpperBound(cs, v);
  }

  /** One save, on a record that was the fold of its saved ops: it still is if and only if
      the save loses nothing. */
  lemma SaveCompleteIff(w: World, h: nat)
    requires Inv(w) && TableInv(w) && Working(w, h) && w.handlers[h].stage.Loaded?
    requires Inv(StepSave(w, h)) && TableInv(StepSave(w, h))
    requires Lookup(w.server, KeyOf(Current(w, h))) == Fold(SavedOn(w, KeyOf(Current(w, h))))
    ensures var k, w' := KeyOf(Current(w, h)), StepSave(w, h);
      Lookup(w'.server, k) == Fold(SavedOn(w', k)) <==> LosesNothing(w, h)
  {
    hide Inv, StepSave, Leq, Fold, SavedOn, Ops, Lookup, Stored, Covers, IsSaved, FromSaved, HeldOnce, Resolve;
    var w', op, k := StepSave(w, h), Current(w, h), KeyOf(Current(w, h));
    SaveIs(w, h);
    SavedRightIff(w, k);
    SavedRightIff(w', k);
    ServerHistory(w);
    forall p ensures Covers(Lookup(w'.server, k), p) <==> Leq(p.vv, Stored(w, h)) {
      SaveCovers(w, h, p);
    }
    if LosesNothing(w, h) {
      OpIsStored(w, h);
      forall p | IsSaved(w', p) && KeyOf(p) == k ensures Leq(p.vv, Stored(w, h)) {
        if p != op {
          CoversBelow(Lookup(w.server, k), Stored(w, h), p);
        }
      }
    } else if forall p :: IsSaved(w', p) && KeyOf(p) == k ==> Covers(Lookup(w'.server, k), p) {
      forall p | IsSaved(w, p) && KeyOf(p) == k ensures Leq(p.vv, Stored(w, h)) {
        assert IsSaved(w', p);
      }
      FoldBelow(w.past, w, k, Lookup(w.server, k), Stored(w, h));
      assert false;
    }
  }

  lemma OpIsStored(w: World, h: nat)
    requires Working(w, h) && w.handlers[h].stage.Loaded?
    ensures Leq(Current(w, h).vv, Stored(w, h))
  {
    JoinIsLeastUpperBound(RecordVector(w.handlers[h].stage.existing), Current(w, h).vv, Stored(w, h));
  }

  lemma SameSavedOn(w: World, w': World, k: Key)
    requires forall p :: IsSaved(w', p) && KeyOf(p) == k <==> IsSaved(w, p) && KeyOf(p) == k
    requires Inv(w)
    ensures Fold(SavedOn(w', k)) == Fold(SavedOn(w, k))
  {
    hide Inv, IsSaved, SavedOn, Fold;
    SavedOnMembers(w, k);
    SavedOnMembers(w', k);
    ServerHistory(w);
    SavedAreKnown(w.past, w, SavedOn(w, k), k);
    SameMembersSameFold(w.past, SavedOn(w, k), SavedOn(w', k), k);
  }

  lemma SameSavedSteps(w: World, l: Label)
    requires Inv(w) && TableInv(w) && (!l.SaveNext? || !(Working(w, l.h) && w.handlers[l.h].stage.Loaded?))
    ensures forall p :: IsSaved(Step(w, l), p) <==> IsSaved(w, p)
  {
    hide TableInv, StepAppend, StepLoad, PastInv, DevicesInv, PullsInv, HandlersInv, ClocksPlausible, IsHeld, Ops;
    match l
    case AppendNext(h) => AppendKeepsTable(w, h);
    case LoadNext(h) => LoadKeepsTable(w, h);
    case SaveNext(h) =>
    case _ => OtherStepsKeepTable(w, l);
  }

  /** One step from a state in which every record is the fold of its saved ops. */
  lemma StepCompleteIff(w: World, l: Label)
    requires Inv(w) && TableInv(w) && Complete(w) && Inv(Step(w, l)) && TableInv(Step(w, l))
    ensures Complete(Step(w, l)) <==> LosslessStep(w, l)
  {
    hide Inv, TableInv, Step, Lookup, Fold, SavedOn, IsSaved, LosesNothing;
    var w' := Step(w, l);
    if l.SaveNext? && Working(w, l.h) && w.handlers[l.h].stage.Loaded? {
      StepIsSave(w, l.h);
      SaveIs(w, l.h);
      SaveCompleteIff(w, l.h);
      forall k | k != KeyOf(Current(w, l.h)) ensures Lookup(w'.server, k) == Fold(SavedOn(w', k)) {
        SameSavedOn(w, w', k);
      }
    } else {
      SameSavedSteps(w, l);
      OtherStepsKeepRecords(w, l);
      forall k ensures Lookup(w'.server, k) == Fold(SavedOn(w', k)) {
        SameSavedOn(w, w', k);
      }
      if l.SaveNext? {
        IdleLosesNothing(w, l.h);
      }
    }
  }

  /** In every state of the run every record is the fold of its saved ops. */
  ghost predicate AlwaysComplete(w: World, run: seq<Label>) {
    Complete(Run(w, run)) && (run != [] ==> AlwaysComplete(w, run[..|run| - 1]))
  }

  /** Runs of the whole system: every record of the server is always the fold of the ops
      saved by then if and only if no save of the run loses anything. */
  lemma {:induction false} CompleteIffLossless(ids: set<string>, run: seq<Label>)
    requires |Run(Init(ids), run).readings| <= MAX_LOGICAL
    ensures AlwaysComplete(Init(ids), run) <==> LosslessRun(Init(ids), run)
  {
    hide Step, Complete, LosslessStep, Inv, TableInv, Init;
    var w0 := Init(ids);
    if run == [] {
      InitComplete(ids);
    } else {
      var mid, l := Run(w0, run[..|run| - 1]), run[|run| - 1];
      ReadingsGrow(mid, l);
      CompleteIffLossless(ids, run[..|run| - 1]);
      if LosslessRun(w0, run[..|run| - 1]) {
        RunFacts(ids, run[..|run| - 1]);
        RunFacts(ids, run);
        AlwaysThenNow(w0, run[..|run| - 1]);
        StepCompleteIff(mid, l);
      }
    }
  }

  lemma AlwaysThenNow(w: World, run: seq<Label>)
    requires AlwaysComplete(w, run)
    ensures Complete(Run(w, run))
  {
  }

  lemma InitComplete(ids: set<string>)
    ensures Complete(Init(ids))
  {
    assert ServerLog(Init(ids)) == [];
  }

  lemma RunFacts(ids: set<string>, run: seq<Label>)
    requires |Run(Init(ids), run).readings| <= MAX_LOGICAL
    ensures Reachable(Run(Init(ids), run)) && Inv(Run(Init(ids), run)) && TableInv(Run(Init(ids), run))
  {
    hide Inv, TableInv, Run;
    assert Reachable(Run(Init(ids), run));
    ReachableTable(Run(Init(ids), run));
  }

  ghost predicate ReachableLosslessly(w: World) {
    exists ids: set<string>, run: seq<Label> ::
      LosslessRun(Init(ids), run) && w == Run(Init(ids), run) && |w.readings| <= MAX_LOGICAL
  }

  lemma LosslessFacts(w: World)
    requires ReachableLosslessly(w)
    ensures Reachable(w) && Inv(w) && TableInv(w) && Complete(w)
  {
    hide Inv, TableInv, Complete, Run, LosslessRun;
    var ids, run :| LosslessRun(Init(ids), run) && w == Run(Init(ids), run) && |w.readings| <= MAX_LOGICAL;
    CompleteIffLossless(ids, run);
    AlwaysThenNow(Init(ids), run);
    RunFacts(ids, run);
  }

  /** Without lossy saves, a record that no handler is working on is the fold of its log. */
  lemma QuietRecordIsRight(w: World, k: Key)
    requires ReachableLosslessly(w) && forall p :: IsHeld(w, p) ==> KeyOf(p) != k
    ensures Lookup(w.server, k) == Fold(OnKey(ServerLog(w), k))
  {
    hide ReachableLosslessly, Reachable, Inv, TableInv, IsHeld, SavedOn, Fold, OnKey, Lookup, Ops;
    LosslessFacts(w);
    NothingHeld(w, k);
    assert Lookup(w.server, k) == Fold(SavedOn(w, k));
  }

  lemma {:induction false} LosslessConcat(w: World, a: seq<Label>, b: seq<Label>)
    requires LosslessRun(w, a) && LosslessRun(Run(w, a), b)
    ensures LosslessRun(w, a + b)
  {
    hide Run, Step, LosslessStep;
    if b == [] {
      assert a + b == a;
    } else {
      var n := |b| - 1;
      LosslessConcat(w, a, b[..n]);
      RunConcat(w, a, b[..n]);
      assert (a + b)[..|a + b| - 1] == a + b[..n];
    }
  }

  lemma LosslessRunOn(w: World, run: seq<Label>)
    requires ReachableLosslessly(w) && LosslessRun(w, run) && |Run(w, run).readings| <= MAX_LOGICAL
    ensures ReachableLosslessly(Run(w, run))
  {
    hide Step, LosslessRun;
    var ids, before :| LosslessRun(Init(ids), before) && w == Run(Init(ids), before) && |w.readings| <= MAX_LOGICAL;
    RunConcat(Init(ids), before, run);
    LosslessConcat(Init(ids), before, run);
    assert Run(w, run) == Run(Init(ids), before + run);
  }

  // ---------------------------------------------------------------- windows that do not overlap

  /** A save of an unchanged record loses nothing. */
  lemma FreshLoadLosesNothing(w: World, h: nat)
    requires Working(w, h) && w.handlers[h].stage.Loaded? ==>
      w.handlers[h].stage.existing == Lookup(w.server, KeyOf(Current(w, h)))
    ensures LosesNothing(w, h)
  {
    if Working(w, h) && w.handlers[h].stage.Loaded? {
      JoinIsLeastUpperBound(RecordVector(w.handlers[h].stage.existing), Current(w, h).vv, Stored(w, h));
    }
  }

  /** The handler is between its load and its save of record k. */
  predicate BetweenLoadAndSave(hd: Handler, k: Key) {
    InWindow(hd) && hd.stage.Loaded? && KeyOf(hd.batch[hd.done]) == k
  }

  /** Nobody loads a record that another handler has loaded and not saved.  Appends, and
      handlers that stall before they load, are not restricted. */
  predicate SerialStep(w: World, l: Label) {
    l.LoadNext? && Working(w, l.h) && w.handlers[l.h].stage.Logged? ==>
      forall i :: 0 <= i < |w.handlers| ==> !BetweenLoadAndSave(w.handlers[i], KeyOf(Current(w, l.h)))
  }

  predicate SerialRun(w: World, run: seq<Label>) {
    run != [] ==>
      SerialRun(w, run[..|run| - 1]) && SerialStep(Run(w, run[..|run| - 1]), run[|run| - 1])
  }

  predicate LoadIsFresh(st: Store, hd: Handler) {
    InWindow(hd) && hd.stage.Loaded? ==> hd.stage.existing == Lookup(st, KeyOf(hd.batch[hd.done]))
  }

  ghost predicate SerialInv(w: World) {
    && (forall i :: 0 <= i < |w.handlers| ==> LoadIsFresh(w.server, w.handlers[i]))
    && forall i, j, k :: 0 <= i < j < |w.handlers| && BetweenLoadAndSave(w.handlers[i], k) ==>
      !BetweenLoadAndSave(w.handlers[j], k)
  }

  lemma SerialOthers(w: World, w': World, h: nat, saved: Key)
    requires SerialInv(w) && OnlyHandler(w, w', h)
    requires forall k :: k != saved ==> Lookup(w'.server, k) == Lookup(w.server, k)
    requires Lookup(w'.server, saved) == Lookup(w.server, saved)
      || forall i :: 0 <= i < |w.handlers| && i != h ==> !BetweenLoadAndSave(w.handlers[i], saved)
    requires LoadIsFresh(w'.server, w'.handlers[h])
    requires forall i, k :: 0 <= i < |w.handlers| && i != h && BetweenLoadAndSave(w'.handlers[h], k) ==>
      !BetweenLoadAndSave(w.handlers[i], k)
    ensures SerialInv(w')
  {
    assert forall i :: 0 <= i < |w.handlers| && i != h ==> w'.handlers[i] == w.handlers[i];
    forall i | 0 <= i < |w'.handlers| ensures LoadIsFresh(w'.server, w'.handlers[i]) {
      if i != h {
        assert LoadIsFresh(w.server, w.handlers[i]);
        assert w.handlers[i].stage.Loaded? && InWindow(w.handlers[i]) ==>
          BetweenLoadAndSave(w.handlers[i], KeyOf(w.handlers[i].batch[w.handlers[i].done]));
      }
    }
  }

  lemma SerialUnderServerSteps(w: World, l: Label)
    requires SerialInv(w) && SerialStep(w, l) && (l.AppendNext? || l.LoadNext?)
    ensures SerialInv(Step(w, l))
  {
    hide SerialInv, HasId, SeqOf, Admissible;
    var w' := Step(w, l);
    if w' != w {
      var k := KeyOf(Current(w, l.h));
      assert OnlyHandler(w, w', l.h);
      assert forall j :: Lookup(w'.server, j) == Lookup(w.server, j);
      SerialOthers(w, w', l.h, k);
    }
  }

  lemma SerialUnderSave(w: World, h: nat)
    requires Inv(w) && TableInv(w) && SerialInv(w)
    ensures SerialInv(StepSave(w, h))
  {
    hide Inv, TableInv, Resolve, Lookup;
    if Working(w, h) && w.handlers[h].stage.Loaded? {
      SaveIs(w, h);
      assert BetweenLoadAndSave(w.handlers[h], KeyOf(Current(w, h)));
      SerialOthers(w, StepSave(w, h), h, KeyOf(Current(w, h)));
    }
  }

  lemma SerialUnderOthers(w: World, l: Label)
    requires SerialInv(w) && !l.AppendNext? && !l.LoadNext? && !l.SaveNext?
    ensures SerialInv(Step(w, l))
  {
    hide LocalWrite, ApplyRow, Outbox, PageSince, MarkAll, Elements, Ops, Validates, FreshId, Lookup;
    var w' := Step(w, l);
    assert w'.server == w.server;
    assert forall i :: 0 <= i < |w.handlers| ==> w'.handlers[i] == w.handlers[i];
    assert forall i :: |w.handlers| <= i < |w'.handlers| ==> w'.handlers[i].stage.Ready?;
  }

  lemma SerialStepIsLossless(w: World, l: Label)
    requires Inv(w) && TableInv(w) && SerialInv(w) && SerialStep(w, l)
    ensures LosslessStep(w, l) && SerialInv(Step(w, l))
  {
    hide Inv, TableInv, Step, SerialStep, LosesNothing;
    if l.AppendNext? || l.LoadNext? {
      SerialUnderServerSteps(w, l);
    } else if l.SaveNext? {
      if Working(w, l.h) {
        assert LoadIsFresh(w.server, w.handlers[l.h]);
      }
      FreshLoadLosesNothing(w, l.h);
      SerialUnderSave(w, l.h);
      StepIsSave(w, l.h);
    } else {
      SerialUnderOthers(w, l);
    }
  }

  lemma {:induction false} SerialLossless(w: World, run: seq<Label>)
    requires Inv(w) && TableInv(w) && SerialInv(w) && SerialRun(w, run) && |Run(w, run).readings| <= MAX_LOGICAL
    ensures LosslessRun(w, run) && SerialInv(Run(w, run))
  {
    hide Inv, TableInv, SerialInv, Step, SerialStep, LosslessStep;
    if run != [] {
      var mid := Run(w, run[..|run| - 1]);
      ReadingsGrow(mid, run[|run| - 1]);
      SerialLossless(w, run[..|run| - 1]);
      RunKeepsInv(w, run[..|run| - 1]);
      RunKeepsTable(w, run[..|run| - 1]);
      SerialStepIsLossless(mid, run[|run| - 1]);
    }
  }

  /** A run in which load-to-save spans on one record do not overlap loses nothing. */
  lemma SerialRunIsLossless(ids: set<string>, run: seq<Label>)
    requires SerialRun(Init(ids), run) && |Run(Init(ids), run).readings| <= MAX_LOGICAL
    ensures LosslessRun(Init(ids), run)
    ensures ReachableLosslessly(Run(Init(ids), run))
  {
    hide Inv, TableInv, Run, SerialRun, LosslessRun;
    InitInv(ids);
    InitTable(ids);
    SerialLossless(Init(ids), run);
  }

  // ---------------------------------------------------------------- the server as a replica

  /** The server holds on every record what any device holds that applied the ops saved on
      it: handlers that stalled only keep their own op out. */
  lemma ServerConverges(w: World, d: string, k: Key)
    requires ReachableLosslessly(w) && d in w.devices
    requires forall p :: KeyOf(p) == k ==> (p in LogOf(w, d) <==> IsSaved(w, p))
    ensures Lookup(w.server, k) == Lookup(w.devices[d].st, k)
  {
    hide ReachableLosslessly, Reachable, Inv, TableInv, DeviceInv, PullInv, ForeignFromServer, History, ServerInv,
      IsSaved, SavedOn, Fold, OnKey, Lookup, CausalLog, Ops;
    LosslessFacts(w);
    DeviceFacts(w, d);
    DeviceRecord(w.past, w.server.oplog, w.devices[d], d, k);
    assert Lookup(w.server, k) == Fold(SavedOn(w, k));
    SavedOnMembers(w, k);
    ServerHistory(w);
    SavedAreKnown(w.past, w, SavedOn(w, k), k);
    OnKeyMembers(LogOf(w, d), k);
    SameMembersSameFold(w.past, SavedOn(w, k), OnKey(LogOf(w, d), k), k);
  }

  /** In any reachable state at all: the server agrees with a device that has the server's ops
      on a record if and only if the server's record covers them. */
  lemma ServerAgreesIff(w: World, d: string, k: Key)
    requires Reachable(w) && d in w.devices
    requires forall p :: KeyOf(p) == k ==> (p in LogOf(w, d) <==> p in ServerLog(w))
    ensures Lookup(w.server, k) == Lookup(w.devices[d].st, k)
      <==> forall p :: p in ServerLog(w) && KeyOf(p) == k ==> Covers(Lookup(w.server, k), p)
  {
    hide Reachable, Inv, TableInv, DeviceInv, PullInv, ForeignFromServer, History, Fold, OnKey, Lookup, CausalLog,
      Ops, Covers;
    TableRightIff(w, k);
    DeviceFacts(w, d);
    DeviceRecord(w.past, w.server.oplog, w.devices[d], d, k);
    SameOpsOnRecord(w.past, LogOf(w, d), ServerLog(w), k);
  }

  lemma WinnerIsNotSeen(h: Past, cs: seq<Op>, k: Key, p: Op)
    requires History(h) && OpsOn(h, cs, k) && p in cs
    ensures Latest(cs) in cs && Latest(cs) !in h[p]
  {
    LatestIsMaximum(cs);
    CompareTotal(p.hlc, Latest(cs).hlc);
  }

  /** The server never shows a value that a saved write has seen and overwritten. */
  lemma ServerValueIsNotOverwritten(w: World, p: Op)
    requires ReachableLosslessly(w) && IsSaved(w, p)
    ensures var r := Lookup(w.server, KeyOf(p));
      && r.Some?
      && exists z :: IsSaved(w, z) && z.id == r.value.winningOpId && r.value == FromOp(z).(vv := r.value.vv)
           && p in w.past && z !in w.past[p]
  {
    hide ReachableLosslessly, Reachable, Inv, TableInv, History, CausalLog, IsSaved, SavedOn, Fold, Lookup, Ops,
      JoinAll, Latest;
    var k, cs := KeyOf(p), SavedOn(w, KeyOf(p));
    LosslessFacts(w);
    assert Lookup(w.server, k) == Fold(cs);
    SavedOnMembers(w, k);
    ServerHistory(w);
    SavedAreKnown(w.past, w, cs, k);
    AnyFold(w.past, cs, k);
    WinnerIsNotSeen(w.past, cs, k, p);
  }

  lemma DominantFold(h: Past, cs: seq<Op>, z: Op)
    requires History(h) && OpsOn(h, cs, KeyOf(z)) && z in cs
    requires forall p :: p in cs && p != z ==> p in h[z]
    ensures Fold(cs) == Some(FromOp(z))
  {
    hide History, Fold;
    AnyFold(h, cs, KeyOf(z));
    WinnerIsNotSeen(h, cs, KeyOf(z), z);
    assert Latest(cs) == z;
    forall p | p in cs ensures Leq(p.vv, z.vv) {
      if p != z { VectorsAreCausality(h, p, z); }
    }
    JoinAllIsLeastUpperBound(cs, z.vv);
    JoinAllAbove(cs, z);
    JoinAllPositive(cs);
    LeqAntisymmetric(JoinAll(cs), z.vv);
  }

  /** A write that saw every other write on its record is what the server shows once it is
      saved: such a delete stays deleted there too. */
  lemma ServerDominantWriteIsShown(w: World, z: Op)
    requires ReachableLosslessly(w) && IsSaved(w, z) && z in w.past
    requires forall p :: p in w.past && KeyOf(p) == KeyOf(z) && p != z ==> p in w.past[z]
    ensures Lookup(w.server, KeyOf(z)) == Some(FromOp(z))
    ensures z.kind.Delete? ==> Lookup(w.server, KeyOf(z)).value.deleted
  {
    hide ReachableLosslessly, Reachable, Inv, TableInv, History, CausalLog, IsSaved, SavedOn, Fold, Lookup, Ops;
    var k, cs := KeyOf(z), SavedOn(w, KeyOf(z));
    LosslessFacts(w);
    assert Lookup(w.server, k) == Fold(cs);
    SavedOnMembers(w, k);
    ServerHistory(w);
    SavedAreKnown(w.past, w, cs, k);
    DominantFold(w.past, cs, z);
  }

  // ---------------------------------------------------------------- conflicts on the server

  /** Seen by the op itself or by one that was folded: through the former, q's view of a saved
      op; through the latter, the fold's. */
  lemma SeenThrough(h: Past, cs: seq<Op>, q: Op, s: Op)
    requires History(h) && OpsOn(h, cs + [q], KeyOf(q)) && s in h && KeyOf(s) == KeyOf(q)
    requires Leq(s.vv, JoinAll(cs + [q]))
    ensures s == q || s in h[q] || exists r :: r in cs && r in h && (s == r || s in h[r])
  {
    hide History;
    CoveredIffSeen(h, cs + [q], KeyOf(q), s);
  }

  /** What a saved op knows of q, some op of the loaded part knows. */
  lemma PartSees(h: Past, cs: seq<Op>, q: Op, s: Op)
    requires History(h) && OpsOn(h, cs + [q], KeyOf(q)) && q !in cs && s in h && s != q && KeyOf(s) == KeyOf(q)
    requires Leq(s.vv, JoinAll(cs + [q]))
    ensures q in h[s] || ConcurrentIn(h, s, q) ==> exists r :: r in cs && r in h && (s == r || s in h[r])
    ensures q in h[s] ==> exists r :: r in cs && r in h && q in h[r]
    ensures ConcurrentIn(h, s, q) ==> exists r :: r in cs && r in h && (ConcurrentIn(h, r, q) || q in h[r])
  {
    assert q in cs + [q];
    SeenThrough(h, cs, q, s);
    PastIsIrreflexive(h, s, q);
    hide History;
    if r :| r in cs && r in h && (s == r || s in h[r]) {
      ThroughOne(h, r, q, s);
    }
  }

  /** What the loaded part of the saved ops knows of q is what all of them know. */
  lemma PartDetects(h: Past, cs: seq<Op>, ss: seq<Op>, q: Op)
    requires History(h) && OpsOn(h, ss + [q], KeyOf(q)) && q !in ss && forall p :: p in cs ==> p in ss
    requires forall s :: s in ss ==> Leq(s.vv, JoinAll(cs + [q]))
    ensures (exists r :: r in cs && q in h[r]) <==> exists r :: r in ss && q in h[r]
    ensures !(exists r :: r in ss && q in h[r]) ==>
      ((exists r :: r in cs && ConcurrentIn(h, r, q)) <==> exists r :: r in ss && ConcurrentIn(h, r, q))
  {
    hide History, ConcurrentIn, Leq, JoinAll;
    assert q in ss + [q] && forall p :: p in ss ==> p in ss + [q];
    forall s | s in ss
      ensures q in h[s] ==> exists r :: r in cs && q in h[r]
      ensures ConcurrentIn(h, s, q) ==> exists r :: r in cs && (ConcurrentIn(h, r, q) || q in h[r])
    {
      PartSees(h, cs, q, s);
    }
  }

  lemma ThroughOne(h: Past, r: Op, q: Op, s: Op)
    requires History(h) && r in h && q in h && s in h && r != q && (s == r || s in h[r])
    ensures q in h[s] ==> q in h[r]
    ensures ConcurrentIn(h, s, q) ==> ConcurrentIn(h, r, q) || q in h[r]
  {
  }

  lemma SameNames(h: Past, cs: seq<Op>, ss: seq<Op>, q: Op, c: ConflictRow)
    requires History(h) && OpsOn(h, ss + [q], KeyOf(q)) && forall p :: p in cs ==> p in ss
    requires forall s :: s in ss ==> Leq(s.vv, JoinAll(cs + [q]))
    requires NamesLatest(c, cs + [q])
    ensures NamesLatest(c, ss + [q])
  {
    hide History, JoinAll, Leq, Latest, After, Fold;
    var a, b := cs + [q], ss + [q];
    JoinAllAbove(a, q);
    assert OpsOn(h, a, KeyOf(q));
    AnyFold(h, a, KeyOf(q));
    AnyFold(h, b, KeyOf(q));
    SameMaterial(h, a, b, KeyOf(q));
    LatestIsMaximum(a);
    LatestIsMaximum(b);
    TimestampsAreUnique(h, Latest(a), Latest(b));
    var l :| l in a && l.id == c.losingOpId && After(Latest(a).hlc, l.hlc);
    assert l in b;
  }

  lemma LoadedDetects(h: Past, w: World, q: Op, existing: Option<Record>)
    requires History(h) && CausalLog(h, ServerLog(w)) && q in h && !IsSaved(w, q)
    requires FromSaved(w, KeyOf(q), existing)
    requires forall s :: IsSaved(w, s) && KeyOf(s) == KeyOf(q) ==> Leq(s.vv, Join(RecordVector(existing), q.vv))
    ensures var ss := SavedOn(w, KeyOf(q));
      (Resolve(existing, q).conflicted <==>
        !(exists r :: r in ss && r in h && q in h[r]) && exists r :: r in ss && ConcurrentIn(h, r, q))
    ensures Resolve(existing, q).conflicted ==>
      forall n :: NamesLatest(AuditRow(Resolve(existing, q), q, n), SavedOn(w, KeyOf(q)) + [q])
  {
    hide History, CausalLog, IsSaved, SavedOn, JoinAll, Fold, Leq, Resolve, Join, NamesLatest, ConcurrentIn;
    var k, ss := KeyOf(q), SavedOn(w, KeyOf(q));
    var cs :| FoldOfSaved(w, k, existing, cs);
    SavedOnMembers(w, k);
    SavedAreKnown(h, w, cs, k);
    SavedAreKnown(h, w, ss, k);
    FoldVector(h, cs, k);
    JoinNext(cs, q);
    DetectionFor(h, cs, q);
    PartDetects(h, cs, ss, q);
    if Resolve(existing, q).conflicted {
      forall n ensures NamesLatest(AuditRow(Resolve(existing, q), q, n), ss + [q]) {
        NamesOnFold(h, cs, q, n);
        SameNames(h, cs, ss, q, AuditRow(Resolve(existing, q), q, n));
      }
    }
  }

  lemma JoinNext(cs: seq<Op>, q: Op)
    ensures JoinAll(cs + [q]) == Join(JoinAll(cs), q.vv)
  {
    assert (cs + [q])[..|cs|] == cs;
  }

  lemma LossesNoneCovered(w: World, h: nat, s: Op)
    requires Inv(w) && TableInv(w) && Complete(w) && Working(w, h) && w.handlers[h].stage.Loaded?
    requires LosesNothing(w, h) && IsSaved(w, s) && KeyOf(s) == KeyOf(Current(w, h))
    ensures Leq(s.vv, Stored(w, h))
  {
    hide Inv, TableInv, Fold, SavedOn, IsSaved, Lookup, Stored, Leq;
    SavedRightIff(w, KeyOf(s));
    assert Lookup(w.server, KeyOf(s)) == Fold(SavedOn(w, KeyOf(s)));
    CoversBelow(Lookup(w.server, KeyOf(s)), Stored(w, h), s);
  }

  /** A save that loses nothing adds an audit row if and only if no saved op on the record has
      seen the op and some saved op is causally concurrent with it; the row carries the op's
      number and names the latest of the saved ops and this one, and an earlier one. */
  lemma ServerDetectsExactly(w: World, h: nat)
    requires ReachableLosslessly(w) && Working(w, h) && w.handlers[h].stage.Loaded? && LosesNothing(w, h)
    ensures var q, w' := Current(w, h), Step(w, SaveNext(h));
      var ss := SavedOn(w, KeyOf(q));
      if !(exists r :: r in ss && r in w.past && q in w.past[r]) && exists r :: r in ss && ConcurrentIn(w.past, r, q)
      then exists c :: w'.server.conflicts == w.server.conflicts + [c] && NamesLatest(c, ss + [q])
             && c.detectedAtSeq == w.handlers[h].stage.serverSeq
      else w'.server.conflicts == w.server.conflicts
  {
    hide ReachableLosslessly, Reachable, Inv, StepSave, History, CausalLog, IsSaved, SavedOn, Complete, FromSaved,
      Resolve, Join, Leq, NamesLatest, ConcurrentIn, HeldOnce, LosesNothing, Stored, Lookup, Ops;
    var q, s := Current(w, h), w.handlers[h].stage;
    LosslessFacts(w);
    SaveIs(w, h);
    ServerHistory(w);
    StepIsSave(w, h);
    StoredIs(w, h);
    assert LoadedFromSaved(w, w.handlers[h]);
    LoggedIsKnown(w.past, ServerLog(w), q);
    forall p | IsSaved(w, p) && KeyOf(p) == KeyOf(q) ensures Leq(p.vv, Stored(w, h)) {
      LossesNoneCovered(w, h, p);
    }
    LoadedDetects(w.past, w, q, s.existing);
  }

  predicate SaveEnabled(w: World, h: nat) {
    Working(w, h) && w.handlers[h].stage.Loaded?
  }

  /** The save of handler h finds a conflict, and c is the row it adds. */
  predicate AddedBy(w: World, h: nat, c: ConflictRow) {
    SaveEnabled(w, h)
    && var d := Resolve(w.handlers[h].stage.existing, Current(w, h));
       d.conflicted && c == AuditRow(d, Current(w, h), w.handlers[h].stage.serverSeq)
  }

  lemma StepAudits(w: World, l: Label, c: ConflictRow)
    requires Reachable(w) && c in Step(w, l).server.conflicts && c !in w.server.conflicts
    ensures l.SaveNext? && AddedBy(w, l.h, c)
  {
    hide Reachable, Inv, TableInv, Step, Resolve, AuditRow;
    if l.SaveNext? && SaveEnabled(w, l.h) {
      ReachableTable(w);
      SaveIs(w, l.h);
      StepIsSave(w, l.h);
    } else {
      OtherStepsKeepAudit(w, l);
    }
  }

  lemma OtherStepsKeepAudit(w: World, l: Label)
    requires !l.SaveNext? || !SaveEnabled(w, l.h)
    ensures Step(w, l).server.conflicts == w.server.conflicts
  {
    hide LocalWrite, ApplyRow, Outbox, PageSince, MarkAll, Elements, Ops, Validates, FreshId, HasId, SeqOf, Admissible;
  }

  /** The row carries the number of the saved op, names it, and names as winner the latest of
      it and the ops folded into the record that was loaded, and as loser an earlier one. */
  ghost predicate RightWhenAdded(w: World, h: nat, c: ConflictRow) {
    SaveEnabled(w, h)
    && var q := Current(w, h);
       && 0 < c.detectedAtSeq <= |w.server.oplog| && w.server.oplog[c.detectedAtSeq - 1].op == q
       && (q.id == c.winningOpId || q.id == c.losingOpId)
       && exists cs :: FoldOfSaved(w, KeyOf(q), w.handlers[h].stage.existing, cs) && NamesLatest(c, cs + [q])
  }

  lemma AddedIsRight(w: World, h: nat, c: ConflictRow)
    requires Reachable(w) && AddedBy(w, h, c)
    ensures RightWhenAdded(w, h, c)
  {
    hide Reachable, Inv, Fold, Resolve, NamesLatest, IsSaved, IsHeld, History, CausalLog, HeldOnce, Ops;
    var q, s := Current(w, h), w.handlers[h].stage;
    ReachableTable(w);
    ServerHistory(w);
    assert LoadedFromSaved(w, w.handlers[h]) by { hide FromSaved, FoldOfSaved; }
    SaveIs(w, h);
    HeldHere(w, h);
    RowIsHeld(w, h);
    LoggedIsKnown(w.past, ServerLog(w), q);
    var cs :| FoldOfSaved(w, KeyOf(q), s.existing, cs);
    SavedAreKnown(w.past, w, cs, KeyOf(q));
    NamesOnFold(w.past, cs, q, s.serverSeq);
  }

  lemma RowIsHeld(w: World, h: nat)
    requires TableInv(w) && SaveEnabled(w, h)
    ensures var n := w.handlers[h].stage.serverSeq;
      0 < n <= |w.server.oplog| && w.server.oplog[n - 1].op == Current(w, h)
  {
    hide FromSaved;
    assert HoldsRow(w.server.oplog, w.handlers[h]);
  }

  lemma {:induction false} LosslessPrefix(w: World, run: seq<Label>, i: nat)
    requires LosslessRun(w, run) && i < |run|
    ensures LosslessRun(w, run[..i]) && LosslessStep(Run(w, run[..i]), run[i])
  {
    hide Run, LosslessStep;
    var front := run[..|run| - 1];
    if i < |front| {
      LosslessPrefix(w, front, i);
      assert front[..i] == run[..i];
    } else {
      assert front == run[..i];
    }
  }

  /** Where a row of the final state was added. */
  lemma {:induction false} AddedDuring(ids: set<string>, run: seq<Label>, c: ConflictRow) returns (i: nat, h: nat)
    requires |Run(Init(ids), run).readings| <= MAX_LOGICAL && c in Run(Init(ids), run).server.conflicts
    ensures i < |run| && run[i] == SaveNext(h) && AddedBy(Run(Init(ids), run[..i]), h, c)
    ensures Reachable(Run(Init(ids), run[..i]))
  {
    hide Step, Reachable, AddedBy;
    RunNone(Init(ids));
    assert run != [];
    var n := |run| - 1;
    var mid := Run(Init(ids), run[..n]);
    ReadingsGrow(mid, run[n]);
    RunFacts(ids, run[..n]);
    if c in mid.server.conflicts {
      i, h := AddedDuring(ids, run[..n], c);
      assert run[..n][..i] == run[..i];
    } else {
      StepAudits(mid, run[n], c);
      i, h := n, run[n].h;
    }
  }

  /** Every audit row of the server, in every run, was added by a save of the run and was right
      then; and in a run whose saves lose nothing it names the latest of all ops saved by then
      and the op itself. */
  lemma ServerAuditRowsAreRight(ids: set<string>, run: seq<Label>, c: ConflictRow) returns (i: nat, h: nat)
    requires |Run(Init(ids), run).readings| <= MAX_LOGICAL && c in Run(Init(ids), run).server.conflicts
    ensures i < |run| && run[i] == SaveNext(h)
    ensures var w := Run(Init(ids), run[..i]);
      && RightWhenAdded(w, h, c)
      && (LosslessRun(Init(ids), run) ==> NamesLatest(c, SavedOn(w, KeyOf(Current(w, h))) + [Current(w, h)]))
  {
    hide Step, Run, Reachable, AddedBy, RightWhenAdded, SavedOn, NamesLatest, LosslessRun, LosesNothing;
    i, h := AddedDuring(ids, run, c);
    var w := Run(Init(ids), run[..i]);
    AddedIsRight(w, h, c);
    AddedNeedsSave(w, h, c);
    if LosslessRun(Init(ids), run) {
      LosslessPrefix(Init(ids), run, i);
      ReachableBound(w);
      assert ReachableLosslessly(w);
      LosslessRowIsRight(w, h, c);
    }
  }

  lemma AddedNeedsSave(w: World, h: nat, c: ConflictRow)
    requires AddedBy(w, h, c)
    ensures SaveEnabled(w, h)
  {
  }

  lemma LosslessRowIsRight(w: World, h: nat, c: ConflictRow)
    requires ReachableLosslessly(w) && AddedBy(w, h, c) && LosesNothing(w, h)
    ensures NamesLatest(c, SavedOn(w, KeyOf(Current(w, h))) + [Current(w, h)])
  {
    hide ReachableLosslessly, Reachable, TableInv, Inv, NamesLatest, SavedOn, ConcurrentIn, Step, Resolve, AuditRow;
    LosslessFacts(w);
    SaveIs(w, h);
    StepIsSave(w, h);
    ServerDetectsExactly(w, h);
    assert (w.server.conflicts + [c])[|w.server.conflicts|] == c;
  }

  // ---------------------------------------------------------------- each op is folded at most once

  /** At most one handler ever holds a log row. */
  lemma AtMostOneHolder(w: World, i: nat, j: nat)
    requires Reachable(w) && i < |w.handlers| && j < |w.handlers| && i != j
    requires InWindow(w.handlers[i]) && InWindow(w.handlers[j])
    ensures SeqOfStage(w.handlers[i].stage) != SeqOfStage(w.handlers[j].stage)
    ensures w.handlers[i].batch[w.handlers[i].done] != w.handlers[j].batch[w.handlers[j].done]
  {
    hide Reachable, Inv, FromSaved, Ops;
    ReachableTable(w);
    ServerHistory(w);
    HoldersDiffer(w, i, j);
    if i > j {
      assert SeqOfStage(w.handlers[j].stage) != SeqOfStage(w.handlers[i].stage);
    }
  }

  /** The n-th row is logged and nobody holds it any more. */
  predicate Released(w: World, n: nat) {
    0 < n <= |w.server.oplog|
    && forall i :: 0 <= i < |w.handlers| && InWindow(w.handlers[i]) ==> SeqOfStage(w.handlers[i].stage) != n
  }

  /** What one statement of a handler does to what it holds. */
  lemma HandlerStep(w: World, l: Label)
    requires l.AppendNext? || l.LoadNext? || l.SaveNext?
    ensures var w' := Step(w, l);
      && w.server.oplog <= w'.server.oplog
      && (w' == w || OnlyHandler(w, w', l.h))
      && (w' != w && InWindow(w'.handlers[l.h]) ==>
           || SeqOfStage(w'.handlers[l.h].stage) == w.server.next
           || (InWindow(w.handlers[l.h])
               && SeqOfStage(w'.handlers[l.h].stage) == SeqOfStage(w.handlers[l.h].stage)))
  {
    hide HasId, SeqOf, Admissible, Lookup, Settle, Resolve;
    if l.SaveNext? && SaveEnabled(w, l.h) {
      var s := w.handlers[l.h].stage;
      SettleKeepsLog(w.server, Resolve(s.existing, Current(w, l.h)), Current(w, l.h), s.serverSeq);
    }
  }

  lemma QuietStep(w: World, l: Label)
    requires !l.AppendNext? && !l.LoadNext? && !l.SaveNext?
    ensures var w' := Step(w, l);
      && w'.server == w.server && |w.handlers| <= |w'.handlers|
      && (forall i :: 0 <= i < |w.handlers| ==> w'.handlers[i] == w.handlers[i])
      && forall i :: |w.handlers| <= i < |w'.handlers| ==> w'.handlers[i].stage.Ready?
  {
    hide LocalWrite, ApplyRow, Outbox, PageSince, MarkAll, Elements, Ops, Validates, FreshId;
  }

  lemma StepKeepsReleased(w: World, l: Label, n: nat)
    requires Dense(w.server) && Released(w, n)
    ensures Released(Step(w, l), n)
  {
    hide Step;
    if l.AppendNext? || l.LoadNext? || l.SaveNext? {
      HandlerStep(w, l);
    } else {
      QuietStep(w, l);
    }
  }

  lemma SaveReleasesRow(w: World, h: nat)
    requires Reachable(w) && SaveEnabled(w, h)
    ensures Released(Step(w, SaveNext(h)), w.handlers[h].stage.serverSeq)
  {
    hide Reachable, Inv, FromSaved, StepSave, Resolve;
    var w' := StepSave(w, h);
    ReachableTable(w);
    SaveIs(w, h);
    StepIsSave(w, h);
    assert HoldsRow(w.server.oplog, w.handlers[h]);
    forall i: nat | i < |w'.handlers| && InWindow(w'.handlers[i])
      ensures SeqOfStage(w'.handlers[i].stage) != w.handlers[h].stage.serverSeq
    {
      assert i != h && w'.handlers[i] == w.handlers[i];
      AtMostOneHolder(w, i, h);
    }
  }

  lemma {:induction false} RunKeepsReleased(w: World, run: seq<Label>, n: nat)
    requires Reachable(w) && Released(w, n) && |Run(w, run).readings| <= MAX_LOGICAL
    ensures Released(Run(w, run), n)
  {
    hide Reachable, Step, Released, Inv;
    if run != [] {
      var mid := Run(w, run[..|run| - 1]);
      ReadingsGrow(mid, run[|run| - 1]);
      RunKeepsReleased(w, run[..|run| - 1], n);
      ReachableRun(w, run[..|run| - 1]);
      ReachableInv(mid);
      ServerHistory(mid);
      StepKeepsReleased(mid, run[|run| - 1], n);
    }
  }

  lemma {:induction false} PrefixReads(w: World, run: seq<Label>, n: nat)
    requires n <= |run|
    ensures |Run(w, run[..n]).readings| <= |Run(w, run).readings|
  {
    hide Step;
    if n < |run| {
      var front := run[..|run| - 1];
      PrefixReads(w, front, n);
      assert front[..n] == run[..n];
      ReadingsGrow(Run(w, front), run[|run| - 1]);
    } else {
      assert run[..n] == run;
    }
  }

  /** Folding is exactly-once: however batches are redelivered and handlers interleave, no
      two saves of a run are for the same log row. */
  lemma FoldedAtMostOnce(w: World, run: seq<Label>, i: nat, j: nat, a: nat, b: nat)
    requires Reachable(w) && i < j < |run| && run[i] == SaveNext(a) && run[j] == SaveNext(b)
    requires |Run(w, run).readings| <= MAX_LOGICAL
    requires SaveEnabled(Run(w, run[..i]), a) && SaveEnabled(Run(w, run[..j]), b)
    ensures Run(w, run[..i]).handlers[a].stage.serverSeq != Run(w, run[..j]).handlers[b].stage.serverSeq
  {
    hide Reachable, Step, Run;
    var w1, n := Run(w, run[..i]), Run(w, run[..i]).handlers[a].stage.serverSeq;
    PrefixReads(w, run, i);
    PrefixReads(w, run, j);
    PrefixReads(w, run, i + 1);
    ReachableRun(w, run[..i]);
    ReachableRun(w, run[..i + 1]);
    SaveReleasesRow(w1, a);
    assert run[..i + 1] == run[..i] + [run[i]];
    RunConcat(w, run[..i], [run[i]]);
    RunOne(w1, run[i]);
    var w2 := Run(w, run[..i + 1]);
    assert run[..j] == run[..i + 1] + run[i + 1..j];
    RunConcat(w, run[..i + 1], run[i + 1..j]);
    RunKeepsReleased(w2, run[i + 1..j], n);
  }
}
