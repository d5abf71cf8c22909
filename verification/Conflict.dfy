/** Deterministic conflict resolution (internal/conflict/conflict.go): `Resolve`, what a
    record becomes when ops are folded through it one after another, and exactly which
    sets of ops it converges on. */
module Conflict {
  import opened Wrappers
  import opened Vectors
  import opened Hlc
  import opened Oplog

  datatype Decision = Decision(rec: Record, conflicted: bool, winnerOpId: string, loserOpId: string)

  function FromOp(op: Op): Record {
    Record(op.collection, op.recordId, op.payload, op.kind.Delete?, op.vv, op.hlc, op.id)
  }

  /** `existing` is None when no op has touched the record. */
  function Resolve(existing: Option<Record>, op: Op): Decision {
    match existing
    case None => Decision(FromOp(op), false, op.id, "")
    case Some(rec) =>
      match Relate(rec.vv, op.vv)
      case Equal => Decision(rec, false, rec.winningOpId, "")
      case Descendant => Decision(rec, false, rec.winningOpId, "")
      case Ancestor => Decision(FromOp(op), false, op.id, "")
      case Concurrent =>
        var merged := Join(rec.vv, op.vv);
        if After(op.hlc, rec.hlc) then
          Decision(FromOp(op).(vv := merged), true, op.id, rec.winningOpId)
        else
          Decision(rec.(vv := merged), true, rec.winningOpId, op.id)
  }

  /** The record shows the op. */
  ghost predicate Shows(rec: Record, op: Op) {
    && rec.collection == op.collection && rec.recordId == op.recordId
    && rec.payload == op.payload && (rec.deleted <==> op.kind == Kind.Delete)
    && rec.hlc == op.hlc && rec.winningOpId == op.id
  }

  /** A record no op has touched, and one that the op is not concurrent with. */
  lemma ResolveWithoutConflict(existing: Option<Record>, op: Op)
    requires existing.None?
      || (forall n :: At(op.vv, n) <= At(existing.value.vv, n))
      || (forall n :: At(existing.value.vv, n) <= At(op.vv, n))
    ensures !Resolve(existing, op).conflicted && Resolve(existing, op).loserOpId == ""
    ensures existing.Some? && (forall n :: At(op.vv, n) <= At(existing.value.vv, n)) ==>
      Resolve(existing, op).rec == existing.value && Resolve(existing, op).winnerOpId == existing.value.winningOpId
    ensures existing.None? || !(forall n :: At(op.vv, n) <= At(existing.value.vv, n)) ==>
      && Shows(Resolve(existing, op).rec, op) && Resolve(existing, op).rec.vv == op.vv
      && Resolve(existing, op).winnerOpId == op.id
  {
    if existing.Some? {
      LeqMeansNoGreater(existing.value.vv, op.vv);
      LeqMeansNoGreater(op.vv, existing.value.vv);
    }
  }

  /** A conflict: the side with the later timestamp is kept, under the counters of both. */
  lemma ResolveConflict(rec: Record, op: Op)
    requires (exists n :: At(op.vv, n) > At(rec.vv, n)) && exists n :: At(rec.vv, n) > At(op.vv, n)
    ensures var d := Resolve(Some(rec), op);
      && d.conflicted
      && (forall n :: At(d.rec.vv, n) == if At(rec.vv, n) >= At(op.vv, n) then At(rec.vv, n) else At(op.vv, n))
      && (After(op.hlc, rec.hlc) ==> Shows(d.rec, op) && d.winnerOpId == op.id && d.loserOpId == rec.winningOpId)
      && (!After(op.hlc, rec.hlc) ==>
           d.rec == rec.(vv := d.rec.vv) && d.winnerOpId == rec.winningOpId && d.loserOpId == op.id)
  {
    LeqMeansNoGreater(rec.vv, op.vv);
    LeqMeansNoGreater(op.vv, rec.vv);
    forall n ensures At(Join(rec.vv, op.vv), n) == Max(At(rec.vv, n), At(op.vv, n)) { JoinAt(rec.vv, op.vv, n); }
  }

  /** The record after the ops of `xs` were resolved in that order. */
  function Fold(xs: seq<Op>): Option<Record> {
    if xs == [] then None
    else Some(Resolve(Fold(xs[..|xs| - 1]), xs[|xs| - 1]).rec)
  }

  // ---------------------------------------------------------------- the order-free reference

  /** The merge of all vectors of `xs`. */
  function JoinAll(xs: seq<Op>): Vector {
    if xs == [] then map[]
    else Join(JoinAll(xs[..|xs| - 1]), xs[|xs| - 1].vv)
  }

  /** The op of `xs` with the greatest timestamp. */
  function Latest(xs: seq<Op>): Op
    requires xs != []
  {
    var n := |xs| - 1;
    if n == 0 then xs[0]
    else if After(xs[n].hlc, Latest(xs[..n]).hlc) then xs[n]
    else Latest(xs[..n])
  }

  /** What the record of `xs` should be: the latest op's contents under the joint vector. */
  function Materialize(xs: seq<Op>): Record
    requires xs != []
  {
    FromOp(Latest(xs)).(vv := JoinAll(xs))
  }

  // ---------------------------------------------------------------- facts about the reference

  predicate PositiveOps(xs: seq<Op>) {
    forall p :: p in xs ==> Positive(p.vv)
  }

  lemma Front(xs: seq<Op>)
    requires xs != []
    ensures forall p :: p in xs <==> p in xs[..|xs| - 1] || p == xs[|xs| - 1]
  {
    assert xs == xs[..|xs| - 1] + [xs[|xs| - 1]];
  }

  lemma {:induction false} JoinAllPositive(xs: seq<Op>)
    requires PositiveOps(xs)
    ensures Positive(JoinAll(xs))
  {
    if xs != [] {
      Front(xs);
      JoinAllPositive(xs[..|xs| - 1]);
      JoinPositive(JoinAll(xs[..|xs| - 1]), xs[|xs| - 1].vv);
    }
  }

  /** JoinAll is the least upper bound of the vectors of `xs`. */
  lemma {:induction false} JoinAllIsLeastUpperBound(xs: seq<Op>, c: Vector)
    ensures Leq(JoinAll(xs), c) <==> forall p :: p in xs ==> Leq(p.vv, c)
  {
    if xs != [] {
      Front(xs);
      JoinAllIsLeastUpperBound(xs[..|xs| - 1], c);
      JoinIsLeastUpperBound(JoinAll(xs[..|xs| - 1]), xs[|xs| - 1].vv, c);
    }
  }

  lemma JoinAllAbove(xs: seq<Op>, p: Op)
    requires p in xs
    ensures Leq(p.vv, JoinAll(xs))
  {
    JoinAllIsLeastUpperBound(xs, JoinAll(xs));
  }

  /** Each counter of the joint vector is the counter of some op of `xs`. */
  lemma {:induction false} JoinAllAttained(xs: seq<Op>, n: string) returns (r: Op)
    requires xs != []
    ensures r in xs && At(r.vv, n) == At(JoinAll(xs), n)
  {
    var front, last := xs[..|xs| - 1], xs[|xs| - 1];
    Front(xs);
    JoinAt(JoinAll(front), last.vv, n);
    if front == [] || At(last.vv, n) >= At(JoinAll(front), n) {
      r := last;
    } else {
      r := JoinAllAttained(front, n);
    }
  }

  /** Latest is a member that no member's timestamp exceeds. */
  lemma {:induction false} LatestIsMaximum(xs: seq<Op>)
    requires xs != []
    ensures Latest(xs) in xs
    ensures forall p :: p in xs ==> !After(p.hlc, Latest(xs).hlc)
  {
    var n := |xs| - 1;
    AfterIsStrictTotalOrder();
    Front(xs);
    if n > 0 {
      LatestIsMaximum(xs[..n]);
    }
  }

  /** Two orders, or any repetitions, of the same ops have one reference record. */
  lemma MaterializeIgnoresOrder(xs: seq<Op>, ys: seq<Op>)
    requires xs != [] && ys != []
    requires forall p :: p in xs <==> p in ys
    requires PositiveOps(xs)
    requires forall p, q :: p in xs && q in xs && p.hlc == q.hlc ==> p == q
    ensures Materialize(xs) == Materialize(ys)
  {
    LatestIsMaximum(xs);
    LatestIsMaximum(ys);
    CompareTotal(Latest(xs).hlc, Latest(ys).hlc);
    JoinAllPositive(xs);
    JoinAllPositive(ys);
    forall p | p in xs ensures Leq(p.vv, JoinAll(ys)) { JoinAllAbove(ys, p); }
    forall p | p in ys ensures Leq(p.vv, JoinAll(xs)) { JoinAllAbove(xs, p); }
    JoinAllIsLeastUpperBound(xs, JoinAll(ys));
    JoinAllIsLeastUpperBound(ys, JoinAll(xs));
    LeqAntisymmetric(JoinAll(xs), JoinAll(ys));
  }

  // ---------------------------------------------------------------- what every fold satisfies

  /** Which side's contents `Resolve` keeps when a record holding l's contents under the
      vector v meets op. */
  function Kept(l: Op, v: Vector, op: Op): Op {
    if Leq(op.vv, v) then l
    else if Leq(v, op.vv) || After(op.hlc, l.hlc) then op
    else l
  }

  lemma FoldStep(front: seq<Op>, l: Op, op: Op)
    requires front != [] && PositiveOps(front) && Positive(op.vv)
    requires Fold(front) == Some(FromOp(l).(vv := JoinAll(front)))
    ensures Fold(front + [op]) == Some(FromOp(Kept(l, JoinAll(front), op)).(vv := JoinAll(front + [op])))
  {
    var xs, v := front + [op], JoinAll(front);
    assert xs[..|xs| - 1] == front;
    JoinAllPositive(front);
    JoinPositive(v, op.vv);
    JoinIsLeastUpperBound(v, op.vv, v);
    JoinIsLeastUpperBound(v, op.vv, op.vv);
    if Leq(op.vv, v) {
      LeqAntisymmetric(JoinAll(xs), v);
    } else if Leq(v, op.vv) {
      LeqAntisymmetric(JoinAll(xs), op.vv);
    }
  }

  lemma FoldOne(op: Op)
    requires Positive(op.vv)
    ensures Fold([op]) == Some(FromOp(op).(vv := JoinAll([op])))
  {
    assert JoinAll([op]) == Join(map[], op.vv);
    JoinIsLeastUpperBound(map[], op.vv, op.vv);
    JoinPositive(map[], op.vv);
    LeqAntisymmetric(JoinAll([op]), op.vv);
  }

  /** Whatever the ops, the record's vector is the join of all of theirs, and its other
      fields come from one of them. */
  lemma {:induction false} FoldVectorIsJoin(xs: seq<Op>) returns (w: Op)
    requires xs != [] && PositiveOps(xs)
    ensures w in xs && Fold(xs) == Some(FromOp(w).(vv := JoinAll(xs)))
  {
    var front, last := xs[..|xs| - 1], xs[|xs| - 1];
    Front(xs);
    assert xs == front + [last];
    if front == [] {
      FoldOne(last);
      w := last;
    } else {
      w := FoldVectorIsJoin(front);
      FoldStep(front, w, last);
      w := Kept(w, JoinAll(front), last);
    }
  }

  // ---------------------------------------------------------------- exactly when folds converge

  /** Every counter of q's vector is reached by some op of S with a smaller timestamp.
      A replica that holds those ops takes q for a stale replay. */
  predicate Covered(q: Op, S: set<Op>) {
    && (exists r :: r in S && After(q.hlc, r.hlc))
    && forall n :: n in q.vv ==> exists r :: r in S && After(q.hlc, r.hlc) && q.vv[n] <= At(r.vv, n)
  }

  predicate Over(xs: seq<Op>, S: set<Op>) {
    xs != [] && forall p :: p in xs ==> p in S
  }

  /** Every enumeration of every nonempty part of S, in any order and with any
      repetitions, folds to the latest op's contents under the joint vector. */
  ghost predicate FoldsConverge(S: set<Op>) {
    forall xs: seq<Op> :: Over(xs, S) ==> Fold(xs) == Some(Materialize(xs))
  }

  predicate DistinctPositive(S: set<Op>) {
    && (forall p :: p in S ==> Positive(p.vv))
    && forall p, q :: p in S && q in S && p.hlc == q.hlc ==> p == q
  }

  ghost predicate Enumerates(xs: seq<Op>, S: set<Op>) {
    xs != [] && forall p :: p in xs <==> p in S
  }

  /** All enumerations of exactly S, in any order and with any repetitions, fold to the latest
      op's contents under the joint vector. */
  ghost predicate SetConverges(S: set<Op>) {
    forall xs: seq<Op> :: Enumerates(xs, S) ==> Fold(xs) == Some(Materialize(xs))
  }

  predicate IsLatest(l: Op, S: set<Op>) {
    l in S && forall p :: p in S && p != l ==> After(l.hlc, p.hlc)
  }

  /** The writes of one set, folded in any order: they converge if and only if the latest of
      them is not covered by the others. */
  lemma SetConvergesIff(S: set<Op>, l: Op)
    requires DistinctPositive(S) && IsLatest(l, S)
    ensures SetConverges(S) <==> !Covered(l, S)
  {
    if Covered(l, S) {
      var xs := CoveredOpIsLost(l, S);
      assert Enumerates(xs, S);
    } else {
      forall xs: seq<Op> | Enumerates(xs, S) ensures Fold(xs) == Some(Materialize(xs)) {
        LatestStays(xs, S, l);
        LatestIs(xs, S, l);
      }
    }
  }

  /** And all parts of a set converge if and only if no op at all is covered. */
  lemma ConvergesIffUncovered(S: set<Op>)
    requires DistinctPositive(S)
    ensures FoldsConverge(S) <==> forall q :: q in S ==> !Covered(q, S)
  {
    if forall q :: q in S ==> !Covered(q, S) {
      forall xs: seq<Op> | Over(xs, S) ensures Fold(xs) == Some(Materialize(xs)) {
        var T := set p | p in xs;
        var l := Latest(xs);
        LatestOfPart(xs, T);
        assert T <= S;
        CoveredInPart(l, T, S);
        SetConvergesIff(T, l);
        assert Enumerates(xs, T);
      }
    } else {
      var q :| q in S && Covered(q, S);
      var xs := CoveredOpIsLost(q, S);
      assert !FoldsConverge(S);
    }
  }

  lemma LatestOfPart(xs: seq<Op>, T: set<Op>)
    requires xs != [] && (forall p :: p in xs <==> p in T)
    requires forall p, q :: p in T && q in T && p.hlc == q.hlc ==> p == q
    ensures IsLatest(Latest(xs), T)
  {
    LatestIsMaximum(xs);
    forall p | p in T && p != Latest(xs) ensures After(Latest(xs).hlc, p.hlc) {
      CompareTotal(Latest(xs).hlc, p.hlc);
    }
  }

  lemma CoveredInPart(q: Op, T: set<Op>, S: set<Op>)
    requires T <= S
    ensures Covered(q, T) ==> Covered(q, S)
  {
  }

  lemma LatestIs(xs: seq<Op>, S: set<Op>, l: Op)
    requires Over(xs, S) && IsLatest(l, S) && l in xs
    ensures Latest(xs) == l
  {
    LatestIsMaximum(xs);
  }

  /** Once the latest op has been folded, it stays; and when it comes, it wins. */
  lemma {:induction false} LatestStays(xs: seq<Op>, S: set<Op>, l: Op)
    requires DistinctPositive(S) && Over(xs, S) && IsLatest(l, S) && !Covered(l, S) && l in xs
    ensures Fold(xs) == Some(FromOp(l).(vv := JoinAll(xs)))
  {
    var front, last := xs[..|xs| - 1], xs[|xs| - 1];
    Front(xs);
    assert xs == front + [last];
    if front == [] {
      FoldOne(last);
    } else if l in front {
      LatestStays(front, S, l);
      FoldStep(front, l, last);
      JoinAllAbove(front, l);
      if Leq(JoinAll(front), last.vv) {
        LeqTransitive(l.vv, JoinAll(front), last.vv);
        NotCoveredByOne(l, last, S);
      }
      CompareTotal(l.hlc, last.hlc);
    } else {
      var w := FoldVectorIsJoin(front);
      FoldStep(front, w, l);
      NotCoveredByJoin(front, l, S);
    }
  }

  /** The latest op, uncovered, is not below the joint vector of other ops. */
  lemma NotCoveredByJoin(front: seq<Op>, l: Op, S: set<Op>)
    requires Over(front, S) && IsLatest(l, S) && !Covered(l, S) && l !in front
    ensures !Leq(l.vv, JoinAll(front))
  {
    if Leq(l.vv, JoinAll(front)) {
      assert front[0] in front;
      forall n | n in l.vv ensures exists r :: r in S && After(l.hlc, r.hlc) && l.vv[n] <= At(r.vv, n) {
        var r := JoinAllAttained(front, n);
        assert r in S;
      }
    }
  }

  /** The latest op, uncovered, is below no other op's vector. */
  lemma NotCoveredByOne(l: Op, q: Op, S: set<Op>)
    requires IsLatest(l, S) && q in S && !Covered(l, S) && Leq(l.vv, q.vv)
    ensures q == l
  {
  }

  /** Every finite set of ops has an enumeration. */
  lemma {:induction false} Enumerate(S: set<Op>) returns (xs: seq<Op>)
    ensures forall p :: p in xs <==> p in S
  {
    if S == {} {
      xs := [];
    } else {
      var p :| p in S;
      var rest := Enumerate(S - {p});
      xs := rest + [p];
    }
  }

  /** A covered op loses against ops it should beat: this enumeration goes wrong. */
  lemma CoveredOpIsLost(q: Op, S: set<Op>) returns (xs: seq<Op>)
    requires DistinctPositive(S) && q in S && Covered(q, S)
    ensures Over(xs, S) && Fold(xs) != Some(Materialize(xs))
    ensures forall p :: p in xs <==> p in S && (p == q || After(q.hlc, p.hlc))
  {
    var front := Enumerate(set r | r in S && After(q.hlc, r.hlc));
    var r0 :| r0 in S && After(q.hlc, r0.hlc);
    assert r0 in front;
    xs := front + [q];
    var w := FoldVectorIsJoin(front);
    CoveredIsBelowJoin(q, S, front);
    FoldStep(front, w, q);
    LatestIsMaximum(xs);
    CompareTotal(q.hlc, w.hlc);
    assert Fold(xs).value.hlc == w.hlc;
    assert Latest(xs).hlc != w.hlc;
  }

  lemma CoveredIsBelowJoin(q: Op, S: set<Op>, front: seq<Op>)
    requires Covered(q, S)
    requires forall r :: r in front <==> r in S && After(q.hlc, r.hlc)
    ensures Leq(q.vv, JoinAll(front))
  {
    forall n | n in q.vv ensures q.vv[n] <= At(JoinAll(front), n) {
      var r :| r in S && After(q.hlc, r.hlc) && q.vv[n] <= At(r.vv, n);
      JoinAllAbove(front, r);
      LeqAt(r.vv, JoinAll(front), n);
    }
  }

  // ---------------------------------------------------------------- causal histories converge

  /** W1: a vector that counts p's own write dominates p's vector.
      W2: a write whose vector dominates another's is later. */
  predicate CausalClocks(S: set<Op>) {
    && (forall p, q :: p in S && q in S && At(q.vv, p.deviceId) >= At(p.vv, p.deviceId) ==> Leq(p.vv, q.vv))
    && forall p, q :: p in S && q in S && p != q && Leq(p.vv, q.vv) ==> After(q.hlc, p.hlc)
  }

  /** Under W1 and W2 no op is covered, so every fold converges, whatever mix of causal
      and concurrent writes S holds. */
  lemma CausalHistoriesConverge(S: set<Op>)
    requires DistinctPositive(S) && CausalClocks(S)
    ensures FoldsConverge(S)
  {
    forall q | q in S ensures !Covered(q, S) {
      if Covered(q, S) {
        var r: Op;
        if q.deviceId in q.vv {
          r :| r in S && After(q.hlc, r.hlc) && q.vv[q.deviceId] <= At(r.vv, q.deviceId);
        } else {
          r :| r in S && After(q.hlc, r.hlc);
        }
        assert Leq(q.vv, r.vv);
        CompareTotal(q.hlc, r.hlc);
      }
    }
    ConvergesIffUncovered(S);
  }

  /** Order independence as replicas need it: the same ops, in two orders with any
      repetitions, leave the identical record. */
  lemma SameOpsSameRecord(xs: seq<Op>, ys: seq<Op>, S: set<Op>)
    requires DistinctPositive(S) && CausalClocks(S)
    requires Over(xs, S) && Over(ys, S)
    requires forall p :: p in xs <==> p in ys
    ensures Fold(xs) == Fold(ys)
  {
    CausalHistoriesConverge(S);
    MaterializeIgnoresOrder(xs, ys);
  }

  // ---------------------------------------------------------------- what Resolve alone does not give

  function Write(id: string, vv: Vector, physical: int64): Op {
    Op(id, id, "c", "r", Update, Some("v"), vv, Timestamp(physical, 0, "n"))
  }

  lemma FoldThree(a: Op, b: Op, c: Op)
    ensures Fold([a, b, c]) == Some(Resolve(Some(Resolve(Some(FromOp(a)), b).rec), c).rec)
  {
    assert [a, b, c][..2] == [a, b];
    assert [a, b][..1] == [a];
    assert Fold([a]) == Some(FromOp(a));
  }

  lemma ConcurrentBy(a: Vector, b: Vector, m: string, n: string)
    requires At(a, m) > At(b, m) && At(b, n) > At(a, n)
    ensures Relate(a, b) == Concurrent
  {
  }

  /** A third write below the join of two concurrent ones is dropped as stale. */
  lemma ThirdIsStale(a: Op, b: Op, c: Op)
    requires Relate(a.vv, b.vv).Concurrent? && Leq(c.vv, Join(a.vv, b.vv))
    ensures Fold([a, b, c]).value.winningOpId == if After(b.hlc, a.hlc) then b.id else a.id
  {
    FoldThree(a, b, c);
  }

  /** The package comment says pairwise-concurrent writes converge in any order.  These
      three are pairwise concurrent with distinct timestamps, and two orders disagree:
      the one with the greatest timestamp loses when it comes last. */
  lemma PairwiseConcurrentMayDiverge(p: Op, q: Op, r: Op)
    requires p == Write("p", map["A" := 1, "B" := 1], 1)
    requires q == Write("q", map["B" := 1, "C" := 1], 2)
    requires r == Write("r", map["A" := 1, "C" := 1], 3)
    ensures Relate(p.vv, q.vv).Concurrent? && Relate(p.vv, r.vv).Concurrent? && Relate(q.vv, r.vv).Concurrent?
    ensures After(r.hlc, q.hlc) && After(q.hlc, p.hlc)
    ensures Fold([p, q, r]).value.winningOpId == q.id
    ensures Fold([r, p, q]).value.winningOpId == r.id
  {
    ConcurrentBy(p.vv, q.vv, "A", "C");
    ConcurrentBy(p.vv, r.vv, "B", "C");
    ConcurrentBy(r.vv, p.vv, "C", "B");
    ConcurrentBy(q.vv, r.vv, "B", "A");
    ThirdIsStale(p, q, r);
    ThirdIsStale(r, p, q);
  }

  /** Adding a later write that nobody covers: the four converge in every order, though r,
      which is covered, makes a part of them diverge. */
  lemma PartMayDiverge(p: Op, q: Op, r: Op, s: Op)
    requires p == Write("p", map["A" := 1, "B" := 1], 1)
    requires q == Write("q", map["B" := 1, "C" := 1], 2)
    requires r == Write("r", map["A" := 1, "C" := 1], 3)
    requires s == Write("s", map["D" := 1], 4)
    ensures SetConverges({p, q, r, s}) && !FoldsConverge({p, q, r, s})
  {
    hide SetConverges, FoldsConverge, Covered, DistinctPositive, IsLatest;
    var S := {p, q, r, s};
    InTurn(p, q, r, s);
    hide After, Positive;
    NewestUncovered(p, q, r, s);
    CoveredByTwo(r, p, q, S);
    SetConvergesIff(S, s);
    ConvergesIffUncovered(S);
  }

  lemma InTurn(p: Op, q: Op, r: Op, s: Op)
    requires Positive(p.vv) && Positive(q.vv) && Positive(r.vv) && Positive(s.vv)
    requires p.hlc.physical < q.hlc.physical < r.hlc.physical < s.hlc.physical
    ensures DistinctPositive({p, q, r, s}) && IsLatest(s, {p, q, r, s})
    ensures After(r.hlc, p.hlc) && After(r.hlc, q.hlc)
  {
  }

  lemma NewestUncovered(p: Op, q: Op, r: Op, s: Op)
    requires At(p.vv, "D") == At(q.vv, "D") == At(r.vv, "D") == 0 && s.vv == map["D" := 1]
    ensures !Covered(s, {p, q, r, s})
  {
    CompareTotal(s.hlc, s.hlc);
    assert s.vv["D"] == 1;
  }

  lemma CoveredByTwo(r: Op, p: Op, q: Op, S: set<Op>)
    requires p in S && q in S && After(r.hlc, p.hlc) && After(r.hlc, q.hlc)
    requires forall n :: n in r.vv ==> r.vv[n] <= At(p.vv, n) || r.vv[n] <= At(q.vv, n)
    ensures Covered(r, S)
  {
  }

  lemma OvertakenThenBeaten(a: Op, b: Op, c: Op)
    requires Relate(a.vv, b.vv).Ancestor? && Relate(b.vv, c.vv).Concurrent? && After(c.hlc, b.hlc)
    ensures Fold([a, b, c]).value.winningOpId == c.id
  {
    FoldThree(a, b, c);
  }

  lemma FirstBeatsBoth(a: Op, b: Op, c: Op)
    requires Relate(a.vv, b.vv).Concurrent? && Relate(Join(a.vv, b.vv), c.vv).Concurrent?
    requires !After(b.hlc, a.hlc) && !After(c.hlc, a.hlc)
    ensures Fold([a, b, c]).value.winningOpId == a.id
  {
    FoldThree(a, b, c);
  }

  /** A causally later write with a smaller timestamp, as a clock that never observes
      would issue, also breaks convergence. */
  lemma LateClockMayDiverge(a: Op, b: Op, c: Op)
    requires a == Write("A", map["A" := 1], 500)
    requires b == Write("B", map["A" := 1, "B" := 1], 100)
    requires c == Write("C", map["C" := 1], 300)
    ensures Leq(a.vv, b.vv) && After(a.hlc, b.hlc)
    ensures Fold([a, b, c]).value.winningOpId == c.id
    ensures Fold([a, c, b]).value.winningOpId == a.id
  {
    assert b.vv["B"] > At(a.vv, "B");
    ConcurrentBy(b.vv, c.vv, "B", "C");
    ConcurrentBy(a.vv, c.vv, "A", "C");
    JoinAt(a.vv, c.vv, "C");
    JoinAt(a.vv, c.vv, "B");
    ConcurrentBy(Join(a.vv, c.vv), b.vv, "C", "B");
    OvertakenThenBeaten(a, b, c);
    FirstBeatsBoth(a, c, b);
  }
}
