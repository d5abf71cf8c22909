/** What the protocol's op sets look like, and what that gives every replica.

    A `Past` maps each op ever written to the set of ops its device's log held when it was
    written.  `History` says that causality, vectors and timestamps agree; `CausalLog` says
    that a replica's log never holds an op before its past.  Both are invariants of the
    protocol (module Invariants); here are their consequences for one log. */
module Causality {
  import opened Wrappers
  import opened Vectors
  import opened Hlc
  import opened Oplog
  import opened Conflict
  import opened Store

  type Past = map<Op, set<Op>>

  function Elements(xs: seq<Op>): set<Op> {
    set p | p in xs
  }

  // ---------------------------------------------------------------- histories

  ghost predicate IdsIdentify(h: Past) {
    forall p, q :: p in h && q in h && p.id == q.id ==> p == q
  }

  /** Every op validates, carries its device's clock, and counts itself. */
  ghost predicate WellMade(h: Past) {
    forall p :: p in h ==>
      Validates(p) && Positive(p.vv) && p.hlc.nodeId == p.deviceId && At(p.vv, p.deviceId) >= 1
  }

  /** The past is transitive, earlier in time, and below in vector order. */
  ghost predicate PastIsEarlier(h: Past) {
    forall q, p :: q in h && p in h[q] ==>
      && p in h && p != q && h[p] <= h[q]
      && After(q.hlc, p.hlc)
      && (KeyOf(p) == KeyOf(q) ==> Leq(p.vv, q.vv))
  }

  /** A vector that counts p's write belongs to p or to a write that saw p. */
  ghost predicate VectorsWitness(h: Past) {
    forall p, q :: p in h && q in h && KeyOf(p) == KeyOf(q) && At(q.vv, p.deviceId) >= At(p.vv, p.deviceId)
      ==> p == q || p in h[q]
  }

  /** A device saw all its earlier writes. */
  ghost predicate OwnWritesOrdered(h: Past) {
    forall p, q :: p in h && q in h && p != q && p.deviceId == q.deviceId ==> p in h[q] || q in h[p]
  }

  ghost predicate History(h: Past) {
    IdsIdentify(h) && WellMade(h) && PastIsEarlier(h) && VectorsWitness(h) && OwnWritesOrdered(h)
  }

  /** Neither write saw the other. */
  ghost predicate ConcurrentIn(h: Past, p: Op, q: Op) {
    p in h && q in h && p != q && p !in h[q] && q !in h[p]
  }

  /** Version vectors characterise causality: on one record, "p was in the log when q was
      written", "q's vector counts p's write" and "p's vector is below q's" are the same. */
  lemma VectorsAreCausality(h: Past, p: Op, q: Op)
    requires History(h) && p in h && q in h && p != q && KeyOf(p) == KeyOf(q)
    ensures p in h[q] <==> At(q.vv, p.deviceId) >= At(p.vv, p.deviceId)
    ensures p in h[q] <==> Leq(p.vv, q.vv)
    ensures Relate(p.vv, q.vv) == if p in h[q] then Ancestor else if q in h[p] then Descendant else Concurrent
  {
    PastIsIrreflexive(h, p, q);
    PastIsIrreflexive(h, q, p);
    if Leq(p.vv, q.vv) { LeqAt(p.vv, q.vv, p.deviceId); }
    if Leq(q.vv, p.vv) { LeqAt(q.vv, p.vv, q.deviceId); }
    if p in h[q] { LeqAt(p.vv, q.vv, p.deviceId); }
    if q in h[p] { LeqAt(q.vv, p.vv, q.deviceId); }
  }

  lemma PastIsIrreflexive(h: Past, p: Op, q: Op)
    requires History(h) && p in h && q in h
    ensures p in h[q] ==> q !in h[p]
    ensures p !in h[p]
  {
    if p in h[q] && q in h[p] {
      CompareTotal(p.hlc, q.hlc);
    }
    if p in h[p] {
      CompareTotal(p.hlc, p.hlc);
    }
  }

  /** Timestamps are unique across the whole system. */
  lemma TimestampsAreUnique(h: Past, p: Op, q: Op)
    requires History(h) && p in h && q in h && p.hlc == q.hlc
    ensures p == q
  {
    if p != q {
      CompareTotal(p.hlc, q.hlc);
    }
  }

  /** Hence the ops of one record satisfy everything the fold theorem asks for. */
  lemma HistoriesHaveCausalClocks(h: Past, S: set<Op>, k: Key)
    requires History(h)
    requires forall p :: p in S ==> p in h && KeyOf(p) == k
    ensures DistinctPositive(S) && CausalClocks(S)
  {
    forall p, q | p in S && q in S && p.hlc == q.hlc ensures p == q {
      TimestampsAreUnique(h, p, q);
    }
    forall p, q | p in S && q in S && p != q
      ensures At(q.vv, p.deviceId) >= At(p.vv, p.deviceId) ==> Leq(p.vv, q.vv)
      ensures Leq(p.vv, q.vv) ==> After(q.hlc, p.hlc)
    {
      VectorsAreCausality(h, p, q);
    }
  }

  // ---------------------------------------------------------------- logs

  ghost predicate NoRepeats(xs: seq<Op>) {
    forall i, j :: 0 <= i < j < |xs| ==> xs[i] != xs[j]
  }

  /** A log of known ops without repetition in which every op comes after its past. */
  ghost predicate CausalLog(h: Past, xs: seq<Op>) {
    && NoRepeats(xs)
    && (forall p :: p in xs ==> p in h)
    && forall i, p :: 0 <= i < |xs| && p in h[xs[i]] ==> p in xs[..i]
  }

  lemma PastIsLogged(h: Past, xs: seq<Op>, q: Op, p: Op)
    requires CausalLog(h, xs) && q in xs && p in h[q]
    ensures p in xs
  {
    var i :| 0 <= i < |xs| && xs[i] == q;
    assert p in xs[..i];
  }

  lemma CausalLogAppend(h: Past, xs: seq<Op>, p: Op)
    requires CausalLog(h, xs) && p in h && p !in xs && h[p] <= Elements(xs)
    ensures CausalLog(h, xs + [p])
  {
    var ys := xs + [p];
    forall i, r | 0 <= i < |ys| && r in h[ys[i]] ensures r in ys[..i] {
      assert ys[..i] == xs[..i];
      if i == |xs| {
        assert r in Elements(xs);
      }
    }
  }

  /** Writing a new op leaves every other log causal. */
  lemma CausalLogExtendHistory(h: Past, xs: seq<Op>, q: Op, s: set<Op>)
    requires CausalLog(h, xs) && q !in h
    ensures CausalLog(h[q := s], xs)
  {
  }

  // ---------------------------------------------------------------- folding some ops of one record

  /** Ops of the history on one record, in any order and with any repetitions. */
  ghost predicate OpsOn(h: Past, cs: seq<Op>, k: Key) {
    forall p :: p in cs ==> p in h && KeyOf(p) == k
  }

  /** However many of a record's ops were folded, the result is the latest of them under
      their joint vector. */
  lemma AnyFold(h: Past, cs: seq<Op>, k: Key)
    requires History(h) && OpsOn(h, cs, k) && cs != []
    ensures Fold(cs) == Some(Materialize(cs)) && PositiveOps(cs)
  {
    hide History, Fold, Materialize;
    HistoriesHaveCausalClocks(h, Elements(cs), k);
    CausalHistoriesConverge(Elements(cs));
    assert Over(cs, Elements(cs));
  }

  /** A causal log's record is its latest op's contents under the joint vector. */
  lemma LogFold(h: Past, xs: seq<Op>, k: Key)
    requires History(h) && CausalLog(h, xs) && OnKey(xs, k) != []
    ensures Fold(OnKey(xs, k)) == Some(Materialize(OnKey(xs, k)))
    ensures PositiveOps(OnKey(xs, k))
  {
    hide History, Fold, OnKey, Materialize;
    OnKeyMembers(xs, k);
    AnyFold(h, OnKey(xs, k), k);
  }

  /** p is among the ops, or one of them saw it. */
  ghost predicate Seen(h: Past, cs: seq<Op>, p: Op) {
    exists r :: r in cs && r in h && (p == r || p in h[r])
  }

  /** The joint vector covers exactly the writes that were folded or seen by a folded one. */
  lemma CoveredIffSeen(h: Past, cs: seq<Op>, k: Key, p: Op)
    requires History(h) && OpsOn(h, cs, k) && p in h && KeyOf(p) == k
    ensures Leq(p.vv, JoinAll(cs)) <==> Seen(h, cs, p)
  {
    if Leq(p.vv, JoinAll(cs)) {
      LeqAt(p.vv, JoinAll(cs), p.deviceId);
      assert cs != [];
      var r := JoinAllAttained(cs, p.deviceId);
      assert r == p || p in h[r];
    }
    if r :| r in cs && r in h && (p == r || p in h[r]) {
      JoinAllAbove(cs, r);
      LeqTransitive(p.vv, r.vv, JoinAll(cs));
    }
  }

  /** If the joint vector of bs covers that of as, the latest op of bs is not earlier. */
  lemma DominanceMeansLater(h: Past, xs: seq<Op>, ys: seq<Op>, k: Key)
    requires History(h) && OpsOn(h, xs, k) && OpsOn(h, ys, k) && xs != [] && ys != []
    requires Leq(JoinAll(xs), JoinAll(ys))
    ensures !After(Latest(xs).hlc, Latest(ys).hlc)
  {
    hide History, Latest, JoinAll, Leq, After;
    var l := Latest(xs);
    LatestIsMaximum(xs);
    LatestIsMaximum(ys);
    JoinAllIsLeastUpperBound(xs, JoinAll(ys));
    CoveredIffSeen(h, ys, k, l);
    var r :| r in ys && r in h && (l == r || l in h[r]);
    SeenIsNotLater(h, l, r);
    LaterThanMember(l, r, Latest(ys));
  }

  lemma SeenIsNotLater(h: Past, p: Op, r: Op)
    requires History(h) && p in h && r in h && (p == r || p in h[r])
    ensures !After(p.hlc, r.hlc)
  {
    CompareTotal(p.hlc, r.hlc);
  }

  lemma LaterThanMember(l: Op, r: Op, m: Op)
    requires !After(l.hlc, r.hlc) && !After(r.hlc, m.hlc)
    ensures !After(l.hlc, m.hlc)
  {
    if After(l.hlc, m.hlc) {
      NotAfterThenAfter(r.hlc, m.hlc, l.hlc);
    }
  }

  /** When part of a record's ops give the record of all of them: exactly when their joint
      vector covers all of them. */
  lemma CoverMeansFold(h: Past, cs: seq<Op>, ys: seq<Op>, k: Key)
    requires History(h) && OpsOn(h, ys, k) && forall p :: p in cs ==> p in ys
    ensures Fold(cs) == Fold(ys) <==> forall p :: p in ys ==> cs != [] && Leq(p.vv, JoinAll(cs))
  {
    hide History;
    assert cs != [] ==> cs[0] in ys;
    if cs != [] {
      AnyFold(h, cs, k);
      AnyFold(h, ys, k);
      if forall p :: p in ys ==> Leq(p.vv, JoinAll(cs)) {
        SameMaterial(h, cs, ys, k);
      } else {
        var p :| p in ys && !Leq(p.vv, JoinAll(cs));
        JoinAllAbove(ys, p);
        assert JoinAll(cs) != JoinAll(ys);
      }
    } else if ys != [] {
      assert ys[0] in ys;
    }
  }

  lemma SameMaterial(h: Past, cs: seq<Op>, ys: seq<Op>, k: Key)
    requires History(h) && OpsOn(h, ys, k) && cs != [] && ys != [] && forall p :: p in cs ==> p in ys
    requires forall p :: p in ys ==> Leq(p.vv, JoinAll(cs))
    requires PositiveOps(cs) && PositiveOps(ys)
    ensures Materialize(cs) == Materialize(ys)
  {
    hide History;
    JoinAllPositive(cs);
    JoinAllPositive(ys);
    JoinAllIsLeastUpperBound(ys, JoinAll(cs));
    forall p | p in cs ensures Leq(p.vv, JoinAll(ys)) { JoinAllAbove(ys, p); }
    JoinAllIsLeastUpperBound(cs, JoinAll(ys));
    LeqAntisymmetric(JoinAll(cs), JoinAll(ys));
    DominanceMeansLater(h, ys, cs, k);
    LatestIsMaximum(cs);
    LatestIsMaximum(ys);
    CompareTotal(Latest(cs).hlc, Latest(ys).hlc);
    TimestampsAreUnique(h, Latest(cs), Latest(ys));
  }

  /** Folding q without p before it gives the same record if and only if q saw p. */
  lemma SkippingIsRightIff(h: Past, xs: seq<Op>, p: Op, q: Op)
    requires History(h) && CausalLog(h, xs) && p in h && q in h && p != q && KeyOf(p) == KeyOf(q)
    requires p !in xs && q !in xs
    ensures var ys := OnKey(xs, KeyOf(p));
      Some(Resolve(Fold(ys), q).rec) == Fold(ys + [p] + [q]) <==> p in h[q]
  {
    hide History, Fold, Resolve, OnKey;
    var k, ys := KeyOf(p), OnKey(xs, KeyOf(p));
    OnKeyMembers(xs, k);
    FoldAppend(ys, q);
    CoverMeansFold(h, ys + [q], ys + [p] + [q], k);
    CoveredIffSeen(h, ys + [q], k, p);
    forall r | r in ys + [q] ensures Leq(r.vv, JoinAll(ys + [q])) { JoinAllAbove(ys + [q], r); }
    forall r | r in ys ensures p !in h[r] {
      if p in h[r] { PastIsLogged(h, xs, r, p); }
    }
    assert q in ys + [q] && p in ys + [p] + [q];
  }

  lemma FoldNothing(xs: seq<Op>)
    requires xs == []
    ensures Fold(xs).None?
  {
  }

  lemma FoldAppend(xs: seq<Op>, op: Op)
    ensures Fold(xs + [op]) == Some(Resolve(Fold(xs), op).rec)
  {
    assert (xs + [op])[..|xs|] == xs;
  }

  lemma {:induction false} FoldKey(xs: seq<Op>, k: Key)
    requires forall p :: p in xs ==> KeyOf(p) == k
    ensures Fold(xs).Some? ==> KeyOfRecord(Fold(xs).value) == k
  {
    if xs != [] {
      Front(xs);
      var front, last := xs[..|xs| - 1], xs[|xs| - 1];
      assert last in xs && Fold(xs) == Some(Resolve(Fold(front), last).rec);
      FoldKey(front, k);
    }
  }

  /** The vector a replica with this log stores for record k, {} when it has none. */
  function VectorOn(xs: seq<Op>, k: Key): Vector {
    JoinAll(OnKey(xs, k))
  }

  /** A log knows an op exactly when its record vector counts it. */
  lemma VectorKnowsLog(h: Past, xs: seq<Op>, p: Op)
    requires History(h) && CausalLog(h, xs) && p in h
    ensures p in xs <==> At(VectorOn(xs, KeyOf(p)), p.deviceId) >= At(p.vv, p.deviceId)
    ensures p in xs <==> Leq(p.vv, VectorOn(xs, KeyOf(p)))
  {
    var k := KeyOf(p);
    var ys := OnKey(xs, k);
    OnKeyMembers(xs, k);
    if p in xs {
      JoinAllAbove(ys, p);
    }
    if Leq(p.vv, JoinAll(ys)) {
      LeqAt(p.vv, JoinAll(ys), p.deviceId);
    }
    if At(JoinAll(ys), p.deviceId) >= At(p.vv, p.deviceId) {
      assert ys != [];
      var r := JoinAllAttained(ys, p.deviceId);
      if p != r {
        PastIsLogged(h, xs, r, p);
      }
    }
  }

  // ---------------------------------------------------------------- one new op

  /** q is new to a log that holds all of q's past. */
  ghost predicate Deliverable(h: Past, xs: seq<Op>, q: Op) {
    q in h && q !in xs && h[q] <= Elements(xs)
  }

  /** What Resolve answers, in terms of the two vectors. */
  lemma ConflictedIff(existing: Option<Record>, q: Op)
    ensures Resolve(existing, q).conflicted
      <==> existing.Some? && !Leq(q.vv, existing.value.vv) && !Leq(existing.value.vv, q.vv)
    ensures existing.Some? && Leq(q.vv, existing.value.vv) ==> Resolve(existing, q).rec == existing.value
  {
  }

  /** What Resolve answers on a record folded from any of its ops: a new op is dropped as
      stale if and only if a folded op saw it, and otherwise flagged if and only if a folded
      op is causally concurrent with it. */
  lemma DetectionFor(h: Past, cs: seq<Op>, q: Op)
    requires History(h) && OpsOn(h, cs, KeyOf(q)) && q in h && q !in cs
    ensures var stale := exists r :: r in cs && q in h[r];
      && (Fold(cs).Some? && Leq(q.vv, Fold(cs).value.vv) <==> stale)
      && (Resolve(Fold(cs), q).conflicted <==> !stale && exists r :: r in cs && ConcurrentIn(h, r, q))
  {
    hide Resolve, Fold, Leq, JoinAll;
    ConflictedIff(Fold(cs), q);
    CoveredIffSeen(h, cs, KeyOf(q), q);
    if cs != [] {
      AnyFold(h, cs, KeyOf(q));
      BelowIffAllSeen(h, cs, q);
    } else {
      FoldNothing(cs);
    }
  }

  lemma BelowIffAllSeen(h: Past, cs: seq<Op>, q: Op)
    requires History(h) && OpsOn(h, cs, KeyOf(q)) && q in h && q !in cs
    ensures Leq(JoinAll(cs), q.vv) <==> forall r :: r in cs ==> r in h[q]
  {
    JoinAllIsLeastUpperBound(cs, q.vv);
    forall r | r in cs ensures Leq(r.vv, q.vv) <==> r in h[q] {
      VectorsAreCausality(h, r, q);
    }
  }

  /** Conflict detection is exact.  A new op whose past is logged is never taken for a
      stale one, and it is flagged exactly when some logged op on its record is causally
      concurrent with it. */
  lemma DetectionIsExact(h: Past, xs: seq<Op>, q: Op)
    requires History(h) && CausalLog(h, xs) && Deliverable(h, xs, q)
    ensures var existing := Fold(OnKey(xs, KeyOf(q)));
      existing.Some? ==> Relate(existing.value.vv, q.vv).Ancestor? || Relate(existing.value.vv, q.vv).Concurrent?
    ensures Resolve(Fold(OnKey(xs, KeyOf(q))), q).conflicted <==>
      exists p :: p in xs && KeyOf(p) == KeyOf(q) && ConcurrentIn(h, p, q)
  {
    hide History, Resolve, Fold, OnKey, ConcurrentIn;
    var ys := OnKey(xs, KeyOf(q));
    OnKeyMembers(xs, KeyOf(q));
    DetectionFor(h, ys, q);
    forall r | r in ys ensures q !in h[r] {
      if q in h[r] { PastIsLogged(h, xs, r, q); }
    }
  }

  /** The winner is the latest of the ops, the loser another one with a smaller timestamp. */
  ghost predicate NamesLatest(c: ConflictRow, ys: seq<Op>) {
    && ys != []
    && c.winningOpId == Latest(ys).id
    && exists l :: l in ys && l.id == c.losingOpId && After(Latest(ys).hlc, l.hlc)
  }

  /** What the audit row of a conflict says about the log it was found in. */
  ghost predicate RowIsRight(c: ConflictRow, xs: seq<Op>) {
    NamesLatest(c, OnKey(xs, Key(c.collection, c.recordId)))
  }

  /** The audit row of a decision about op. */
  function AuditRow(d: Decision, op: Op, serverSeq: nat): ConflictRow {
    ConflictRow(op.collection, op.recordId, d.winnerOpId, d.loserOpId, serverSeq)
  }

  lemma NamesOnFold(h: Past, cs: seq<Op>, q: Op, seqNo: nat)
    requires History(h) && OpsOn(h, cs, KeyOf(q)) && q in h && q !in cs
    requires Resolve(Fold(cs), q).conflicted
    ensures NamesLatest(AuditRow(Resolve(Fold(cs), q), q, seqNo), cs + [q])
    ensures q.id == Resolve(Fold(cs), q).winnerOpId || q.id == Resolve(Fold(cs), q).loserOpId
  {
    hide History, Fold;
    if cs == [] {
      FoldNothing(cs);
    }
    AnyFold(h, cs, KeyOf(q));
    LatestIsMaximum(cs);
    LatestOfTwo(h, cs, q);
    assert Latest(cs) in cs + [q] && q in cs + [q];
  }

  lemma ConflictNamesLatest(h: Past, xs: seq<Op>, q: Op, seqNo: nat)
    requires History(h) && CausalLog(h, xs) && Deliverable(h, xs, q)
    requires Resolve(Fold(OnKey(xs, KeyOf(q))), q).conflicted
    ensures var d := Resolve(Fold(OnKey(xs, KeyOf(q))), q);
      RowIsRight(AuditRow(d, q, seqNo), xs + [q]) && (q.id == d.winnerOpId || q.id == d.loserOpId)
  {
    hide History, Fold, OnKey, Resolve, NamesLatest;
    OnKeyMembers(xs, KeyOf(q));
    OnKeyAppend(xs, q, KeyOf(q));
    NamesOnFold(h, OnKey(xs, KeyOf(q)), q, seqNo);
  }

  lemma LatestOfTwo(h: Past, ys: seq<Op>, q: Op)
    requires History(h) && ys != [] && Latest(ys) in h && q in h && q != Latest(ys)
    ensures Latest(ys + [q]) == if After(q.hlc, Latest(ys).hlc) then q else Latest(ys)
    ensures !After(q.hlc, Latest(ys).hlc) ==> After(Latest(ys).hlc, q.hlc)
  {
    assert (ys + [q])[..|ys|] == ys;
    CompareTotal(q.hlc, Latest(ys).hlc);
    if q.hlc == Latest(ys).hlc { TimestampsAreUnique(h, q, Latest(ys)); }
  }

  // ---------------------------------------------------------------- what a record shows

  /** The value shown is never one that a logged write has overwritten. */
  lemma WinnerIsNotOverwritten(h: Past, xs: seq<Op>, k: Key, p: Op)
    requires History(h) && CausalLog(h, xs) && p in xs && KeyOf(p) == k
    ensures OnKey(xs, k) != [] && Latest(OnKey(xs, k)) !in h[p]
  {
    OnKeyMembers(xs, k);
    assert p in OnKey(xs, k);
    LatestIsMaximum(OnKey(xs, k));
    CompareTotal(p.hlc, Latest(OnKey(xs, k)).hlc);
  }

  /** A write that saw every other logged write on its record is what the record shows. */
  lemma DominantWriteWins(h: Past, xs: seq<Op>, z: Op)
    requires History(h) && CausalLog(h, xs) && z in xs
    requires forall p :: p in xs && KeyOf(p) == KeyOf(z) && p != z ==> p in h[z]
    ensures Fold(OnKey(xs, KeyOf(z))) == Some(FromOp(z).(vv := VectorOn(xs, KeyOf(z))))
    ensures VectorOn(xs, KeyOf(z)) == z.vv
  {
    var k := KeyOf(z);
    var ys := OnKey(xs, k);
    OnKeyMembers(xs, k);
    LogFold(h, xs, k);
    LatestIsMaximum(ys);
    CompareTotal(z.hlc, Latest(ys).hlc);
    assert Latest(ys) == z;
    JoinAllIsLeastUpperBound(ys, z.vv);
    JoinAllAbove(ys, z);
    JoinAllPositive(ys);
    LeqAntisymmetric(VectorOn(xs, k), z.vv);
  }

  /** As a log grows, its record's vector and timestamp never go back. */
  lemma RecordsOnlyAdvance(h: Past, xs: seq<Op>, ys: seq<Op>, k: Key)
    requires History(h) && CausalLog(h, xs) && CausalLog(h, ys) && OnKey(xs, k) != []
    requires forall p :: p in xs ==> p in ys
    ensures OnKey(ys, k) != []
    ensures var r, s := Fold(OnKey(xs, k)).value, Fold(OnKey(ys, k)).value;
      Leq(r.vv, s.vv) && !After(r.hlc, s.hlc)
  {
    var a, b := OnKey(xs, k), OnKey(ys, k);
    OnKeyMembers(xs, k);
    OnKeyMembers(ys, k);
    assert a[0] in b;
    LogFold(h, xs, k);
    LogFold(h, ys, k);
    LatestIsMaximum(a);
    LatestIsMaximum(b);
    forall p | p in a ensures Leq(p.vv, JoinAll(b)) { JoinAllAbove(b, p); }
    JoinAllIsLeastUpperBound(a, JoinAll(b));
  }

  lemma SameMembersSameFold(h: Past, a: seq<Op>, b: seq<Op>, k: Key)
    requires History(h) && forall p :: p in a ==> p in h && KeyOf(p) == k
    requires forall p :: p in a <==> p in b
    ensures Fold(a) == Fold(b)
  {
    hide History, Fold;
    assert b != [] ==> b[0] in a;
    if a != [] {
      assert a[0] in b;
      HistoriesHaveCausalClocks(h, Elements(a), k);
      SameOpsSameRecord(a, b, Elements(a));
    }
  }

  /** Two replicas that applied the same ops on a record hold the identical record. */
  lemma SameOpsOnRecord(h: Past, xs: seq<Op>, ys: seq<Op>, k: Key)
    requires History(h) && CausalLog(h, xs) && CausalLog(h, ys)
    requires forall p :: KeyOf(p) == k ==> (p in xs <==> p in ys)
    ensures Fold(OnKey(xs, k)) == Fold(OnKey(ys, k))
  {
    hide History, Fold, OnKey;
    OnKeyMembers(xs, k);
    OnKeyMembers(ys, k);
    SameMembersSameFold(h, OnKey(xs, k), OnKey(ys, k), k);
  }

  // ---------------------------------------------------------------- writing a new op

  /** No device's counter on any record runs ahead of that device's own record. */
  ghost predicate OwnCountIsKnown(h: Past, d: string, xs: seq<Op>) {
    forall p :: p in h ==> At(p.vv, d) <= At(VectorOn(xs, KeyOf(p)), d)
  }

  /** All of d's writes are in its log, each with the log before it as its past. */
  ghost predicate OwnLog(h: Past, d: string, xs: seq<Op>) {
    && (forall p :: p in h && p.deviceId == d ==> p in xs)
    && forall i :: 0 <= i < |xs| && xs[i].deviceId == d ==> xs[i] in h && h[xs[i]] == Elements(xs[..i])
  }

  /** The op a device writes on top of its log. */
  ghost predicate FreshWrite(h: Past, xs: seq<Op>, q: Op) {
    && (forall p :: p in h ==> p.id != q.id)
    && Validates(q)
    && q.hlc.nodeId == q.deviceId
    && q.vv == Bump(VectorOn(xs, KeyOf(q)), q.deviceId)
    && forall p :: p in xs ==> After(q.hlc, p.hlc)
  }

  /** Writing on top of the local record keeps causality, vectors and clocks in agreement. */
  lemma WriteKeepsHistory(h: Past, xs: seq<Op>, q: Op)
    requires History(h) && CausalLog(h, xs)
    requires OwnLog(h, q.deviceId, xs) && OwnCountIsKnown(h, q.deviceId, xs)
    requires FreshWrite(h, xs, q)
    ensures q !in h && History(h[q := Elements(xs)])
  {
    assert q !in h;
    WriteIsWellMade(h, xs, q);
    WriteKeepsPast(h, xs, q);
    WriteKeepsWitness(h, xs, q);
    WriteKeepsIds(h, xs, q);
    hide IdsIdentify, WellMade, PastIsEarlier, VectorsWitness, OwnWritesOrdered;
  }

  lemma WriteKeepsIds(h: Past, xs: seq<Op>, q: Op)
    requires IdsIdentify(h) && OwnWritesOrdered(h) && OwnLog(h, q.deviceId, xs)
    requires forall p :: p in h ==> p.id != q.id
    ensures IdsIdentify(h[q := Elements(xs)]) && OwnWritesOrdered(h[q := Elements(xs)])
  {
  }

  lemma WriteIsWellMade(h: Past, xs: seq<Op>, q: Op)
    requires History(h) && CausalLog(h, xs) && FreshWrite(h, xs, q)
    ensures WellMade(h[q := Elements(xs)])
  {
    var ys := OnKey(xs, KeyOf(q));
    OnKeyMembers(xs, KeyOf(q));
    JoinAllPositive(ys);
    BumpAdvances(JoinAll(ys), q.deviceId);
  }

  lemma LoggedIsBefore(h: Past, xs: seq<Op>, q: Op, p: Op)
    requires History(h) && CausalLog(h, xs) && FreshWrite(h, xs, q) && p in xs
    ensures h[p] <= Elements(xs)
    ensures KeyOf(p) == KeyOf(q) ==> Leq(p.vv, q.vv)
  {
    forall o | o in h[p] ensures o in xs { PastIsLogged(h, xs, p, o); }
    if KeyOf(p) == KeyOf(q) {
      OnKeyMembers(xs, KeyOf(q));
      JoinAllAbove(OnKey(xs, KeyOf(q)), p);
      BumpAdvances(VectorOn(xs, KeyOf(q)), q.deviceId);
      LeqTransitive(p.vv, VectorOn(xs, KeyOf(q)), q.vv);
    }
  }

  lemma WriteKeepsPast(h: Past, xs: seq<Op>, q: Op)
    requires History(h) && CausalLog(h, xs) && FreshWrite(h, xs, q) && q !in h
    ensures PastIsEarlier(h[q := Elements(xs)])
  {
    forall p | p in xs
      ensures h[p] <= Elements(xs) && (KeyOf(p) == KeyOf(q) ==> Leq(p.vv, q.vv))
    {
      LoggedIsBefore(h, xs, q, p);
    }
    ExtendPast(h, q, Elements(xs));
  }

  lemma ExtendPast(h: Past, q: Op, s: set<Op>)
    requires PastIsEarlier(h) && q !in h
    requires forall p :: p in s ==>
      p in h && h[p] <= s && After(q.hlc, p.hlc) && (KeyOf(p) == KeyOf(q) ==> Leq(p.vv, q.vv))
    ensures PastIsEarlier(h[q := s])
  {
    var h' := h[q := s];
    forall r, p | r in h' && p in h'[r]
      ensures p in h' && p != r && h'[p] <= h'[r] && After(r.hlc, p.hlc) && (KeyOf(p) == KeyOf(r) ==> Leq(p.vv, r.vv))
    {
      if r != q {
        assert p in h[r];
      }
    }
  }

  lemma WriteKeepsWitness(h: Past, xs: seq<Op>, q: Op)
    requires History(h) && CausalLog(h, xs) && FreshWrite(h, xs, q) && q !in h
    requires OwnLog(h, q.deviceId, xs) && OwnCountIsKnown(h, q.deviceId, xs)
    ensures VectorsWitness(h[q := Elements(xs)])
  {
    var h' := h[q := Elements(xs)];
    var d := q.deviceId;
    BumpAdvances(VectorOn(xs, KeyOf(q)), d);
    assert forall r :: r in h && KeyOf(r) == KeyOf(q) ==> At(r.vv, d) < At(q.vv, d);
    forall p | p in h && KeyOf(p) == KeyOf(q) && At(q.vv, p.deviceId) >= At(p.vv, p.deviceId)
      ensures p in xs
    {
      if p.deviceId != d {
        VectorKnowsLog(h, xs, p);
      }
    }
  }
}
