/** Version vectors (internal/vector/vector.go).

    The specification is the pointwise order on counters in which a missing node
    counts as 0.  The four methods are the source's loops; a Go map is ranged over
    in an unspecified order, so each loop picks an arbitrary remaining key. */
module Vectors {
  type Vector = map<string, nat>

  datatype Relation = Equal | Ancestor | Descendant | Concurrent

  /** The counter of `node`, 0 when the node is missing. */
  function At(v: Vector, node: string): nat {
    if node in v then v[node] else 0
  }

  /** Every write counted in `a` is counted in `b`. */
  predicate Leq(a: Vector, b: Vector) {
    forall n :: n in a ==> a[n] <= At(b, n)
  }

  /** No entry is stored with the value 0. */
  predicate Positive(v: Vector) {
    forall n :: n in v ==> v[n] > 0
  }

  function Max(a: nat, b: nat): nat {
    if a >= b then a else b
  }

  /** What `Compare` decides. */
  function Relate(v: Vector, other: Vector): Relation {
    if Leq(v, other) then
      if Leq(other, v) then Equal else Ancestor
    else
      if Leq(other, v) then Descendant else Concurrent
  }

  /** What `Increment` returns. */
  function Bump(v: Vector, node: string): Vector {
    v[node := At(v, node) + 1]
  }

  /** What `Merge` returns.  A zero entry of `b` that `a` lacks is not copied. */
  function Join(a: Vector, b: Vector): Vector {
    map n | n in a.Keys + b.Keys && (n in a || b[n] > 0) :: Max(At(a, n), At(b, n))
  }

  // ---------------------------------------------------------------- the source's loops

  method Clone(v: Vector) returns (out: Vector)
    ensures out == v
  {
    out := map[];
    var todo := v.Keys;
    while todo != {}
      invariant todo <= v.Keys
      invariant out == map n | n in v && n !in todo :: v[n]
    {
      var k :| k in todo;
      out := out[k := v[k]];
      todo := todo - {k};
    }
  }

  method Increment(v: Vector, node: string) returns (out: Vector)
    ensures node in out && out[node] == if node in v then v[node] + 1 else 1
    ensures forall n :: n != node ==> (n in out <==> n in v) && (n in v ==> out[n] == v[n])
    ensures out == Bump(v, node)
  {
    out := Clone(v);
    out := out[node := At(out, node) + 1];
  }

  method Compare(v: Vector, other: Vector) returns (r: Relation)
    ensures r.Equal? <==> forall n :: At(v, n) == At(other, n)
    ensures r.Equal? || r.Ancestor? <==> forall n :: At(v, n) <= At(other, n)
    ensures r.Equal? || r.Descendant? <==> forall n :: At(other, n) <= At(v, n)
    ensures r == Relate(v, other)
  {
    var vGreater, oGreater := false, false;
    var todo := v.Keys;
    while todo != {}
      invariant todo <= v.Keys
      invariant vGreater <==> exists n :: n in v && n !in todo && v[n] > At(other, n)
      invariant oGreater <==> exists n :: n in v && n !in todo && v[n] < At(other, n)
    {
      var node :| node in todo;
      if v[node] > At(other, node) {
        vGreater := true;
      } else if v[node] < At(other, node) {
        oGreater := true;
      }
      todo := todo - {node};
    }
    todo := other.Keys;
    while todo != {}
      invariant todo <= other.Keys
      invariant oGreater <==>
        (exists n :: n in v && v[n] < At(other, n)) ||
        (exists n :: n in other && n !in todo && n !in v && other[n] > 0)
    {
      var node :| node in todo;
      if node !in v && other[node] > 0 {
        oGreater := true;
      }
      todo := todo - {node};
    }
    assert vGreater <==> !Leq(v, other);
    assert oGreater <==> !Leq(other, v) by {
      if exists n :: n in v && v[n] < At(other, n) {
        var n :| n in v && v[n] < At(other, n);
        assert n in other;
      }
    }
    r := if !vGreater && !oGreater then Equal
         else if vGreater && !oGreater then Descendant
         else if !vGreater && oGreater then Ancestor
         else Concurrent;
    EqualMeansSameCounters(v, other);
    LeqMeansNoGreater(v, other);
    LeqMeansNoGreater(other, v);
  }

  method Merge(a: Vector, b: Vector) returns (out: Vector)
    ensures forall n :: n in out ==> (n in a && out[n] == a[n]) || (n in b && out[n] == b[n])
    ensures forall n :: n in a ==> n in out && out[n] >= a[n]
    ensures forall n :: n in b && b[n] > 0 ==> n in out && out[n] >= b[n]
    ensures out == Join(a, b)
  {
    out := Clone(a);
    var todo := b.Keys;
    while todo != {}
      invariant todo <= b.Keys
      invariant forall n :: n in out <==> n in a || (n in b && n !in todo && b[n] > 0)
      invariant forall n :: n in out ==>
        out[n] == if n in todo then At(a, n) else Max(At(a, n), At(b, n))
    {
      var node :| node in todo;
      if b[node] > At(out, node) {
        out := out[node := b[node]];
      }
      todo := todo - {node};
    }
  }

  // ---------------------------------------------------------------- the order and its lattice

  lemma JoinAt(a: Vector, b: Vector, n: string)
    ensures At(Join(a, b), n) == Max(At(a, n), At(b, n))
  {
  }

  lemma LeqAt(a: Vector, b: Vector, n: string)
    requires Leq(a, b)
    ensures At(a, n) <= At(b, n)
  {
  }

  lemma LeqMeansNoGreater(a: Vector, b: Vector)
    ensures Leq(a, b) <==> forall n :: At(a, n) <= At(b, n)
  {
    if Leq(a, b) {
      forall n ensures At(a, n) <= At(b, n) { LeqAt(a, b, n); }
    }
    if forall n :: At(a, n) <= At(b, n) {
      forall n | n in a ensures a[n] <= At(b, n) {
        assert At(a, n) <= At(b, n);
      }
    }
  }

  lemma LeqTransitive(a: Vector, b: Vector, c: Vector)
    requires Leq(a, b) && Leq(b, c)
    ensures Leq(a, c)
  {
    forall n | n in a ensures a[n] <= At(c, n) {
      LeqAt(b, c, n);
    }
  }

  lemma EqualMeansSameCounters(a: Vector, b: Vector)
    ensures Leq(a, b) && Leq(b, a) <==> forall n :: At(a, n) == At(b, n)
  {
    if Leq(a, b) && Leq(b, a) {
      forall n ensures At(a, n) == At(b, n) {
        LeqAt(a, b, n);
        LeqAt(b, a, n);
      }
    }
  }

  /** With no zero entries, a vector is determined by its counters. */
  lemma Canonical(a: Vector, b: Vector)
    requires Positive(a) && Positive(b)
    requires forall n :: At(a, n) == At(b, n)
    ensures a == b
  {
    forall n ensures n in a <==> n in b {
      assert At(a, n) == At(b, n);
    }
    forall n | n in a ensures a[n] == b[n] {
      assert At(a, n) == At(b, n);
    }
  }

  /** Two positive vectors that are below each other are the same map. */
  lemma LeqAntisymmetric(a: Vector, b: Vector)
    requires Positive(a) && Positive(b) && Leq(a, b) && Leq(b, a)
    ensures a == b
  {
    EqualMeansSameCounters(a, b);
    Canonical(a, b);
  }

  /** `Join` is the least upper bound of its arguments. */
  lemma JoinIsLeastUpperBound(a: Vector, b: Vector, c: Vector)
    ensures Leq(a, Join(a, b)) && Leq(b, Join(a, b))
    ensures Leq(Join(a, b), c) <==> Leq(a, c) && Leq(b, c)
  {
    if Leq(Join(a, b), c) {
      forall n | n in a ensures a[n] <= At(c, n) { LeqAt(Join(a, b), c, n); }
      forall n | n in b ensures b[n] <= At(c, n) { LeqAt(Join(a, b), c, n); }
    }
    if Leq(a, c) && Leq(b, c) {
      forall n | n in Join(a, b) ensures Join(a, b)[n] <= At(c, n) {
        LeqAt(a, c, n);
        LeqAt(b, c, n);
        assert Join(a, b)[n] == At(Join(a, b), n);
      }
    }
  }

  lemma JoinPositive(a: Vector, b: Vector)
    requires Positive(a) && Positive(b)
    ensures Positive(Join(a, b))
  {
  }

  /** Idempotent; and commutative, as counters for all vectors and as maps for vectors
      without zero entries. */
  lemma JoinIsCommutative(a: Vector, b: Vector)
    ensures Join(a, a) == a
    ensures forall n :: At(Join(a, b), n) == At(Join(b, a), n)
    ensures Positive(a) && Positive(b) ==> Join(a, b) == Join(b, a)
  {
    if Positive(a) && Positive(b) {
      Canonical(Join(a, b), Join(b, a));
    }
  }

  lemma JoinIsAssociativeAt(a: Vector, b: Vector, c: Vector, n: string)
    ensures At(Join(Join(a, b), c), n) == At(Join(a, Join(b, c)), n)
  {
    var ab, bc := Join(a, b), Join(b, c);
    JoinAt(a, b, n);
    JoinAt(ab, c, n);
    JoinAt(b, c, n);
    JoinAt(a, bc, n);
  }

  lemma JoinIsAssociative(a: Vector, b: Vector, c: Vector)
    ensures forall n :: At(Join(Join(a, b), c), n) == At(Join(a, Join(b, c)), n)
    ensures Positive(a) && Positive(b) && Positive(c) ==> Join(Join(a, b), c) == Join(a, Join(b, c))
  {
    var l, r := Join(Join(a, b), c), Join(a, Join(b, c));
    forall n ensures At(l, n) == At(r, n) {
      JoinIsAssociativeAt(a, b, c, n);
    }
    if Positive(a) && Positive(b) && Positive(c) {
      JoinPositive(a, b);
      JoinPositive(b, c);
      JoinPositive(Join(a, b), c);
      JoinPositive(a, Join(b, c));
      Canonical(l, r);
    }
  }

  function Dual(r: Relation): Relation {
    match r
    case Ancestor => Descendant
    case Descendant => Ancestor
    case _ => r
  }

  /** Swapping the arguments of Compare swaps Ancestor with Descendant; a vector below
      a merge is never after it; and the relation composes along the order. */
  lemma RelateIsDual(a: Vector, b: Vector)
    ensures Relate(b, a) == Dual(Relate(a, b))
    ensures Relate(a, Join(a, b)).Equal? || Relate(a, Join(a, b)).Ancestor?
    ensures Relate(a, b).Ancestor? ==> exists n :: At(a, n) < At(b, n)
  {
    JoinIsLeastUpperBound(a, b, a);
    if Relate(a, b).Ancestor? {
      var n :| n in b && !(b[n] <= At(a, n));
      assert At(a, n) < At(b, n);
    }
  }

  /** A local write's vector strictly advances past the one it was computed from. */
  lemma BumpAdvances(v: Vector, node: string)
    ensures Relate(v, Bump(v, node)).Ancestor?
    ensures forall n :: At(Bump(v, node), n) == At(v, n) + if n == node then 1 else 0
    ensures Positive(v) ==> Positive(Bump(v, node))
  {
    assert Bump(v, node)[node] > At(v, node);
  }
}
