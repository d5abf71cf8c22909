/** Hybrid logical clocks (internal/hlc/hlc.go): the timestamp order and the clock rules.

    A Go string is a sequence of bytes; a `char` of the model stands for one byte.
    The logical counter is a Go uint32, so its increment wraps and is written out.
    The wall clock is an argument of each clock call. */
module Hlc {
  const MAX_LOGICAL := 0xFFFF_FFFF

  type int64 = x: int | -0x8000_0000_0000_0000 <= x <= 0x7FFF_FFFF_FFFF_FFFF
  type uint32 = x: int | 0 <= x <= MAX_LOGICAL

  datatype Timestamp = Timestamp(physical: int64, logical: uint32, nodeId: string)

  // ---------------------------------------------------------------- the total order

  /** strings.Compare: byte-lexicographic, a proper prefix first. */
  function LexCompare(a: string, b: string): int {
    if a == [] then
      if b == [] then 0 else -1
    else if b == [] then 1
    else if a[0] < b[0] then -1
    else if a[0] > b[0] then 1
    else LexCompare(a[1..], b[1..])
  }

  function Compare(t: Timestamp, other: Timestamp): int {
    if t.physical < other.physical then -1
    else if t.physical > other.physical then 1
    else if t.logical < other.logical then -1
    else if t.logical > other.logical then 1
    else LexCompare(t.nodeId, other.nodeId)
  }

  predicate After(t: Timestamp, other: Timestamp) {
    Compare(t, other) > 0
  }

  lemma {:induction false} LexAntisymmetric(a: string, b: string)
    ensures LexCompare(b, a) == -LexCompare(a, b)
    ensures LexCompare(a, b) == 0 <==> a == b
    ensures -1 <= LexCompare(a, b) <= 1
  {
    if a != [] && b != [] && a[0] == b[0] {
      LexAntisymmetric(a[1..], b[1..]);
      assert a == [a[0]] + a[1..] && b == [b[0]] + b[1..];
    }
  }

  /** Byte order: a proper prefix first, else the first place where they differ decides. */
  lemma {:induction false} LexIsByteOrder(a: string, b: string)
    ensures LexCompare(a, b) < 0 <==>
      a < b || exists i :: 0 <= i < |a| && i < |b| && a[..i] == b[..i] && a[i] < b[i]
  {
    if a != [] && b != [] {
      if a[0] == b[0] {
        LexIsByteOrder(a[1..], b[1..]);
        SameHead(a, b, a[1..], b[1..]);
      } else {
        DifferAtOnce(a, b);
      }
    }
  }

  lemma SameHead(a: string, b: string, x: string, y: string)
    requires a != [] && b != [] && a[0] == b[0] && x == a[1..] && y == b[1..]
    ensures x < y <==> a < b
    ensures (exists i :: 0 <= i < |x| && i < |y| && x[..i] == y[..i] && x[i] < y[i])
      <==> exists i :: 0 <= i < |a| && i < |b| && a[..i] == b[..i] && a[i] < b[i]
  {
    assert a == [a[0]] + x && b == [b[0]] + y;
    if i :| 0 <= i < |x| && i < |y| && x[..i] == y[..i] && x[i] < y[i] {
      assert a[..i + 1] == [a[0]] + x[..i] && b[..i + 1] == [b[0]] + y[..i];
      assert a[i + 1] < b[i + 1];
    }
    if i :| 0 <= i < |a| && i < |b| && a[..i] == b[..i] && a[i] < b[i] {
      assert x[..i - 1] == a[..i][1..] && y[..i - 1] == b[..i][1..];
      assert x[i - 1] < y[i - 1];
    }
  }

  lemma DifferAtOnce(a: string, b: string)
    requires a != [] && b != [] && a[0] != b[0]
    ensures !(a < b)
    ensures (exists i :: 0 <= i < |a| && i < |b| && a[..i] == b[..i] && a[i] < b[i]) <==> a[0] < b[0]
  {
    if a[0] < b[0] {
      assert a[..0] == b[..0];
    }
    forall i | 0 < i < |a| && i < |b| ensures a[..i] != b[..i] {
      assert a[..i][0] != b[..i][0];
    }
  }

  /** The order spelled out: physical part, then counter, then the bytes of the node id. */
  lemma CompareIsLexicographic(t: Timestamp, other: Timestamp)
    ensures Compare(t, other) < 0 <==>
      || t.physical < other.physical
      || (t.physical == other.physical && t.logical < other.logical)
      || (t.physical == other.physical && t.logical == other.logical
          && (t.nodeId < other.nodeId
              || exists i :: 0 <= i < |t.nodeId| && i < |other.nodeId|
                   && t.nodeId[..i] == other.nodeId[..i] && t.nodeId[i] < other.nodeId[i]))
    ensures After(other, t) <==> Compare(t, other) < 0
  {
    LexIsByteOrder(t.nodeId, other.nodeId);
    CompareTotal(t, other);
  }

  lemma {:induction false} LexTransitive(a: string, b: string, c: string)
    requires LexCompare(a, b) <= 0 && LexCompare(b, c) <= 0
    ensures LexCompare(a, c) <= 0
    ensures LexCompare(a, b) < 0 || LexCompare(b, c) < 0 ==> LexCompare(a, c) < 0
  {
    if a != [] && b != [] && c != [] && a[0] == b[0] && b[0] == c[0] {
      LexTransitive(a[1..], b[1..], c[1..]);
    }
  }

  /** `Compare` is antisymmetric, and 0 only on identical timestamps: After is trichotomous. */
  lemma CompareTotal(a: Timestamp, b: Timestamp)
    ensures Compare(b, a) == -Compare(a, b)
    ensures Compare(a, b) == 0 <==> a == b
    ensures -1 <= Compare(a, b) <= 1
    ensures After(a, b) || After(b, a) || a == b
    ensures !(After(a, b) && After(b, a))
  {
    LexAntisymmetric(a.nodeId, b.nodeId);
  }

  lemma AfterTransitive(a: Timestamp, b: Timestamp, c: Timestamp)
    requires After(a, b) && After(b, c)
    ensures After(a, c)
  {
    CompareTotal(a, b);
    CompareTotal(b, c);
    CompareTotal(a, c);
    LexAntisymmetric(a.nodeId, b.nodeId);
    LexAntisymmetric(b.nodeId, c.nodeId);
    LexAntisymmetric(a.nodeId, c.nodeId);
    if LexCompare(c.nodeId, b.nodeId) <= 0 && LexCompare(b.nodeId, a.nodeId) <= 0 {
      LexTransitive(c.nodeId, b.nodeId, a.nodeId);
    }
  }

  /** Not after, then strictly before: the mixed form used with a clock's `last`. */
  lemma NotAfterThenAfter(a: Timestamp, b: Timestamp, c: Timestamp)
    requires !After(a, b) && After(c, b)
    ensures After(c, a)
  {
    CompareTotal(a, b);
    CompareTotal(a, c);
    if a != b {
      AfterTransitive(c, b, a);
    }
  }

  /** The two total-order facts as quantified statements, for proofs over many timestamps. */
  lemma AfterIsStrictTotalOrder()
    ensures forall a, b :: After(a, b) || After(b, a) || a == b
    ensures forall a, b :: After(a, b) ==> !After(b, a) && a != b
    ensures forall a, b, c :: After(a, b) && After(b, c) ==> After(a, c)
  {
    forall a: Timestamp, b: Timestamp
      ensures After(a, b) || After(b, a) || a == b
      ensures After(a, b) ==> !After(b, a) && a != b
    {
      CompareTotal(a, b);
      CompareTotal(b, a);
    }
    forall a: Timestamp, b: Timestamp, c: Timestamp | After(a, b) && After(b, c)
      ensures After(a, c)
    {
      AfterTransitive(a, b, c);
    }
  }

  // ---------------------------------------------------------------- the clock rules

  function Succ(logical: uint32): uint32 {
    (logical + 1) % (MAX_LOGICAL + 1)
  }

  function MaxOf(a: int, b: int): int {
    if a >= b then a else b
  }

  /** What Clock.Now returns and leaves in `last`. */
  function Tick(last: Timestamp, nodeId: string, phys: int64): Timestamp {
    if phys <= last.physical then
      Timestamp(last.physical, Succ(last.logical), nodeId)
    else
      Timestamp(phys, 0, nodeId)
  }

  /** What Clock.Observe returns and leaves in `last`. */
  function Receive(last: Timestamp, remote: Timestamp, nodeId: string, phys: int64): Timestamp {
    var newPhys: int64 := MaxOf(phys, MaxOf(last.physical, remote.physical));
    var newLogical: uint32 :=
      if newPhys == last.physical && newPhys == remote.physical then Succ(MaxOf(last.logical, remote.logical))
      else if newPhys == last.physical then Succ(last.logical)
      else if newPhys == remote.physical then Succ(remote.logical)
      else 0;
    Timestamp(newPhys, newLogical, nodeId)
  }

  /** The counter a call would have to take past its uint32 maximum. */
  predicate TickWraps(last: Timestamp, phys: int64) {
    phys <= last.physical && last.logical == MAX_LOGICAL
  }

  predicate ReceiveWraps(last: Timestamp, remote: Timestamp, phys: int64) {
    var newPhys := MaxOf(phys, MaxOf(last.physical, remote.physical));
    || (newPhys == last.physical && last.logical == MAX_LOGICAL)
    || (newPhys == remote.physical && remote.logical == MAX_LOGICAL)
  }

  /** A local event is strictly later than everything before it exactly when the
      counter does not wrap. */
  lemma TickAdvancesIff(last: Timestamp, nodeId: string, phys: int64)
    ensures After(Tick(last, nodeId, phys), last) <==> !TickWraps(last, phys)
  {
  }

  /** Observing puts the clock strictly after both its own past and the observed
      timestamp exactly when neither counter it continues from wraps. */
  lemma ReceiveAdvancesIff(last: Timestamp, remote: Timestamp, nodeId: string, phys: int64)
    ensures var t := Receive(last, remote, nodeId, phys);
      After(t, last) && After(t, remote) <==> !ReceiveWraps(last, remote, phys)
  {
  }

  /** A call that wraps puts the clock back behind a timestamp it has given out or seen. */
  lemma WrapGoesBack(last: Timestamp, remote: Timestamp, nodeId: string, phys: int64)
    ensures TickWraps(last, phys) ==> After(last, Tick(last, nodeId, phys))
    ensures ReceiveWraps(last, remote, phys) ==>
      var t := Receive(last, remote, nodeId, phys);
      After(last, t) || After(remote, t)
  {
  }

  /** A clock whose counter is full and whose wall reading has not moved on. */
  lemma FullCounterGoesBack(last: Timestamp)
    requires last == Timestamp(100, MAX_LOGICAL, "n")
    ensures Tick(last, "n", 100) == Timestamp(100, 0, "n") && After(last, Tick(last, "n", 100))
  {
  }

  /** One call raises the counter by at most one above the counters it saw, and its
      physical part is one of the physical parts it saw. */
  lemma CallsAreBounded(last: Timestamp, remote: Timestamp, nodeId: string, phys: int64)
    ensures var t := Tick(last, nodeId, phys);
      t.logical <= last.logical + 1 && (t.physical == last.physical || t.physical == phys)
    ensures var t := Receive(last, remote, nodeId, phys);
      && t.logical <= MaxOf(last.logical, remote.logical) + 1
      && (t.physical == last.physical || t.physical == remote.physical || t.physical == phys)
  {
  }

  /** The source's mutable clock. */
  class Clock {
    var last: Timestamp
    const nodeId: string

    constructor (nodeId: string)
      ensures this.nodeId == nodeId && last == Timestamp(0, 0, "")
    {
      this.nodeId := nodeId;
      last := Timestamp(0, 0, "");
    }

    method Now(phys: int64) returns (t: Timestamp)
      modifies this
      ensures t == last == Tick(old(last), nodeId, phys)
      ensures t.nodeId == nodeId
      ensures t.physical >= phys && t.physical >= old(last).physical
      ensures t.physical == phys || t.physical == old(last).physical
      ensures phys > old(last).physical ==> t.logical == 0
      ensures phys <= old(last).physical ==> t.logical == (old(last).logical + 1) % 0x1_0000_0000
      ensures After(t, old(last)) <==> !TickWraps(old(last), phys)
    {
      if phys <= last.physical {
        last := last.(logical := Succ(last.logical));
      } else {
        last := last.(physical := phys);
        last := last.(logical := 0);
      }
      last := last.(nodeId := nodeId);
      return last;
    }

    method Observe(remote: Timestamp, phys: int64) returns (t: Timestamp)
      modifies this
      ensures t == last == Receive(old(last), remote, nodeId, phys)
      ensures t.nodeId == nodeId
      ensures t.physical >= phys && t.physical >= old(last).physical && t.physical >= remote.physical
      ensures t.physical == phys || t.physical == old(last).physical || t.physical == remote.physical
      ensures phys > old(last).physical && phys > remote.physical ==> t.logical == 0
      ensures t.physical == old(last).physical > remote.physical ==>
        t.logical == (old(last).logical + 1) % 0x1_0000_0000
      ensures t.physical == remote.physical > old(last).physical ==>
        t.logical == (remote.logical + 1) % 0x1_0000_0000
      ensures t.physical == old(last).physical == remote.physical && old(last).logical >= remote.logical ==>
        t.logical == (old(last).logical + 1) % 0x1_0000_0000
      ensures t.physical == old(last).physical == remote.physical && old(last).logical <= remote.logical ==>
        t.logical == (remote.logical + 1) % 0x1_0000_0000
      ensures After(t, old(last)) && After(t, remote) <==> !ReceiveWraps(old(last), remote, phys)
    {
      var l, lMsg := last.physical, remote.physical;
      var newPhys: int64 := MaxOf(phys, MaxOf(l, lMsg));
      var newLogical: uint32 := 0;
      if newPhys == l && newPhys == lMsg {
        newLogical := Succ(MaxOf(last.logical, remote.logical));
      } else if newPhys == l {
        newLogical := Succ(last.logical);
      } else if newPhys == lMsg {
        newLogical := Succ(remote.logical);
      }
      last := Timestamp(newPhys, newLogical, nodeId);
      return last;
    }
  }
}
