/** The sortable string form of a timestamp (internal/hlc/hlc.go:51-55): when the byte order
    of the strings is the order of the timestamps. */
module HlcString {
  import opened Hlc

  const TEN_18 := 1_000_000_000_000_000_000

  function Pow10(w: nat): nat {
    if w == 0 then 1 else 10 * Pow10(w - 1)
  }

  function Digit(n: nat): char
    requires n < 10
  {
    ['0', '1', '2', '3', '4', '5', '6', '7', '8', '9'][n]
  }

  /** The decimal digits of n, zero-padded to w of them. */
  function Digits(n: nat, w: nat): string
    requires n < Pow10(w)
  {
    if w == 0 then "" else Digits(n / 10, w - 1) + [Digit(n % 10)]
  }

  /** The magnitude of p, which for the least int64 is no int64. */
  function Abs(p: int64): nat {
    var n: int := p;
    if n < 0 then -n else n
  }

  /** %019d: the sign takes one of the 19 columns, and a 19-digit magnitude overflows them. */
  function Physical19(p: int64): string {
    Pow10Values();
    if p >= 0 then Digits(p, 19)
    else if Abs(p) < TEN_18 then "-" + Digits(Abs(p), 18)
    else "-" + Digits(Abs(p), 19)
  }

  function String(t: Timestamp): string {
    Pow10Values();
    Physical19(t.physical) + ("-" + (Digits(t.logical, 10) + ("-" + t.nodeId)))
  }

  lemma Pow10Values()
    ensures Pow10(10) == 10_000_000_000
    ensures Pow10(18) == TEN_18
    ensures Pow10(19) == 10 * TEN_18
  {
    assert Pow10(5) == 100_000 by { assert Pow10(3) == 1000; }
    assert Pow10(8) == 100_000_000 by { assert Pow10(6) == 1_000_000; }
    assert Pow10(11) == 100_000_000_000 by { assert Pow10(9) == 1_000_000_000; assert Pow10(10) == 10_000_000_000; }
    assert Pow10(14) == 100_000_000_000_000 by { assert Pow10(12) == 1_000_000_000_000; }
    assert Pow10(17) == 100_000_000_000_000_000 by { assert Pow10(15) == 1_000_000_000_000_000; }
  }

  function Sign(n: int): int {
    if n < 0 then -1 else if n > 0 then 1 else 0
  }

  // ---------------------------------------------------------------- lexicographic order

  /** Strings whose heads have one length compare by heads first. */
  lemma {:induction false} LexConcat(x: string, y: string, u: string, v: string)
    requires |x| == |y|
    ensures LexCompare(x + u, y + v) == if LexCompare(x, y) != 0 then LexCompare(x, y) else LexCompare(u, v)
  {
    if x == [] {
      assert x + u == u && y + v == v;
    } else {
      assert (x + u)[1..] == x[1..] + u && (y + v)[1..] == y[1..] + v;
      LexConcat(x[1..], y[1..], u, v);
    }
  }

  lemma LexSame(x: string, u: string, v: string)
    ensures LexCompare(x + u, x + v) == LexCompare(u, v)
  {
    LexConcat(x, x, u, v);
    LexAntisymmetric(x, x);
  }

  /** Zero-padded decimals of one width sort like their numbers. */
  lemma {:induction false} DigitsSort(a: nat, b: nat, w: nat)
    requires a < Pow10(w) && b < Pow10(w)
    ensures |Digits(a, w)| == |Digits(b, w)| == w
    ensures LexCompare(Digits(a, w), Digits(b, w)) == Sign(a - b)
  {
    if w > 0 {
      DigitsSort(a / 10, b / 10, w - 1);
      LexConcat(Digits(a / 10, w - 1), Digits(b / 10, w - 1), [Digit(a % 10)], [Digit(b % 10)]);
      DigitSort(a % 10, b % 10);
    }
  }

  lemma DigitSort(a: nat, b: nat)
    requires a < 10 && b < 10
    ensures LexCompare([Digit(a)], [Digit(b)]) == Sign(a - b)
  {
    assert Digit(a) < Digit(b) <==> a < b;
    assert [Digit(a)][1..] == [] && [Digit(b)][1..] == [];
  }

  lemma {:induction false} FirstDigit(n: nat, w: nat)
    requires n < Pow10(w) && w > 0
    ensures |Digits(n, w)| == w && '0' <= Digits(n, w)[0] <= '9'
  {
    if w > 1 {
      FirstDigit(n / 10, w - 1);
    }
  }

  // ---------------------------------------------------------------- the physical column

  /** When two physical parts sort right.  Between two negative ones the order is reversed,
      except by accident where only one of them overflows its column. */
  predicate SortsRight(p: int64, q: int64) {
    || p == q || p >= 0 || q >= 0
    || (p < 0 && q < 0 && Abs(p) < TEN_18 <= Abs(q) && Abs(p) > Abs(q) / 10)
    || (p < 0 && q < 0 && Abs(q) < TEN_18 <= Abs(p) && Abs(q) > Abs(p) / 10)
  }

  lemma BothNonNegative(p: int64, q: int64, u: string, v: string)
    requires p >= 0 && q >= 0 && p != q
    ensures LexCompare(Physical19(p) + u, Physical19(q) + v) == Sign(p - q)
  {
    Pow10Values();
    DigitsSort(p, q, 19);
    LexConcat(Physical19(p), Physical19(q), u, v);
  }

  lemma MixedSigns(p: int64, q: int64, u: string, v: string)
    requires p < 0 <= q
    ensures LexCompare(Physical19(p) + u, Physical19(q) + v) == -1
    ensures LexCompare(Physical19(q) + v, Physical19(p) + u) == 1
  {
    Pow10Values();
    FirstDigit(q, 19);
    assert (Physical19(p) + u)[0] == '-';
    assert (Physical19(q) + v)[0] == Digits(q, 19)[0];
  }

  lemma NegativeForm(p: int64, w: nat)
    requires p < 0 && w == if Abs(p) < TEN_18 then 18 else 19
    ensures Abs(p) < Pow10(w) && Physical19(p) == "-" + Digits(Abs(p), w)
  {
    Pow10Values();
  }

  lemma SameWidth(p: int64, q: int64, u: string, v: string)
    requires p < 0 && q < 0 && p != q && (Abs(p) < TEN_18 <==> Abs(q) < TEN_18)
    ensures LexCompare(Physical19(p) + u, Physical19(q) + v) == -Sign(p - q)
  {
    var w: nat := if Abs(p) < TEN_18 then 18 else 19;
    NegativeForm(p, w);
    NegativeForm(q, w);
    hide Physical19, Pow10;
    DigitsSort(Abs(p), Abs(q), w);
    LexSame("-", Digits(Abs(p), w), Digits(Abs(q), w));
    LexConcat(Physical19(p), Physical19(q), u, v);
  }

  lemma OverflowForms(p: int64, q: int64)
    requires p < 0 && q < 0 && Abs(p) < TEN_18 <= Abs(q)
    ensures Abs(p) < Pow10(18) && Abs(q) / 10 < Pow10(18)
    ensures Physical19(p) == "-" + Digits(Abs(p), 18)
    ensures Physical19(q) == "-" + (Digits(Abs(q) / 10, 18) + [Digit(Abs(q) % 10)])
  {
    Pow10Values();
  }

  /** A column followed by a dash against a column with one digit more. */
  lemma OneDigitMore(a: string, b: string, c: char, u: string, v: string)
    requires |a| == |b| && '-' < c
    ensures LexCompare(("-" + a) + ("-" + u), ("-" + (b + [c])) + v)
      == if LexCompare(a, b) != 0 then LexCompare(a, b) else -1
  {
    assert ("-" + (b + [c])) + v == ("-" + b) + ([c] + v);
    LexConcat("-" + a, "-" + b, "-" + u, [c] + v);
    LexSame("-", a, b);
    assert ("-" + u)[0] == '-' && ([c] + v)[0] == c;
  }

  /** p keeps its column, q overflows it by one digit. */
  lemma Overflow(p: int64, q: int64, u: string, v: string)
    requires p < 0 && q < 0 && Abs(p) < TEN_18 <= Abs(q)
    ensures LexCompare(Physical19(p) + ("-" + u), Physical19(q) + v) == if Abs(p) > Abs(q) / 10 then 1 else -1
    ensures LexCompare(Physical19(q) + v, Physical19(p) + ("-" + u)) == if Abs(p) > Abs(q) / 10 then -1 else 1
  {
    OverflowForms(p, q);
    var m, n := Abs(p), Abs(q) / 10;
    hide *;
    DigitsSort(m, n, 18);
    DigitsAboveDash(Abs(q) % 10);
    OneDigitMore(Digits(m, 18), Digits(n, 18), Digit(Abs(q) % 10), u, v);
    LexAntisymmetric(Physical19(p) + ("-" + u), Physical19(q) + v);
    SignOf(m, n);
  }

  lemma DigitsAboveDash(n: nat)
    requires n < 10
    ensures '-' < Digit(n)
  {
  }

  lemma SignOf(a: int, b: int)
    ensures Sign(a - b) == if a > b then 1 else if a == b then 0 else -1
  {
  }

  // ---------------------------------------------------------------- reading it back

  /** The number a string of decimal digits stands for. */
  function Value(s: string): int {
    if s == "" then 0 else 10 * Value(s[..|s| - 1]) + (s[|s| - 1] as int - '0' as int)
  }

  lemma DigitReads(n: nat)
    requires n < 10
    ensures Digit(n) as int == '0' as int + n && '0' <= Digit(n) <= '9'
  {
  }

  lemma ValueNext(s: string, c: char)
    ensures Value(s + [c]) == 10 * Value(s) + (c as int - '0' as int)
  {
    assert (s + [c])[..|s|] == s;
  }

  lemma {:induction false} DigitsRead(n: nat, w: nat)
    requires n < Pow10(w)
    ensures |Digits(n, w)| == w && Value(Digits(n, w)) == n
    ensures forall c :: c in Digits(n, w) ==> '0' <= c <= '9'
  {
    if w > 0 {
      DigitsRead(n / 10, w - 1);
      DigitReads(n % 10);
      ValueNext(Digits(n / 10, w - 1), Digit(n % 10));
    }
  }

  /** From 1970 on: 19 digits of the physical part, a dash, 10 digits of the counter, a dash,
      and the node id. */
  lemma StringReads(t: Timestamp)
    requires t.physical >= 0
    ensures |String(t)| == 31 + |t.nodeId|
    ensures Value(String(t)[..19]) == t.physical && String(t)[19] == '-'
    ensures Value(String(t)[20..30]) == t.logical && String(t)[30] == '-'
    ensures String(t)[31..] == t.nodeId
    ensures forall i :: 0 <= i < 30 && i != 19 ==> '0' <= String(t)[i] <= '9'
  {
    Pow10Values();
    var x, y := Digits(t.physical, 19), Digits(t.logical, 10);
    DigitsRead(t.physical, 19);
    DigitsRead(t.logical, 10);
    var s := String(t);
    assert s == x + ("-" + (y + ("-" + t.nodeId)));
    hide String, Digits, Pow10, Value, Physical19;
    Splice(x, y, t.nodeId, s);
    assert forall i :: 0 <= i < 19 ==> s[i] == x[i] && x[i] in x;
    assert forall i :: 20 <= i < 30 ==> s[i] == y[i - 20] && y[i - 20] in y;
  }

  lemma Splice(x: string, y: string, z: string, s: string)
    requires |x| == 19 && |y| == 10 && s == x + ("-" + (y + ("-" + z)))
    ensures |s| == 31 + |z| && s[..19] == x && s[19] == '-' && s[20..30] == y && s[30] == '-' && s[31..] == z
    ensures forall i :: 0 <= i < 19 ==> s[i] == x[i]
    ensures forall i :: 20 <= i < 30 ==> s[i] == y[i - 20]
  {
  }

  /** Whatever the physical part: its column, a dash, the counter y in 10 digits, a dash, and
      the node id. */
  lemma StringParts(t: Timestamp) returns (y: string)
    ensures String(t) == Physical19(t.physical) + ("-" + (y + ("-" + t.nodeId)))
    ensures |y| == 10 && Value(y) == t.logical && forall c :: c in y ==> '0' <= c <= '9'
  {
    Pow10Values();
    y := Digits(t.logical, 10);
    DigitsRead(t.logical, 10);
  }

  /** Before 1970 the column is a dash and the magnitude x, in 18 digits or, where that is too
      few, in 19. */
  lemma NegativeReads(p: int64) returns (x: string)
    requires p < 0
    ensures Physical19(p) == "-" + x && Value(x) + p == 0
    ensures |x| == if p > -TEN_18 then 18 else 19
    ensures forall c :: c in x ==> '0' <= c <= '9'
  {
    Pow10Values();
    var w: nat := if Abs(p) < TEN_18 then 18 else 19;
    NegativeForm(p, w);
    x := Digits(Abs(p), w);
    DigitsRead(Abs(p), w);
    hide Digits, Pow10, Value;
  }

  // ---------------------------------------------------------------- the theorem

  lemma SamePhysical(a: Timestamp, b: Timestamp)
    requires a.physical == b.physical
    ensures LexCompare(String(a), String(b)) == Compare(a, b)
  {
    Pow10Values();
    var la, lb := Digits(a.logical, 10), Digits(b.logical, 10);
    LexSame(Physical19(a.physical), "-" + (la + ("-" + a.nodeId)), "-" + (lb + ("-" + b.nodeId)));
    LexSame("-", la + ("-" + a.nodeId), lb + ("-" + b.nodeId));
    DigitsSort(a.logical, b.logical, 10);
    LexConcat(la, lb, "-" + a.nodeId, "-" + b.nodeId);
    LexSame("-", a.nodeId, b.nodeId);
  }

  /** The string order is the timestamp order exactly on the pairs that SortsRight admits,
      for all int64 physical parts, uint32 counters and node ids. */
  lemma StringSortsIff(a: Timestamp, b: Timestamp)
    ensures LexCompare(String(a), String(b)) == Compare(a, b) <==> SortsRight(a.physical, b.physical)
  {
    Pow10Values();
    var p, q := a.physical, b.physical;
    var u, v := Digits(a.logical, 10) + ("-" + a.nodeId), Digits(b.logical, 10) + ("-" + b.nodeId);
    assert String(a) == Physical19(p) + ("-" + u) && String(b) == Physical19(q) + ("-" + v);
    hide String, Physical19;
    if p == q {
      SamePhysical(a, b);
    } else if p >= 0 && q >= 0 {
      BothNonNegative(p, q, "-" + u, "-" + v);
    } else if p < 0 <= q {
      MixedSigns(p, q, "-" + u, "-" + v);
    } else if q < 0 <= p {
      MixedSigns(q, p, "-" + v, "-" + u);
    } else if Abs(p) < TEN_18 <= Abs(q) {
      Overflow(p, q, u, "-" + v);
    } else if Abs(q) < TEN_18 <= Abs(p) {
      Overflow(q, p, v, "-" + u);
    } else {
      SameWidth(p, q, "-" + u, "-" + v);
    }
  }

  /** Two times before 1970, one nanosecond apart, sort the wrong way round. */
  lemma NegativeTimesSortBackwards(a: Timestamp, b: Timestamp)
    requires a == Timestamp(-2, 0, "n") && b == Timestamp(-1, 0, "n")
    ensures After(b, a) && LexCompare(String(a), String(b)) == 1
  {
    Pow10Values();
    var u, v := Digits(a.logical, 10) + ("-" + a.nodeId), Digits(b.logical, 10) + ("-" + b.nodeId);
    assert String(a) == Physical19(a.physical) + ("-" + u) && String(b) == Physical19(b.physical) + ("-" + v);
    hide String, Physical19, Pow10, Digits;
    SameWidth(a.physical, b.physical, "-" + u, "-" + v);
  }

  /** Timestamps taken since 1970 sort as strings. */
  lemma StringIsOrderIsomorphism(a: Timestamp, b: Timestamp)
    requires a.physical >= 0 && b.physical >= 0
    ensures LexCompare(String(a), String(b)) == Compare(a, b)
    ensures LexCompare(String(a), String(b)) > 0 <==> After(a, b)
  {
    StringSortsIff(a, b);
  }

  /** Different timestamps, negative ones included, have different strings. */
  lemma StringIsInjective(a: Timestamp, b: Timestamp)
    requires String(a) == String(b)
    ensures a == b
  {
    Pow10Values();
    var p, q := a.physical, b.physical;
    var u, v := Digits(a.logical, 10) + ("-" + a.nodeId), Digits(b.logical, 10) + ("-" + b.nodeId);
    assert String(a) == Physical19(p) + ("-" + u) && String(b) == Physical19(q) + ("-" + v);
    LexAntisymmetric(String(a), String(b));
    CompareTotal(a, b);
    hide String, Physical19, Compare;
    if p == q {
      SamePhysical(a, b);
    } else if p >= 0 && q >= 0 {
      BothNonNegative(p, q, "-" + u, "-" + v);
    } else if p < 0 <= q {
      MixedSigns(p, q, "-" + u, "-" + v);
    } else if q < 0 <= p {
      MixedSigns(q, p, "-" + v, "-" + u);
    } else if Abs(p) < TEN_18 <= Abs(q) {
      Overflow(p, q, u, "-" + v);
    } else if Abs(q) < TEN_18 <= Abs(p) {
      Overflow(q, p, v, "-" + u);
    } else {
      SameWidth(p, q, "-" + u, "-" + v);
    }
  }
}
