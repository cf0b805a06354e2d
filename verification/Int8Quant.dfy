/**
 Per-token integer quantization of one row, in exact arithmetic: a scale from the row's extremes, rounding half to even, and
 clamping into the integer range.
 */
module Int8Quant {
  import opened Basics

  /** Nearest integer, a tie going to the even one. */
  function Round(y: real): int {
    var f := y.Floor;
    var d := y - f as real;
    if d < 0.5 || (d == 0.5 && f % 2 == 0) then f else f + 1
  }

  function Min(a: real, b: real): real { if a <= b then a else b }

  function Max(a: real, b: real): real { if a >= b then a else b }

  function Abs(a: real): real { if a >= 0.0 then a else -a }

  /** How many steps of size s make up a. */
  function Over(a: real, s: real): real
    requires s > 0.0
  {
    a / s
  }

  /** n steps of size s reach as far as a. */
  predicate Covers(n: int, s: real, a: real) {
    a <= n as real * s
  }

  /** The smallest scale, so that a row without spread can be divided by it. */
  const SMALLEST := 0.00001

  function MinOf(row: seq<real>): (m: real)
    requires |row| > 0
    ensures m in row && forall i :: 0 <= i < |row| ==> m <= row[i]
  {
    if |row| == 1 then row[0] else Min(MinOf(row[..|row| - 1]), row[|row| - 1])
  }

  function MaxOf(row: seq<real>): (m: real)
    requires |row| > 0
    ensures m in row && forall i :: 0 <= i < |row| ==> row[i] <= m
  {
    if |row| == 1 then row[0] else Max(MaxOf(row[..|row| - 1]), row[|row| - 1])
  }

  function QMin(sym: bool, bits: nat): int
    requires bits >= 2
  {
    if sym then -(Pow2(bits - 1) as int) else 0
  }

  function QMax(sym: bool, bits: nat): int
    requires bits >= 2
  {
    if sym then Pow2(bits - 1) - 1 else Pow2(bits) - 1
  }

  /** What the range of integers has to cover, before it is divided into steps. */
  function Spread(row: seq<real>, sym: bool): real
    requires |row| > 0
  {
    if sym then Max(Abs(MinOf(row)), Abs(MaxOf(row))) else MaxOf(row) - MinOf(row)
  }

  function Scale(row: seq<real>, sym: bool, bits: nat): (s: real)
    requires |row| > 0 && bits >= 2
    ensures s > 0.0
  {
    QMaxIsPositive(sym, bits);
    Max(Spread(row, sym) / QMax(sym, bits) as real, SMALLEST)
  }

  function ZeroPoint(row: seq<real>, sym: bool, bits: nat): int
    requires |row| > 0 && bits >= 2
  {
    if sym then 0 else -1 * Round(Over(MinOf(row), Scale(row, sym, bits)))
  }

  function Clamp(x: int, lo: int, hi: int): int {
    if x < lo then lo else if x > hi then hi else x
  }

  function Quantize(row: seq<real>, sym: bool, bits: nat, i: nat): int
    requires |row| > 0 && bits >= 2 && i < |row|
  {
    Clamp(Round(Over(row[i], Scale(row, sym, bits)) + ZeroPoint(row, sym, bits) as real), QMin(sym, bits), QMax(sym, bits))
  }

  /** What the quantized value stands for. */
  function Dequantize(q: int, scale: real, zeroPoint: int): real {
    (q - zeroPoint) as real * scale
  }

  // ---------------------------------------------------------------------------------------------
  // Rounding and ranges
  // ---------------------------------------------------------------------------------------------

  lemma QMaxIsPositive(sym: bool, bits: nat)
    requires bits >= 2
    ensures QMax(sym, bits) >= 1
  {
    assert Pow2(bits - 1) == 2 * Pow2(bits - 2);
    assert Pow2(bits) == 2 * Pow2(bits - 1);
  }

  /** Round gives the one integer within half a unit, and on a tie the even one. */
  lemma RoundExactly(y: real, n: int)
    ensures Round(y) == n <==>
      || n as real - 0.5 < y < n as real + 0.5
      || (n % 2 == 0 && (y == n as real - 0.5 || y == n as real + 0.5))
  {
    var f := y.Floor;
    assert f as real <= y < f as real + 1.0;
    if n < f {
      assert n as real <= f as real - 1.0;
    } else if n > f + 1 {
      assert n as real >= f as real + 2.0;
    }
  }

  lemma RoundWithinHalf(y: real)
    ensures y - 0.5 <= Round(y) as real <= y + 0.5
  {
    RoundExactly(y, Round(y));
  }

  lemma RoundIsMonotone(y: real, z: real)
    requires y <= z
    ensures Round(y) <= Round(z)
  {
    assert y.Floor <= z.Floor;
  }

  /** Clamping a value that is at most half a unit outside the range keeps it within half a unit. */
  lemma ClampWithinHalf(y: real, lo: int, hi: int)
    requires lo <= hi && lo as real - 0.5 <= y <= hi as real + 0.5
    ensures y - 0.5 <= Clamp(Round(y), lo, hi) as real <= y + 0.5
  {
    RoundWithinHalf(y);
  }

  lemma SignOfFactor(d: real, s: real)
    requires s > 0.0
    ensures d * s >= 0.0 <==> d >= 0.0
  {
  }

  lemma QuotientBounds(a: real, b: real, s: real, n: int)
    requires s > 0.0 && Covers(n, s, a - b)
    ensures Over(a, s) - Over(b, s) <= n as real
  {
    var p, q := a / s, b / s;
    assert p * s == a && q * s == b;
    assert (n as real - (p - q)) * s == n as real * s - (p * s - q * s);
    SignOfFactor(n as real - (p - q), s);
  }

  lemma QuotientOrder(a: real, b: real, s: real)
    requires s > 0.0 && a <= b
    ensures Over(a, s) <= Over(b, s)
  {
    QuotientBounds(a, b, s, 0);
  }

  lemma ZeroSteps(s: real)
    requires s > 0.0
    ensures Over(0.0, s) == 0.0
  {
  }

  /** n steps of size s reach every element of the row from 0, or any two of its elements from each other. */
  ghost predicate CoversRow(row: seq<real>, sym: bool, n: int, s: real) {
    if sym then forall i :: 0 <= i < |row| ==> Covers(n, s, row[i]) && Covers(n, s, -row[i])
    else forall i, j :: 0 <= i < |row| && 0 <= j < |row| ==> Covers(n, s, row[i] - row[j])
  }

  /** The range has as many integers as the bits can tell apart: as many below 0 as not, or none below 0. */
  lemma RangeExactly(sym: bool, bits: nat)
    requires bits >= 2
    ensures QMax(sym, bits) - QMin(sym, bits) + 1 == Pow2(bits)
    ensures QMin(sym, bits) == if sym then -QMax(sym, bits) - 1 else 0
  {
  }

  /** QMax steps of the scale cover the row. */
  lemma ScaleCovers(row: seq<real>, sym: bool, bits: nat)
    requires |row| > 0 && bits >= 2
    ensures Scale(row, sym, bits) >= 0.00001 && CoversRow(row, sym, QMax(sym, bits), Scale(row, sym, bits))
  {
    hide Spread, QMax, Covers;
    SpreadCovers(row, sym, bits);
    SpreadExactly(row, sym, QMax(sym, bits), Scale(row, sym, bits));
  }

  /** No smaller scale would do: the scale is the least one from 1e-5 up that covers the row. */
  lemma ScaleIsLeast(row: seq<real>, sym: bool, bits: nat, s: real)
    requires |row| > 0 && bits >= 2 && s >= 0.00001 && CoversRow(row, sym, QMax(sym, bits), s)
    ensures Scale(row, sym, bits) <= s
  {
    hide Spread, QMax, CoversRow;
    SpreadExactly(row, sym, QMax(sym, bits), s);
    QMaxIsPositive(sym, bits);
    var n := QMax(sym, bits) as real;
    var d := Spread(row, sym) / n;
    assert d * n == Spread(row, sym);
    assert (s - d) * n == n * s - d * n;
    SignOfFactor(s - d, n);
  }

  /** The spread is what decides whether a row is covered. */
  lemma SpreadExactly(row: seq<real>, sym: bool, n: int, s: real)
    requires |row| > 0
    ensures CoversRow(row, sym, n, s) <==> Covers(n, s, Spread(row, sym))
  {
    var lo, hi := MinOf(row), MaxOf(row);
    var i :| 0 <= i < |row| && row[i] == lo;
    var j :| 0 <= j < |row| && row[j] == hi;
  }

  lemma SpreadCovers(row: seq<real>, sym: bool, bits: nat)
    requires |row| > 0 && bits >= 2
    ensures Covers(QMax(sym, bits), Scale(row, sym, bits), Spread(row, sym))
  {
    hide Spread, QMax;
    QMaxIsPositive(sym, bits);
    StepsCover(Spread(row, sym), QMax(sym, bits));
  }

  lemma StepsCover(spread: real, n: int)
    requires n >= 1
    ensures Covers(n, Max(spread / n as real, SMALLEST), spread)
  {
    var d := spread / n as real;
    assert d * n as real == spread;
    if d < SMALLEST { SignOfFactor(SMALLEST - d, n as real); }
  }

  // ---------------------------------------------------------------------------------------------
  // The error bound
  // ---------------------------------------------------------------------------------------------

  /** Before rounding, a value lies at most half a unit outside the integer range. */
  lemma InReach(row: seq<real>, sym: bool, bits: nat, i: nat)
    requires |row| > 0 && bits >= 2 && i < |row|
    ensures QMin(sym, bits) as real - 0.5
         <= Over(row[i], Scale(row, sym, bits)) + ZeroPoint(row, sym, bits) as real
         <= QMax(sym, bits) as real + 0.5
  {
    if sym { InReachSymmetric(row, bits, i); } else { InReachAsymmetric(row, bits, i); }
  }

  lemma InReachSymmetric(row: seq<real>, bits: nat, i: nat)
    requires |row| > 0 && bits >= 2 && i < |row|
    ensures -(QMax(true, bits) as real) <= Over(row[i], Scale(row, true, bits)) <= QMax(true, bits) as real
  {
    hide *;
    var s, n := Scale(row, true, bits), QMax(true, bits);
    SpreadCovers(row, true, bits);
    SpreadHoldsAll(row, i);
    CoversLess(n, s, Spread(row, true), row[i] - 0.0);
    CoversLess(n, s, Spread(row, true), 0.0 - row[i]);
    QuotientBounds(row[i], 0.0, s, n);
    QuotientBounds(0.0, row[i], s, n);
    ZeroSteps(s);
  }

  lemma CoversLess(n: int, s: real, a: real, b: real)
    requires Covers(n, s, a) && b <= a
    ensures Covers(n, s, b)
  {
  }

  lemma SpreadHoldsAll(row: seq<real>, i: nat)
    requires i < |row|
    ensures -Spread(row, true) <= row[i] <= Spread(row, true)
  {
    assert MinOf(row) <= row[i] <= MaxOf(row);
  }

  lemma InReachAsymmetric(row: seq<real>, bits: nat, i: nat)
    requires |row| > 0 && bits >= 2 && i < |row|
    ensures -0.5 <= Over(row[i], Scale(row, false, bits)) + ZeroPoint(row, false, bits) as real <= QMax(false, bits) as real + 0.5
  {
    hide Scale, QMax, Round, Over, Covers;
    var s, n := Scale(row, false, bits), QMax(false, bits);
    SpreadCovers(row, false, bits);
    RoundWithinHalf(Over(MinOf(row), s));
    QuotientOrder(MinOf(row), row[i], s);
    CoversLess(n, s, Spread(row, false), row[i] - MinOf(row));
    QuotientBounds(row[i], MinOf(row), s, n);
  }

  lemma Rescale(k: int, x: real, s: real)
    requires s > 0.0 && Over(x, s) - 0.5 <= k as real <= Over(x, s) + 0.5
    ensures x - s / 2.0 <= k as real * s <= x + s / 2.0
  {
    var y := x / s;
    assert y * s == x;
    SignOfFactor(k as real - y + 0.5, s);
    SignOfFactor(y + 0.5 - k as real, s);
    assert (k as real - y + 0.5) * s == k as real * s - y * s + s / 2.0;
    assert (y + 0.5 - k as real) * s == y * s + s / 2.0 - k as real * s;
  }

  /** The quantized value is in range and stands for a value at most half a step away from the input. */
  lemma ErrorIsHalfAStep(row: seq<real>, sym: bool, bits: nat, i: nat)
    requires |row| > 0 && bits >= 2 && i < |row|
    ensures var s, z, q := Scale(row, sym, bits), ZeroPoint(row, sym, bits), Quantize(row, sym, bits, i);
      && QMin(sym, bits) <= q <= QMax(sym, bits)
      && row[i] - s / 2.0 <= Dequantize(q, s, z) <= row[i] + s / 2.0
  {
    hide Scale, ZeroPoint, Round, Over;
    var s, z := Scale(row, sym, bits), ZeroPoint(row, sym, bits);
    InReach(row, sym, bits, i);
    QMaxIsPositive(sym, bits);
    ClampWithinHalf(Over(row[i], s) + z as real, QMin(sym, bits), QMax(sym, bits));
    Rescale(Quantize(row, sym, bits, i) - z, row[i], s);
  }

  /** q is an integer nearest to y. Of two it is the even one, unless that one lies outside the range. */
  predicate IsNearest(q: int, y: real, lo: int, hi: int) {
    || q as real - 0.5 < y < q as real + 0.5
    || (y == q as real + 0.5 && (q % 2 == 0 || q == hi))
    || (y == q as real - 0.5 && (q % 2 == 0 || q == lo))
  }

  lemma ClampedNearest(y: real, lo: int, hi: int)
    requires lo <= hi && lo as real - 0.5 <= y <= hi as real + 0.5
    ensures IsNearest(Clamp(Round(y), lo, hi), y, lo, hi)
  {
    RoundExactly(y, Round(y));
  }

  /**
   What is computed, exactly. The zero point is 0, or the integer nearest to -min / scale. An element becomes the integer in
   the range nearest to element / scale + zero point, so that a tie is decided after the zero point has been added.
   */
  lemma QuantizeExactly(row: seq<real>, sym: bool, bits: nat, i: nat, lowest: nat)
    requires bits >= 2 && i < |row| && lowest < |row| && forall j :: 0 <= j < |row| ==> row[lowest] <= row[j]
    ensures var s, z, q := Scale(row, sym, bits), ZeroPoint(row, sym, bits), Quantize(row, sym, bits, i);
      && QMin(sym, bits) <= q <= QMax(sym, bits)
      && IsNearest(q, row[i] / s + z as real, QMin(sym, bits), QMax(sym, bits))
      && (if sym then z == 0 else Round(row[lowest] / s) == -z)
  {
    hide Scale, Round, QMin, QMax;
    var z := ZeroPoint(row, sym, bits);
    InReach(row, sym, bits, i);
    RangeIsNotEmpty(sym, bits);
    ClampedNearest(Over(row[i], Scale(row, sym, bits)) + z as real, QMin(sym, bits), QMax(sym, bits));
    assert MinOf(row) == row[lowest];
  }

  /** Order is kept. */
  lemma OrderIsKept(row: seq<real>, sym: bool, bits: nat, i: nat, j: nat)
    requires bits >= 2 && i < |row| && j < |row| && row[i] <= row[j]
    ensures Quantize(row, sym, bits, i) <= Quantize(row, sym, bits, j)
  {
    hide Scale, ZeroPoint, Round, QMin, QMax, Over;
    var s, z := Scale(row, sym, bits), ZeroPoint(row, sym, bits) as real;
    QuotientOrder(row[i], row[j], s);
    RoundIsMonotone(Over(row[i], s) + z, Over(row[j], s) + z);
    RangeIsNotEmpty(sym, bits);
  }

  lemma RangeIsNotEmpty(sym: bool, bits: nat)
    requires bits >= 2
    ensures QMin(sym, bits) <= 0 < QMax(sym, bits)
  {
    QMaxIsPositive(sym, bits);
  }

  lemma RoundOfInteger(n: int)
    ensures Round(n as real) == n
  {
  }

  /** When 0 lies between the extremes, the zero point is one of the integers, so nothing is lost by clamping it. */
  lemma ZeroPointInRange(row: seq<real>, bits: nat)
    requires bits >= 2 && |row| > 0 && MinOf(row) <= 0.0 <= MaxOf(row)
    ensures 0 <= ZeroPoint(row, false, bits) <= QMax(false, bits)
  {
    hide Scale, QMax, Round, Over, Covers;
    var s, n := Scale(row, false, bits), QMax(false, bits);
    var v := Over(MinOf(row), s);
    SpreadCovers(row, false, bits);
    CoversLess(n, s, Spread(row, false), 0.0 - MinOf(row));
    QuotientBounds(0.0, MinOf(row), s, n);
    QuotientOrder(MinOf(row), 0.0, s);
    ZeroSteps(s);
    RoundIsMonotone(v, 0 as real);
    RoundIsMonotone((-n) as real, v);
    RoundOfInteger(0);
    RoundOfInteger(-n);
  }

  /** A zero in the row comes back as exactly zero. */
  lemma ZeroIsExact(row: seq<real>, sym: bool, bits: nat, i: nat)
    requires bits >= 2 && i < |row| && row[i] == 0.0
    ensures Quantize(row, sym, bits, i) == ZeroPoint(row, sym, bits)
    ensures Dequantize(Quantize(row, sym, bits, i), Scale(row, sym, bits), ZeroPoint(row, sym, bits)) == 0.0
  {
    hide Scale, QMax, Round, Over;
    var s, z := Scale(row, sym, bits), ZeroPoint(row, sym, bits);
    ZeroSteps(s);
    RoundOfInteger(z);
    RangeIsNotEmpty(sym, bits);
    if !sym { ZeroPointInRange(row, bits); }
  }

  /** Up to eight bits the result fits the byte type it is stored in: signed when symmetric, unsigned otherwise. */
  lemma FitsAByte(row: seq<real>, sym: bool, bits: nat, i: nat)
    requires 2 <= bits <= 8 && i < |row|
    ensures if sym then -128 <= Quantize(row, sym, bits, i) <= 127 else 0 <= Quantize(row, sym, bits, i) <= 255
  {
    hide Scale, ZeroPoint, Round;
    RangeIsNotEmpty(sym, bits);
    Pow2UpTo(bits, 8);
    Pow2UpTo(bits - 1, 7);
    assert Pow2(7) == 128 && Pow2(8) == 256 by {
      assert Pow2(3) == 8;
      assert Pow2(6) == 64;
    }
  }

  lemma {:induction false} Pow2UpTo(m: nat, n: nat)
    requires m <= n
    ensures Pow2(m) <= Pow2(n)
    decreases n - m
  {
    if m < n { Pow2UpTo(m + 1, n); }
  }

  predicate FitsInt32(n: int) {
    -0x8000_0000 <= n < 0x8000_0000
  }

  /** The source narrows the rounded quotient first and negates it afterwards; both must fit. */
  ghost predicate NarrowsExactly(row: seq<real>, bits: nat)
    requires bits >= 2 && |row| > 0
  {
    FitsInt32(Round(Over(MinOf(row), Scale(row, false, bits)))) && FitsInt32(ZeroPoint(row, false, bits))
  }

  /** They do exactly when the row's minimum is less than 2^31 - 1/2 steps away from 0. */
  lemma ZeroPointFitsExactly(row: seq<real>, bits: nat)
    requires bits >= 2 && |row| > 0
    ensures var v := Over(MinOf(row), Scale(row, false, bits));
      NarrowsExactly(row, bits) <==> -2147483647.5 < v < 2147483647.5
  {
    hide Scale, Over, Round;
    var v := Over(MinOf(row), Scale(row, false, bits));
    RoundUpTo(v, -0x8000_0000);
    RoundDownTo(v, 0x8000_0000);
    assert Round(v) > -0x8000_0000 <==> v > -2147483647.5;
    assert Round(v) < 0x8000_0000 <==> v < 2147483647.5;
  }

  /** Rounding to an even bound reaches half a unit beyond it. */
  lemma RoundUpTo(y: real, n: int)
    requires n % 2 == 0
    ensures Round(y) <= n <==> y <= n as real + 0.5
  {
  }

  /** Rounding reaches an even bound from half a unit below it. */
  lemma RoundDownTo(y: real, n: int)
    requires n % 2 == 0
    ensures Round(y) >= n <==> y >= n as real - 0.5
  {
  }

  /** A row of one large value has a zero point that does not fit. */
  lemma LargeConstantRow()
    ensures var row := [1000000.0]; ZeroPoint(row, false, 8) == -100000000000 && !NarrowsExactly(row, 8)
  {
    var row := [1000000.0];
    QMaxIsPositive(false, 8);
    assert Spread(row, false) == 0.0;
    assert Scale(row, false, 8) == SMALLEST;
    assert 1000000.0 / SMALLEST == 100000000000.0;
    RoundOfInteger(100000000000);
  }

  /** A row whose zero point would fit, but whose rounded quotient does not. */
  lemma BoundaryRow()
    ensures var row := [21474.83648];
            FitsInt32(ZeroPoint(row, false, 8)) && !FitsInt32(Round(Over(MinOf(row), Scale(row, false, 8)))) && !NarrowsExactly(row, 8)
  {
    var row := [21474.83648];
    QMaxIsPositive(false, 8);
    assert Spread(row, false) == 0.0;
    assert Scale(row, false, 8) == SMALLEST;
    assert 21474.83648 / SMALLEST == 2147483648.0;
    RoundOfInteger(2147483648);
  }
}
