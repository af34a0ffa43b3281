/**
 * Numbers as 64-bit floats hold them: rounding to the nearest, ties to even, with 53 significant
 * bits.  Zero keeps no sign; infinities and not-a-number do not arise here.
 */
module Binary64 {

  import opened Base

  const MAX_SCALE := 971

  const MIN_SCALE := -1074

  /** 2^52 and 2^53: what a normal number counts in its last place lies between them. */
  const HALF_FULL := 4_503_599_627_370_496.0

  const FULL := 9_007_199_254_740_992.0

  function Pow2(e: int): (r: real)
    ensures r > 0.0
    decreases if e >= 0 then e else -e
  {
    if e == 0 then 1.0 else if e > 0 then 2.0 * Pow2(e - 1) else Pow2(e + 1) / 2.0
  }

  /** Products and quotients of reals, named so that proofs can keep them apart from linear arithmetic. */
  function Times(a: real, b: real): real {
    a * b
  }

  function Over(a: real, b: real): real
    requires b != 0.0
  {
    a / b
  }

  /** The exponent of the last place of `x`, searched from the largest downwards. */
  function ScaleFrom(x: real, e: int): (r: int)
    requires MIN_SCALE <= e
    ensures MIN_SCALE <= r <= e
    decreases e - MIN_SCALE, x
  {
    if e == MIN_SCALE || x >= Times(HALF_FULL, Pow2(e)) then e else ScaleFrom(x, e - 1)
  }

  function Scale(x: real): int {
    ScaleFrom(x, MAX_SCALE)
  }

  /** The integer nearest to `y`, the even one of two. */
  function Nearest(y: real): int {
    var n := y.Floor;
    var d := y - n as real;
    if d < 0.5 || (d == 0.5 && n % 2 == 0) then n else n + 1
  }

  /** The multiple of `u` nearest to `x`. */
  function Snap(x: real, u: real): real
    requires u > 0.0
  {
    Times(Nearest(Over(x, u)) as real, u)
  }

  function RoundAbs(x: real): real {
    Snap(x, Pow2(Scale(x)))
  }

  /** The result of one operation, or of reading a decimal number, whose exact value is `x`. */
  function Round(x: real): real {
    if x >= 0.0 then RoundAbs(x) else -RoundAbs(-x)
  }

  /** Below 2^1024 in absolute value: 53 bits above the last place hold the number. */
  predicate InRange(x: real) {
    x < Times(FULL, Pow2(Scale(x))) && -x < Times(FULL, Pow2(Scale(-x)))
  }

  /** strconv.ParseFloat: None is its range error. */
  function Parse(x: real): Option<real> {
    if InRange(Round(x)) then Some(Round(x)) else None
  }

  /** Conversion to an integer: truncation toward zero. */
  function Trunc(x: real): int {
    if x >= 0.0 then x.Floor else -((-x).Floor)
  }

  predicate FitsInt64(n: int) {
    -0x8000_0000_0000_0000 <= n < 0x8000_0000_0000_0000
  }

  /** Conversion to int64; None where Go leaves the result to the platform. */
  function ToInt64(x: real): Option<int> {
    if FitsInt64(Trunc(x)) then Some(Trunc(x)) else None
  }

  // ---- Products and quotients ----

  lemma TimesLe(a: real, b: real, u: real)
    requires a <= b && u >= 0.0
    ensures Times(a, u) <= Times(b, u)
  {
  }

  lemma TimesLess(a: real, b: real, u: real)
    requires a < b && u > 0.0
    ensures Times(a, u) < Times(b, u)
  {
  }

  lemma TimesAdd(a: real, b: real, u: real)
    ensures Times(a + b, u) == Times(a, u) + Times(b, u)
  {
  }

  lemma OverTimes(x: real, u: real)
    requires u > 0.0
    ensures Times(Over(x, u), u) == x
  {
  }

  lemma TimesInts(m: int, k: int, u: real)
    ensures Times((m * k) as real, u) == Times(m as real, Times(k as real, u))
  {
    assert (m * k) as real == m as real * k as real;
  }

  lemma TimesSmall(u: real)
    ensures Times(0.0, u) == 0.0 && Times(1.0, u) == u && Times(0.5, u) == u / 2.0
    ensures Times(u, 1.0) == u
    ensures Times(FULL, u) == 2.0 * Times(HALF_FULL, u) && Times(FULL, 2.0 * u) == 2.0 * Times(FULL, u)
    ensures u >= 0.0 ==> Times(HALF_FULL, u) >= 1000.0 * u
  {
  }

  // ---- Snapping to a unit ----

  lemma NearestMeans(y: real)
    ensures y - 0.5 <= Nearest(y) as real <= y + 0.5
  {
  }

  lemma NearestStays(y: real, n: int)
    ensures y >= n as real ==> Nearest(y) >= n
    ensures y <= n as real ==> Nearest(y) <= n
  {
  }

  lemma SnapErr(x: real, u: real)
    requires u > 0.0
    ensures x - u / 2.0 <= Snap(x, u) <= x + u / 2.0
  {
    hide Times, Over, Nearest;
    var y := Over(x, u);
    var n := Nearest(y) as real;
    NearestMeans(y);
    OverTimes(x, u);
    TimesSmall(u);
    TimesLe(n, y + 0.5, u);
    TimesLe(y, n + 0.5, u);
    TimesAdd(y, 0.5, u);
    TimesAdd(n, 0.5, u);
  }

  /** Snapping does not cross a multiple of the unit. */
  lemma SnapStays(x: real, n: int, u: real)
    requires u > 0.0
    ensures x >= Times(n as real, u) ==> Snap(x, u) >= Times(n as real, u)
    ensures x <= Times(n as real, u) ==> Snap(x, u) <= Times(n as real, u)
  {
    hide Times, Over, Nearest;
    var y := Over(x, u);
    OverTimes(x, u);
    NearestStays(y, n);
    if y >= n as real {
      TimesLe(n as real, Nearest(y) as real, u);
    } else {
      TimesLess(y, n as real, u);
    }
    if y <= n as real {
      TimesLe(Nearest(y) as real, n as real, u);
    } else {
      TimesLess(n as real, y, u);
    }
  }

  // ---- The last place ----

  lemma {:induction false} Pow2Monotone(d: int, e: int)
    requires d <= e
    ensures Pow2(d) <= Pow2(e)
    decreases e - d
  {
    if d < e {
      Pow2Monotone(d, e - 1);
    }
  }

  /** A larger unit is a whole number of smaller ones. */
  lemma {:induction false} Pow2Divides(d: int, e: int) returns (k: nat)
    requires d <= e
    ensures Pow2(e) == Times(k as real, Pow2(d))
    decreases e - d
  {
    if d == e {
      k := 1;
      TimesSmall(Pow2(d));
    } else {
      var h := Pow2Divides(d, e - 1);
      k := 2 * h;
      hide Times;
      TimesAdd(h as real, h as real, Pow2(d));
      assert Pow2(e) == 2.0 * Pow2(e - 1);
      assert k as real == h as real + h as real;
    }
  }

  /** The last place of a number below 2^53 units is at most one unit. */
  lemma {:induction false} ScaleAtMost(x: real, e: int, top: int)
    requires MIN_SCALE <= e <= top && x < Times(FULL, Pow2(e))
    ensures ScaleFrom(x, top) <= e
    decreases top - e
  {
    if e < top {
      FullUnits(e, top);
      hide Times, Pow2;
      ScaleAtMost(x, e, top - 1);
    }
  }

  lemma FullUnits(e: int, top: int)
    requires e < top
    ensures Times(FULL, Pow2(e)) <= Times(HALF_FULL, Pow2(top))
  {
    Pow2Monotone(e + 1, top);
    assert Pow2(e + 1) == 2.0 * Pow2(e);
  }

  lemma {:induction false} ScaleAtLeast(x: real, e: int, top: int)
    requires MIN_SCALE <= e <= top && x >= Times(HALF_FULL, Pow2(e))
    ensures ScaleFrom(x, top) >= e
    decreases top - e
  {
    hide Times, Pow2;
    if e < top && !(x >= Times(HALF_FULL, Pow2(top))) {
      ScaleAtLeast(x, e, top - 1);
    }
  }

  lemma {:induction false} ScaleReached(x: real, top: int)
    requires MIN_SCALE <= top
    ensures ScaleFrom(x, top) == MIN_SCALE || x >= Times(HALF_FULL, Pow2(ScaleFrom(x, top)))
    decreases top - MIN_SCALE
  {
    hide Times, Pow2;
    if top > MIN_SCALE && !(x >= Times(HALF_FULL, Pow2(top))) {
      ScaleReached(x, top - 1);
    }
  }

  lemma {:induction false} ScaleCovers(x: real, top: int)
    requires MIN_SCALE <= top && x < Times(FULL, Pow2(top))
    ensures x < Times(FULL, Pow2(ScaleFrom(x, top)))
    decreases top - MIN_SCALE
  {
    if top > MIN_SCALE && x < Times(HALF_FULL, Pow2(top)) {
      TimesSmall(Pow2(top));
      HalfOfNext(top);
      ScaleCovers(x, top - 1);
    }
  }

  lemma HalfOfNext(e: int)
    ensures Times(HALF_FULL, Pow2(e)) == Times(FULL, Pow2(e - 1))
  {
    assert Pow2(e) == 2.0 * Pow2(e - 1);
  }

  /** Everything up to 2^64 is in range, by far. */
  lemma InRangeUpTo(x: real)
    requires -18_446_744_073_709_551_616.0 <= x <= 18_446_744_073_709_551_616.0
    ensures InRange(x)
  {
    assert Pow2(12) == 4096.0;
    WideEnough();
    var top := MAX_SCALE;
    Pow2Monotone(12, top);
    hide Pow2, Times, ScaleFrom;
    FullMonotone(4096.0, Pow2(top));
    ScaleCovers(x, top);
    ScaleCovers(-x, top);
  }

  lemma WideEnough()
    ensures Times(FULL, 4096.0) > 18_446_744_073_709_551_616.0
  {
  }

  lemma FullMonotone(a: real, b: real)
    requires a <= b
    ensures Times(FULL, a) <= Times(FULL, b)
  {
  }

  // ---- What rounding keeps and what it costs ----

  /** Rounding moves a number below 2^53 units by at most half a unit. */
  lemma RoundErr(x: real, e: int)
    requires 0.0 <= x < Times(FULL, Pow2(e)) && MIN_SCALE <= e <= MAX_SCALE
    ensures x - Pow2(e) / 2.0 <= Round(x) <= x + Pow2(e) / 2.0
    ensures Round(x) >= 0.0
  {
    hide Times, Snap, Pow2, ScaleFrom;
    ScaleAtMost(x, e, MAX_SCALE);
    Pow2Monotone(Scale(x), e);
    SnapErr(x, Pow2(Scale(x)));
    SnapStays(x, 0, Pow2(Scale(x)));
    TimesSmall(Pow2(Scale(x)));
  }

  /** Rounding does not cross a number of at most 53 significant bits. */
  lemma RoundStaysAt(x: real, b: real, m: nat, e: int)
    requires 0.0 <= x < Times(FULL, Pow2(e)) && MIN_SCALE <= e <= MAX_SCALE && b == Times(m as real, Pow2(e))
    ensures x >= b ==> Round(x) >= b
    ensures x <= b ==> Round(x) <= b
  {
    hide Times, Snap, Pow2, ScaleFrom;
    ScaleAtMost(x, e, MAX_SCALE);
    var k := Pow2Divides(Scale(x), e);
    TimesInts(m, k, Pow2(Scale(x)));
    SnapStays(x, m * k, Pow2(Scale(x)));
  }

  /** A number with at most 53 significant bits is left alone. */
  lemma RoundExact(x: real, m: nat, e: int)
    requires x == Times(m as real, Pow2(e))
    requires m as real < FULL && MIN_SCALE <= e <= MAX_SCALE
    ensures Round(x) == x
  {
    hide Times, Pow2, Round;
    TimesLess(m as real, FULL, Pow2(e));
    TimesLe(0.0, m as real, Pow2(e));
    TimesSmall(Pow2(e));
    RoundStaysAt(x, x, m, e);
  }

  lemma RoundNegative(x: real)
    ensures Round(-x) == -Round(x)
  {
    assert Pow2(0) == 1.0;
    hide Pow2, Times, RoundAbs;
    TimesSmall(1.0);
    RoundExact(0.0, 0, 0);
  }

  lemma RoundNat(n: nat)
    requires n as real < FULL
    ensures Round(n as real) == n as real
  {
    assert Pow2(0) == 1.0;
    hide Pow2, Times, Round;
    TimesSmall(n as real);
    RoundExact(n as real, n, 0);
  }

  /** Whole numbers below 2^53 are floats. */
  lemma RoundInt(n: int)
    requires -FULL < n as real < FULL
    ensures Round(n as real) == n as real
  {
    hide Round;
    if n >= 0 {
      RoundNat(n);
    } else {
      RoundNat(-n);
      RoundNegative((-n) as real);
      assert n as real == -((-n) as real);
    }
  }

  /** Rounding does not cross a whole number. */
  lemma RoundStays(x: real, n: nat)
    requires 0.0 <= x < FULL
    ensures x >= n as real ==> Round(x) >= n as real
    ensures x <= n as real ==> Round(x) <= n as real
  {
    assert Pow2(0) == 1.0;
    hide Pow2, Times, Round;
    TimesSmall(n as real);
    TimesSmall(FULL);
    RoundStaysAt(x, n as real, n, 0);
  }

  /** A number between 2^52 and 2^53 units rounds to a whole number of units. */
  lemma RoundUnits(x: real, e: int) returns (m: int)
    requires Times(HALF_FULL, Pow2(e)) <= x < Times(FULL, Pow2(e)) && MIN_SCALE <= e <= MAX_SCALE
    ensures Round(x) == Times(m as real, Pow2(e))
  {
    hide ScaleFrom, Nearest, Pow2, Times;
    ScaleAtMost(x, e, MAX_SCALE);
    ScaleAtLeast(x, e, MAX_SCALE);
    TimesSmall(Pow2(e));
    m := Nearest(Over(x, Pow2(e)));
  }

  /** No number from 1 on is moved by a quarter of itself. */
  lemma RoundRatio(x: real)
    requires x >= 1.0
    ensures 0.75 * x <= Round(x) <= 1.25 * x
  {
    assert Pow2(-1) == 0.5;
    hide Snap, ScaleFrom, Pow2, Times;
    SnapErr(x, Pow2(Scale(x)));
    ScaleReached(x, MAX_SCALE);
    TimesSmall(Pow2(Scale(x)));
    Pow2Monotone(MIN_SCALE, -1);
  }

  /** Above 2^53 every float is a whole number. */
  lemma RoundBig(x: real) returns (n: nat)
    requires x >= FULL
    ensures Round(x) == n as real
  {
    assert Pow2(0) == 1.0;
    hide ScaleFrom, Pow2, Times, Nearest;
    TimesSmall(HALF_FULL);
    ScaleAtLeast(x, 0, MAX_SCALE);
    var k := Pow2Divides(0, Scale(x));
    var m := Nearest(Over(x, Pow2(Scale(x))));
    TimesSmall(k as real);
    TimesInts(m, k, 1.0);
    TimesSmall((m * k) as real);
    TimesSmall(Pow2(Scale(x)));
    RoundRatio(x);
    n := m * k;
  }

  /** Halfway between two multiples of the unit, the even one is taken. */
  lemma TiesToEven(n: int)
    ensures Nearest(n as real + 0.5) == if n % 2 == 0 then n else n + 1
  {
  }

  /** From 2^1024 on, which is 2^53 of the largest units, a number of either sign does not parse. */
  lemma ParseFails(x: real, top: int)
    requires top == MAX_SCALE && x >= Times(FULL, Pow2(top))
    ensures Parse(x).None? && Parse(-x).None?
  {
    TimesSmall(Pow2(top));
    hide Pow2, Times, ScaleFrom, Snap;
    ScaleAtLeast(x, top, top);
    assert Scale(x) == top;
    SnapStays(x, 9_007_199_254_740_992, Pow2(top));
    ScaleAtLeast(Round(x), top, top);
    assert Round(-x) == -Round(x) && -Round(-x) == Round(x);
  }
}
