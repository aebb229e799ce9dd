/** The ticks on the axes of a plot. */
module Ticks {
  import opened Options

  // ----- Powers

  function Pow10(k: int): (p: real)
    ensures p > 0.0
    decreases if k < 0 then -k else k
  {
    if k == 0 then 1.0 else if k > 0 then 10.0 * Pow10(k - 1) else Pow10(k + 1) / 10.0
  }

  lemma TenTimes(k: int)
    ensures Pow10(k + 1) == 10.0 * Pow10(k)
  {
  }

  /** The power of ten below a number, by its exponent. */
  function Log10Floor(x: real): int
    requires x > 0.0
  {
    if x >= 1.0 then Log10Above(x) else Log10Below(x)
  }

  function Log10Above(x: real): (k: nat)
    requires x >= 1.0
    decreases x.Floor
  {
    if x < 10.0 then 0 else 1 + Log10Above(x / 10.0)
  }

  function Log10Below(x: real): int
    requires 0.0 < x < 1.0
    decreases (1.0 / x).Floor
  {
    if x * 10.0 >= 1.0 then -1 else (CloserToOne(x); Log10Below(x * 10.0) - 1)
  }

  lemma CloserToOne(x: real)
    requires 0.0 < x && x * 10.0 < 1.0
    ensures (1.0 / (x * 10.0)).Floor < (1.0 / x).Floor && (1.0 / (x * 10.0)).Floor >= 0
  {
    var y := 1.0 / (x * 10.0);
    assert y * (x * 10.0) == 1.0;
    assert (y * 10.0) * x == 1.0;
    QuotientIs(1.0, x, y * 10.0);
    Quotient(1.0, x * 10.0, 1.0);
  }

  lemma {:induction false} AboveIs(x: real)
    requires x >= 1.0
    ensures Pow10(Log10Above(x)) <= x < 10.0 * Pow10(Log10Above(x))
    decreases x.Floor
  {
    if x >= 10.0 {
      AboveIs(x / 10.0);
      TenTimes(Log10Above(x / 10.0));
    }
  }

  lemma {:induction false} BelowIs(x: real)
    requires 0.0 < x < 1.0
    ensures Pow10(Log10Below(x)) <= x < 10.0 * Pow10(Log10Below(x))
    decreases (1.0 / x).Floor
  {
    if x * 10.0 >= 1.0 {
      assert Pow10(0) == 1.0;
      TenTimes(-1);
    } else {
      CloserToOne(x);
      BelowIs(x * 10.0);
      TenTimes(Log10Below(x));
    }
  }

  lemma Log10FloorIs(x: real)
    requires x > 0.0
    ensures Pow10(Log10Floor(x)) <= x < 10.0 * Pow10(Log10Floor(x))
  {
    if x >= 1.0 {
      AboveIs(x);
    } else {
      BelowIs(x);
    }
  }

  /** From one up, powers of ten are whole. */
  function TenTo(k: nat): (n: nat)
    ensures n >= 1
  {
    if k == 0 then 1 else 10 * TenTo(k - 1)
  }

  lemma {:induction false} WholePower(k: nat)
    ensures Pow10(k) == TenTo(k) as real
  {
    if k > 0 {
      WholePower(k - 1);
    }
  }

  function Power(base: nat, e: nat): nat {
    if e == 0 then 1 else base * Power(base, e - 1)
  }

  function Ratio(a: real, b: real): real
    requires b > 0.0
  {
    a / b
  }

  lemma Quotient(a: real, b: real, n: real)
    requires b > 0.0
    ensures a / b <= n <==> a <= n * b
    ensures a / b >= n <==> a >= n * b
  {
    var q := a / b;
    assert a == q * b;
    if q <= n {
      assert (n - q) * b >= 0.0;
    } else {
      assert (q - n) * b > 0.0;
    }
  }

  lemma QuotientIs(a: real, b: real, q: real)
    requires b > 0.0 && a == q * b
    ensures a / b == q
  {
    Quotient(a, b, q);
  }

  // ----- The largest value

  /** A point of a plot: the first value counts unless it is missing or zero. */
  datatype Point = Point(first: Option<real>, second: Option<real>)

  function Shown(p: Point): Option<real> {
    if p.first.Some? && p.first.value != 0.0 then p.first else p.second
  }

  /** The largest of a number and the values shown. */
  ghost predicate IsMax(max: real, least: real, points: seq<Point>) {
    && max >= least
    && (forall i | 0 <= i < |points| :: Shown(points[i]).Some? ==> Shown(points[i]).value <= max)
    && (max == least || exists i | 0 <= i < |points| :: Shown(points[i]) == Some(max))
  }

  method Largest(points: seq<Point>, minMax: real) returns (max: real)
    ensures IsMax(max, minMax, points)
  {
    max := minMax;
    for i := 0 to |points|
      invariant IsMax(max, minMax, points[..i])
    {
      var s := Shown(points[i]);
      if s.Some? && s.value > max {
        max := s.value;
        assert Shown(points[..i + 1][i]) == Some(max);
      } else if max != minMax {
        var j :| 0 <= j < |points[..i]| && Shown(points[..i][j]) == Some(max);
        assert points[..i + 1][j] == points[..i][j];
      }
    }
    assert points[..|points|] == points;
  }

  // ----- The distance between ticks

  /** In units, for a largest label of `x`: the power of ten below it, doubled once when there would be too
      many ticks, halved up to twice when there would be too few. */
  function Spacing(x: real): real
    requires x > 0.0
  {
    SpacingFrom(x, Pow10(Log10Floor(x)))
  }

  function SpacingFrom(x: real, p: real): real {
    if x > 7.0 * p then 2.0 * p
    else if x >= 3.0 * p || p < 10.0 then p
    else if 2.0 * x >= 3.0 * p || p < 20.0 then p / 2.0
    else p / 4.0
  }

  /** Never more than seven steps, and at least three where halving is possible. */
  lemma SpacingSteps(x: real)
    requires x > 0.0
    ensures var w := Spacing(x);
      && 0.0 < w <= x <= 7.0 * w
      && (w >= 10.0 ==> x >= 3.0 * w)
  {
    hide Log10Floor, Pow10;
    Log10FloorIs(x);
  }

  /** From one up, a whole number of units: a power of ten that is halved is not one, and twice not ten. */
  lemma SpacingWhole(x: real) returns (n: nat)
    requires x >= 1.0
    ensures n >= 1 && Spacing(x) == n as real
  {
    hide Log10Above, Pow10;
    var k := Log10Above(x);
    WholePower(k);
    var p := TenTo(k);
    n := if x > 7.0 * p as real then 2 * p
         else if x >= 3.0 * p as real || k == 0 then p
         else if 2.0 * x >= 3.0 * p as real || k == 1 then 5 * TenTo(k - 1)
         else 25 * TenTo(k - 2);
  }

  /** Steps of `size` from zero until the next one would be `size` past `max`. */
  ghost predicate IsAxis(ticks: seq<real>, size: real, max: real) {
    && ticks != []
    && (forall i | 0 <= i < |ticks| :: ticks[i] == i as real * size)
    && max <= ticks[|ticks| - 1] < max + size
  }

  /** The highest power of the base that is below the largest value, or one. */
  ghost predicate IsUnit(unit: nat, base: nat, max: real) {
    && unit >= 1
    && (exists e: nat :: unit == Power(base, e))
    && (base == 0 ==> unit == 1)
    && (unit == 1 || unit as real < max)
    && (base != 0 ==> max <= (unit * base) as real)
  }

  /** For a base of one the loop ends only if there is nothing to do. */
  method UnitFor(base: nat, max: real) returns (unit: nat)
    requires base != 1 || max <= 1.0
    ensures IsUnit(unit, base, max)
  {
    unit := 1;
    ghost var e := 0;
    while base != 0 && max > (unit * base) as real
      invariant unit >= 1 && unit == Power(base, e)
      invariant base == 0 ==> unit == 1
      invariant unit == 1 || unit as real < max
      decreases max - unit as real
    {
      assert base == 1 ==> unit * base == unit;
      assert base >= 2 ==> unit * base >= unit + 1;
      unit := unit * base;
      e := e + 1;
      assert unit == Power(base, e);
    }
    assert unit == Power(base, e);
  }

  /** A number of units. */
  function Units(w: real, unit: nat): real {
    w * unit as real
  }

  /** Comparing sizes is comparing labels. */
  lemma InLabels(max: real, unit: nat, w: real)
    requires unit >= 1 && w > 0.0
    ensures var x, size := Ratio(max, unit as real), Units(w, unit);
      && size > 0.0 && Ratio(size, unit as real) == w
      && (Ratio(max, size) > 7.0 <==> x > 7.0 * w)
      && (Ratio(max, size) < 3.0 <==> x < 3.0 * w)
      && (size <= max <==> w <= x)
      && (3.0 * size <= max <==> 3.0 * w <= x)
      && (max <= 7.0 * size <==> x <= 7.0 * w)
  {
    hide Ratio, Units;
    Compared(max, unit, w, 1.0);
    Compared(max, unit, w, 3.0);
    Compared(max, unit, w, 7.0);
  }

  lemma Compared(max: real, unit: nat, w: real, n: real)
    requires unit >= 1 && w > 0.0
    ensures var x, size := Ratio(max, unit as real), Units(w, unit);
      && size > 0.0 && Ratio(size, unit as real) == w
      && (Ratio(max, size) <= n <==> x <= n * w) && (max <= n * size <==> x <= n * w)
      && (Ratio(max, size) >= n <==> x >= n * w) && (max >= n * size <==> x >= n * w)
  {
    var u := unit as real;
    var x, size := max / u, w * u;
    assert max == x * u;
    Scale(n, w, x, u);
    Quotient(max, size, n);
    QuotientIs(size, u, w);
  }

  lemma Scale(n: real, v: real, x: real, u: real)
    requires u > 0.0
    ensures n * (v * u) <= x * u <==> n * v <= x
    ensures n * (v * u) >= x * u <==> n * v >= x
  {
    assert n * (v * u) == (n * v) * u;
    if n * v <= x {
      assert (x - n * v) * u >= 0.0;
    } else {
      assert (n * v - x) * u > 0.0;
    }
  }

  lemma Doubled(w: real, unit: nat)
    ensures Units(2.0 * w, unit) == Units(w, unit) * 2.0 && Units(w / 2.0, unit) == Units(w, unit) / 2.0
  {
  }

  /** Where halving may stand, in units, having started from a power of ten. */
  ghost predicate Halving(x: real, p: real, w: real) {
    if x > 7.0 * p then w == 2.0 * p
    else
      || w == p
      || (x < 3.0 * p && 10.0 <= p && 2.0 * w == p)
      || (2.0 * x < 3.0 * p && 20.0 <= p && 4.0 * w == p)
  }

  lemma Halves(x: real, p: real, w: real)
    requires Halving(x, p, w) && 0.0 < p <= x
    ensures w > 0.0
    ensures x < 3.0 * w && w >= 10.0 ==> Halving(x, p, w / 2.0)
    ensures !(x < 3.0 * w && w >= 10.0) ==> w == SpacingFrom(x, p)
  {
  }

  ghost predicate Trying(max: real, unit: nat, p: real, w: real, size: real) {
    && unit >= 1 && w > 0.0 && size > 0.0 && size == Units(w, unit)
    && 0.0 < p <= Ratio(max, unit as real) && Halving(Ratio(max, unit as real), p, w)
  }

  lemma TryHalf(max: real, unit: nat, p: real, w: real, size: real)
    requires Trying(max, unit, p, w, size)
    requires Ratio(max, size) < 3.0 && Ratio(size, unit as real) >= 10.0
    ensures w / 2.0 <= w - 1.0 && Trying(max, unit, p, w / 2.0, size / 2.0)
  {
    hide Ratio, Units, Halving, SpacingFrom;
    var x := Ratio(max, unit as real);
    InLabels(max, unit, w);
    Halves(x, p, w);
    Doubled(w, unit);
  }

  lemma TryDone(max: real, unit: nat, p: real, w: real, size: real)
    requires Trying(max, unit, p, w, size)
    requires !(Ratio(max, size) < 3.0 && Ratio(size, unit as real) >= 10.0)
    ensures size == Units(SpacingFrom(Ratio(max, unit as real), p), unit)
  {
    hide Ratio, Units, Halving, SpacingFrom;
    InLabels(max, unit, w);
    Halves(Ratio(max, unit as real), p, w);
  }

  method SizeFor(max: real, unit: nat) returns (size: real)
    requires unit >= 1 && Ratio(max, unit as real) > 0.0
    ensures size == Units(Spacing(Ratio(max, unit as real)), unit)
  {
    hide Ratio, Units, Pow10, Log10Floor, Halving, SpacingFrom;
    var x := Ratio(max, unit as real);
    var p := Pow10(Log10Floor(x));
    Log10FloorIs(x);
    size := Halved(max, unit, p);
  }

  method Halved(max: real, unit: nat, p: real) returns (size: real)
    requires unit >= 1 && 0.0 < p <= Ratio(max, unit as real) < 10.0 * p
    ensures size == Units(SpacingFrom(Ratio(max, unit as real), p), unit)
  {
    hide Ratio, Units, Halving, SpacingFrom;
    ghost var w;
    size, w := Doubling(max, unit, p);
    assert Trying(max, unit, p, w, size);
    while Ratio(max, size) < 3.0 && Ratio(size, unit as real) >= 10.0
      invariant size > 0.0 && Trying(max, unit, p, w, size)
      decreases w
    {
      TryHalf(max, unit, p, w, size);
      w := w / 2.0;
      size := size / 2.0;
    }
    TryDone(max, unit, p, w, size);
  }

  method Doubling(max: real, unit: nat, p: real) returns (size: real, ghost w: real)
    requires unit >= 1 && p > 0.0 && Ratio(max, unit as real) < 10.0 * p
    ensures size > 0.0 && size == Units(w, unit) && w > 0.0 && Halving(Ratio(max, unit as real), p, w)
  {
    hide Ratio, Units;
    var x := Ratio(max, unit as real);
    w := p;
    size := Units(p, unit);
    ghost var left := 1;
    InLabels(max, unit, w);
    while Ratio(max, size) > 7.0
      invariant w > 0.0 && size == Units(w, unit) && size > 0.0
      invariant (left == 1 && w == p) || (left == 0 && w == 2.0 * p && x > 7.0 * p)
      decreases left
    {
      InLabels(max, unit, w);
      Doubled(w, unit);
      w := 2.0 * w;
      size := size * 2.0;
      left := left - 1;
      InLabels(max, unit, w);
    }
    InLabels(max, unit, w);
  }

  lemma NextTick(max: real, size: real, t: real)
    requires size > 0.0
    ensures (max + size - (t + size)) / size == (max + size - t) / size - 1.0
    ensures t < max + size ==> (max + size - t) / size > 0.0
  {
    var q := (max + size - t) / size;
    assert q * size == max + size - t;
    QuotientIs(max + size - (t + size), size, q - 1.0);
    Quotient(max + size - t, size, 0.0);
  }

  method AxisFor(max: real, size: real) returns (ticks: seq<real>)
    requires max >= 0.0 && size > 0.0
    ensures IsAxis(ticks, size, max)
  {
    ticks := [];
    var t := 0.0;
    while t < max + size
      invariant t == |ticks| as real * size
      invariant forall i | 0 <= i < |ticks| :: ticks[i] == i as real * size
      invariant ticks != [] ==> ticks[|ticks| - 1] < max + size
      decreases (max + size - t) / size
    {
      NextTick(max, size, t);
      ticks := ticks + [t];
      t := t + size;
    }
  }

  /** A list of ticks is as long as the steps need. */
  lemma AxisLength(ticks: seq<real>, size: real, max: real, low: nat, high: nat)
    requires IsAxis(ticks, size, max) && size > 0.0 && low as real * size <= max <= high as real * size
    ensures low + 1 <= |ticks| <= high + 1
  {
    var n, last := |ticks| - 1, ticks[|ticks| - 1];
    assert last == n as real * size;
    if n < low {
      Steps(n as real, low as real, size, last, low as real * size);
    }
    if n > high {
      Steps(high as real, n as real, size, high as real * size, last);
    }
  }

  lemma Steps(a: real, b: real, size: real, at: real, bt: real)
    requires a + 1.0 <= b && size > 0.0 && at == a * size && bt == b * size
    ensures at + size <= bt
  {
    Product(b - a - 1.0, size);
    assert (b - a - 1.0) * size == b * size - a * size - size;
  }

  lemma Product(x: real, y: real)
    requires x >= 0.0 && y >= 0.0
    ensures x * y >= 0.0
  {
  }

  /** The value axis. A largest value that is not positive has no finite logarithm, and the size is zero or not a
      number: no number is below the end of the axis then, and there are no ticks. */
  method ValueTicks(points: seq<Point>, minMax: real, base: nat) returns (ticks: seq<real>, unit: nat, ghost max: real)
    requires base == 1 ==> minMax <= 1.0 && forall i | 0 <= i < |points| && Shown(points[i]).Some? :: Shown(points[i]).value <= 1.0
    ensures IsMax(max, minMax, points) && IsUnit(unit, base, max)
    ensures max <= 0.0 ==> unit == 1 && ticks == []
    ensures max > 0.0 ==> Ratio(max, unit as real) > 0.0 && (max >= 1.0 ==> Ratio(max, unit as real) >= 1.0)
    ensures max > 0.0 ==> IsAxis(ticks, Units(Spacing(Ratio(max, unit as real)), unit), max)
  {
    hide Spacing, Units;
    var most := Largest(points, minMax);
    max := most;
    unit := UnitFor(base, most);
    if most <= 0.0 {
      NoUnits(unit, base, most);
      return [], unit, most;
    }
    Quotient(most, unit as real, 1.0);
    Positive(most, unit as real);
    var size := SizeFor(most, unit);
    SpacingSteps(Ratio(most, unit as real));
    InLabels(most, unit, Spacing(Ratio(most, unit as real)));
    ticks := AxisFor(most, size);
  }

  /** Only a larger value is above a unit. */
  lemma NoUnits(unit: nat, base: nat, max: real)
    requires IsUnit(unit, base, max) && max <= 0.0
    ensures unit == 1
  {
  }

  lemma Positive(a: real, b: real)
    requires a > 0.0 && b > 0.0
    ensures a / b > 0.0
  {
    assert (a / b) * b == a;
  }

  /** The axis has two to eight ticks, and four at least unless they are fewer than ten units apart; for a
      largest value from one up the distance is a whole number of units. */
  lemma AxisBounds(ticks: seq<real>, unit: nat, max: real)
    requires unit >= 1 && Ratio(max, unit as real) > 0.0
    requires IsAxis(ticks, Units(Spacing(Ratio(max, unit as real)), unit), max)
    ensures 2 <= |ticks| <= 8
    ensures |ticks| >= 4 || Spacing(Ratio(max, unit as real)) < 10.0
    ensures Ratio(max, unit as real) >= 1.0 ==>
      var w := Spacing(Ratio(max, unit as real)); w >= 1.0 && w.Floor as real == w
  {
    hide Ratio, IsAxis, Spacing, Units;
    var x := Ratio(max, unit as real);
    var w := Spacing(x);
    SpacingSteps(x);
    InLabels(max, unit, w);
    AxisLength(ticks, Units(w, unit), max, 1, 7);
    if w >= 10.0 {
      AxisLength(ticks, Units(w, unit), max, 3, 7);
    }
    if x >= 1.0 {
      var n := SpacingWhole(x);
    }
  }

  // ----- The time axis

  const SIZES: seq<nat> := [60, 5 * 60, 10 * 60, 30 * 60, 60 * 60, 6 * 60 * 60, 12 * 60 * 60, 24 * 60 * 60,
                            7 * 24 * 60 * 60, 30 * 24 * 60 * 60, 183 * 24 * 60 * 60, 365 * 24 * 60 * 60,
                            10 * 365 * 24 * 60 * 60]

  /** Fewer than ten steps of this many seconds in a span of milliseconds. */
  predicate Suits(span: real, seconds: nat) {
    seconds > 0 && Ratio(span / 1000.0, seconds as real) < 10.0
  }

  function Ceil(x: real): (n: int)
    ensures n as real - 1.0 < x <= n as real
  {
    -((-x).Floor)
  }

  function Multiple(m: int, size: real): real {
    m as real * size
  }

  /** Steps of `size` that are multiples of it, from the first one at `start` or later to the last one before `end`. */
  ghost predicate IsTimeAxis(ticks: seq<real>, n: int, size: real, start: real, end: real) {
    && (forall i | 0 <= i < |ticks| :: ticks[i] == Multiple(n + i, size))
    && Multiple(n - 1, size) < start <= Multiple(n, size)
    && (ticks != [] ==> ticks[|ticks| - 1] < end)
    && end <= Multiple(n + |ticks|, size)
  }

  method TimeSize(span: real) returns (size: nat, i: nat)
    ensures i < |SIZES| && size == SIZES[i] * 1000
    ensures Suits(span, SIZES[i]) || i == |SIZES| - 1
    ensures forall j | 0 <= j < i :: !Suits(span, SIZES[j])
  {
    i := 0;
    while !Suits(span, SIZES[i]) && i != |SIZES| - 1
      invariant i < |SIZES| && forall j | 0 <= j < i :: !Suits(span, SIZES[j])
    {
      i := i + 1;
    }
    size := SIZES[i] * 1000;
  }

  method TimeAxis(start: real, end: real, size: real) returns (ticks: seq<real>, ghost n: int)
    requires size > 0.0
    ensures IsTimeAxis(ticks, n, size, start, end)
  {
    hide Multiple, Ratio, Ceil;
    ticks := [];
    n := Ceil(Ratio(start, size));
    var t := Multiple(Ceil(Ratio(start, size)), size);
    FirstTick(start, size);
    while t < end
      invariant t == Multiple(n + |ticks|, size)
      invariant forall i | 0 <= i < |ticks| :: ticks[i] == Multiple(n + i, size)
      invariant ticks != [] ==> ticks[|ticks| - 1] < end
      decreases Ratio(end - t, size)
    {
      NextTime(end, size, t);
      StepOn(n + |ticks|, size);
      ticks := ticks + [t];
      t := t + size;
    }
  }

  lemma StepOn(m: int, size: real)
    ensures Multiple(m + 1, size) == Multiple(m, size) + size
  {
    assert (m as real + 1.0) * size == m as real * size + size;
  }

  lemma NextTime(end: real, size: real, t: real)
    requires size > 0.0
    ensures Ratio(end - (t + size), size) == Ratio(end - t, size) - 1.0
    ensures t < end ==> Ratio(end - t, size) > 0.0
  {
    NextTick(end - size, size, t);
  }

  lemma FirstTick(start: real, size: real)
    requires size > 0.0
    ensures var n := Ceil(Ratio(start, size)); Multiple(n - 1, size) < start <= Multiple(n, size)
  {
    var n := Ceil(Ratio(start, size));
    Quotient(start, size, n as real);
    Quotient(start, size, (n - 1) as real);
  }

  /** The ticks are the multiples of the size in the plotted time, all of them and nothing else. */
  lemma TimeTicksAreMultiples(ticks: seq<real>, n: int, size: real, start: real, end: real, m: int)
    requires size > 0.0 && IsTimeAxis(ticks, n, size, start, end)
    ensures start <= Multiple(m, size) < end <==> n <= m < n + |ticks|
  {
    hide Multiple;
    if m < n {
      Ordered(m, n - 1, size);
    } else {
      Ordered(n, m, size);
    }
    if m < n + |ticks| {
      if ticks != [] {
        Ordered(m, n + |ticks| - 1, size);
        assert ticks[|ticks| - 1] == Multiple(n + (|ticks| - 1), size);
      }
    } else {
      Ordered(n + |ticks|, m, size);
    }
  }

  lemma Ordered(a: int, b: int, size: real)
    requires size > 0.0
    ensures a <= b ==> Multiple(a, size) <= Multiple(b, size)
  {
    if a <= b {
      Product(b as real - a as real, size);
      assert (b as real - a as real) * size == b as real * size - a as real * size;
    }
  }

  /** A span of fewer than ten steps has at most ten ticks. */
  lemma TimeTicksAreFew(ticks: seq<real>, n: int, seconds: nat, start: real, end: real)
    requires IsTimeAxis(ticks, n, (seconds * 1000) as real, start, end) && Suits(end - start, seconds)
    ensures |ticks| <= 10
  {
    var size := (seconds * 1000) as real;
    Quotient((end - start) / 1000.0, seconds as real, 10.0);
    assert end - start < 10.0 * size;
    assert Multiple(n + 10, size) == Multiple(n, size) + 10.0 * size;
    TimeTicksAreMultiples(ticks, n, size, start, end, n + 10);
  }

  method TimeTicks(times: seq<real>) returns (ticks: seq<real>, size: nat, ghost n: int)
    requires times != []
    ensures size > 0 && IsTimeAxis(ticks, n, size as real, times[0], times[|times| - 1])
    ensures |ticks| <= 10 || size == SIZES[|SIZES| - 1] * 1000
  {
    var start, end := times[0], times[|times| - 1];
    var i;
    size, i := TimeSize(end - start);
    ticks, n := TimeAxis(start, end, size as real);
    if Suits(end - start, SIZES[i]) {
      TimeTicksAreFew(ticks, n, SIZES[i], start, end);
    }
  }
}
