/** The accent gate and the colour it suggests in place of a refused accent
    (internal/brand/accent.go).

    A refused colour is darkened along its HSL lightness path, whose points are integers `u` standing for
    the lightness u/SCALE. `ColorAt` is the integer formula of the code; `ExactColor` is the path itself, at
    every real lightness, written from HSL. The two meet in `GridIsComplete`, and `Suggest` is proved
    brightest among the passing colours of the exact path, not only of the grid.
 */
module Accent {
  import opened Arith

  type Byte = x: int | 0 <= x < 256

  datatype Color = Color(r: Byte, g: Byte, b: Byte) {
    /** No channel of this colour exceeds the other's. */
    predicate NoBrighterThan(that: Color) {
      r <= that.r && g <= that.g && b <= that.b
    }
  }

  const BLACK := Color(0, 0, 0)
  const INK := Color(0x15, 0x22, 0x19)
  const PAPER := Color(0xFF, 0xFD, 0xF4)
  const PORCELAIN := Color(0xED, 0xF0, 0xEA)

  // ---------------------------------------------------------------- the gate

  /** What the gate needs of the linearised channel table: it starts at 0, ends at 1 and never falls. */
  ghost predicate IsTable(lin: seq<real>) {
    && |lin| == 256 && lin[0] == 0.0 && lin[255] == 1.0
    && forall i, j :: 0 <= i <= j < 256 ==> lin[i] <= lin[j]
  }

  /** Relative luminance (WCAG 2.1, section 6). */
  function Luminance(lin: seq<real>, c: Color): real
    requires |lin| == 256
  {
    0.2126 * lin[c.r] + 0.7152 * lin[c.g] + 0.0722 * lin[c.b]
  }

  /** The channels add up, green weighing most and blue least. */
  lemma LuminanceWeighs(lin: seq<real>, c: Color)
    requires IsTable(lin)
    ensures Luminance(lin, BLACK) == 0.0 && Luminance(lin, Color(255, 255, 255)) == 1.0
    ensures Luminance(lin, Color(255, 0, 0)) == 0.2126 && Luminance(lin, Color(0, 255, 0)) == 0.7152
    ensures Luminance(lin, Color(0, 0, 255)) == 0.0722
    ensures Luminance(lin, Color(c.r, 0, 0)) + Luminance(lin, Color(0, c.g, 0)) + Luminance(lin, Color(0, 0, c.b)) == Luminance(lin, c)
  {
  }

  lemma LuminanceMonotone(lin: seq<real>, a: Color, b: Color)
    requires IsTable(lin) && a.NoBrighterThan(b)
    ensures 0.0 <= Luminance(lin, a) <= Luminance(lin, b)
  {
    assert lin[0] <= lin[a.r] <= lin[b.r];
    assert lin[0] <= lin[a.g] <= lin[b.g];
    assert lin[0] <= lin[a.b] <= lin[b.b];
  }

  function Ratio(la: real, lb: real): real
    requires la > 0.0 && lb > 0.0
  {
    if la < lb then lb / la else la / lb
  }

  /** Contrast ratio (WCAG 2.1, section 6): the lighter of the two over the darker. */
  function ContrastRatio(lin: seq<real>, a: Color, b: Color): real
    requires IsTable(lin)
  {
    LuminanceMonotone(lin, a, a);
    LuminanceMonotone(lin, b, b);
    Ratio(Luminance(lin, a) + 0.05, Luminance(lin, b) + 0.05)
  }

  function OnColor(lin: seq<real>, a: Color): Color
    requires IsTable(lin)
  {
    if ContrastRatio(lin, PAPER, a) >= ContrastRatio(lin, INK, a) then PAPER else INK
  }

  function Edge(lin: seq<real>, a: Color): bool
    requires IsTable(lin)
  {
    ContrastRatio(lin, a, PORCELAIN) < 3.0
  }

  datatype Fill = Fill(accent: Color, text: Color, edge: bool)

  datatype CheckResult = Accepted(fill: Fill) | Illegible

  function Check(lin: seq<real>, a: Color): CheckResult
    requires IsTable(lin)
  {
    var text := OnColor(lin, a);
    if ContrastRatio(lin, text, a) < 4.5 then Illegible else Accepted(Fill(a, text, Edge(lin, a)))
  }

  predicate Passes(lin: seq<real>, a: Color)
    requires IsTable(lin)
  {
    Check(lin, a).Accepted?
  }

  /** One text colour `t` reaches 4.5:1 on `a`, without a division. */
  ghost predicate Reaches(lin: seq<real>, t: Color, a: Color)
    requires |lin| == 256
  {
    var lt, la := Luminance(lin, t) + 0.05, Luminance(lin, a) + 0.05;
    lt >= 4.5 * la || la >= 4.5 * lt
  }

  lemma QuotientAtLeast(n: real, d: real, k: real)
    requires d > 0.0
    ensures n / d >= k <==> n >= k * d
  {
    var q := n / d;
    assert q * d == n;
    if q >= k { assert (q - k) * d >= 0.0; } else { assert (k - q) * d > 0.0; }
  }

  /** Without the quotient: one of the two is at least `k` times the other. */
  lemma RatioAtLeast(la: real, lb: real, k: real)
    requires la > 0.0 && lb > 0.0 && k > 1.0
    ensures Ratio(la, lb) >= k <==> la >= k * lb || lb >= k * la
  {
    if la < lb {
      QuotientAtLeast(lb, la, k);
      assert k * lb > lb;
    } else {
      QuotientAtLeast(la, lb, k);
      assert k * la > la;
    }
  }

  lemma RatioReaches(lin: seq<real>, t: Color, a: Color)
    requires IsTable(lin)
    ensures ContrastRatio(lin, t, a) >= 4.5 <==> Reaches(lin, t, a)
  {
    hide Luminance, Ratio;
    LuminanceMonotone(lin, t, t);
    LuminanceMonotone(lin, a, a);
    RatioAtLeast(Luminance(lin, t) + 0.05, Luminance(lin, a) + 0.05, 4.5);
  }

  /** The gate accepts an accent exactly when one of the two text colours is legible on it, and hands out
      the more legible of the two. */
  lemma CheckMeansLegible(lin: seq<real>, a: Color)
    requires IsTable(lin)
    ensures Passes(lin, a) <==> Reaches(lin, PAPER, a) || Reaches(lin, INK, a)
    ensures Passes(lin, a) ==>
              && Reaches(lin, Check(lin, a).fill.text, a)
              && Check(lin, a).fill.accent == a
              && (Check(lin, a).fill.text == PAPER || Check(lin, a).fill.text == INK)
              && (forall t | t == PAPER || t == INK ::
                   ContrastRatio(lin, t, a) <= ContrastRatio(lin, Check(lin, a).fill.text, a))
              && (Check(lin, a).fill.text == INK ==> ContrastRatio(lin, PAPER, a) < ContrastRatio(lin, INK, a))
  {
    hide Luminance, Ratio, IsTable, Reaches;
    RatioReaches(lin, PAPER, a);
    RatioReaches(lin, INK, a);
  }

  /** A fill gets an edge exactly when neither it nor the page it lies on is three times the other. */
  lemma EdgeMeansTooClose(lin: seq<real>, a: Color)
    requires IsTable(lin) && Passes(lin, a)
    ensures var la, lp := Luminance(lin, a) + 0.05, Luminance(lin, PORCELAIN) + 0.05;
            Check(lin, a).fill.edge <==> la < 3.0 * lp && lp < 3.0 * la
  {
    hide Luminance, Ratio, OnColor;
    LuminanceMonotone(lin, a, a);
    LuminanceMonotone(lin, PORCELAIN, PORCELAIN);
    RatioAtLeast(Luminance(lin, a) + 0.05, Luminance(lin, PORCELAIN) + 0.05, 3.0);
  }

  lemma BlackPasses(lin: seq<real>)
    requires IsTable(lin)
    ensures Passes(lin, BLACK)
  {
    assert lin[0] <= lin[0xFD] && lin[0] <= lin[0xF4];
    CheckMeansLegible(lin, BLACK);
  }

  /** Below a refused colour the passing colours are closed under darkening, for every table: a text that
      is darker than the colour cannot become legible again on the way down. */
  lemma PassingIsDownClosed(lin: seq<real>, refused: Color, c: Color, darker: Color)
    requires IsTable(lin)
    requires !Passes(lin, refused) && Passes(lin, c)
    requires darker.NoBrighterThan(c) && c.NoBrighterThan(refused)
    ensures Passes(lin, darker)
  {
    LuminanceMonotone(lin, darker, c);
    LuminanceMonotone(lin, c, refused);
    LuminanceMonotone(lin, PAPER, PAPER);
    LuminanceMonotone(lin, INK, INK);
    CheckMeansLegible(lin, refused);
    CheckMeansLegible(lin, c);
    CheckMeansLegible(lin, darker);
  }

  // ---------------------------------------------------------------- the path

  const STEP: int := 0x8000_0000
  const SCALE: int := 510 * STEP

  function Abs(x: int): int { if x < 0 then -x else x }

  function Max3(a: int, b: int, c: int): (m: int)
    ensures a <= m && b <= m && c <= m && (m == a || m == b || m == c)
  {
    var m := if a < b then b else a;
    if m < c then c else m
  }

  function Min3(a: int, b: int, c: int): (m: int)
    ensures m <= a && m <= b && m <= c && (m == a || m == b || m == c)
  {
    var m := if a < b then a else b;
    if m < c then m else c
  }

  datatype Path = Path(c: seq<Byte>, l2: int, d: int, top: int)

  function PathOf(a: Color): (p: Path)
    ensures p.d == 255 - Abs(p.l2 - 255) || (p.d == 1 && (a == BLACK || a == Color(255, 255, 255)))
    ensures |p.c| == 3 && forall i :: 0 <= i < 3 ==> OnPath(p.c[i], p.l2, p.d)
    ensures p.top == p.l2 * STEP && 0 <= p.l2 <= 510
  {
    var hi, lo := Max3(a.r, a.g, a.b), Min3(a.r, a.g, a.b);
    var l2 := hi + lo;
    var rho := 255 - Abs(l2 - 255);
    Path([a.r, a.g, a.b], l2, if rho == 0 then 1 else rho, l2 * STEP)
  }

  /** What the formula needs of one channel `c` of a colour: its distance from the lightness is within
      the room HSL leaves there. */
  ghost predicate OnPath(c: int, l2: int, d: int) {
    1 <= d <= 255 && 0 <= l2 <= 510 && 0 <= c <= 255 && -d <= 2 * c - l2 <= d
  }

  function Spread(u: int): int { SCALE - Abs(2 * u - SCALE) }

  function Numerator(c: int, l2: int, d: int, u: int): int {
    255 * (2 * u * d + Spread(u) * (2 * c - l2)) + SCALE * d
  }

  /** The code's channel at grid step `u`. */
  function ChannelAt(c: int, l2: int, d: int, u: int): int
    requires 1 <= d
  {
    Numerator(c, l2, d, u) / (2 * SCALE * d)
  }

  /** HSL's channel at real lightness `x`, in 255ths: lightness plus rho(x)/rho(l) times the colour's own
      offset from its lightness. */
  function ExactValue(c: int, l2: int, d: int, x: real): real
    requires 1 <= d
  {
    var rho := if 2.0 * x <= 1.0 then 2.0 * x else 2.0 - 2.0 * x;
    255.0 * (x + rho * (2 * c - l2) as real / (2.0 * d as real))
  }

  /** The exact channel rounded half up. */
  function ExactChannel(c: int, l2: int, d: int, x: real): int
    requires 1 <= d
  {
    (ExactValue(c, l2, d, x) + 0.5).Floor
  }

  // The channel is piecewise linear, with its kink at half lightness. On either side, twice its
  // half-up-shifted value times d is 510 * slope * x + rest.

  function Slope(c: int, l2: int, d: int, upper: bool): int {
    if upper then d - (2 * c - l2) else d + (2 * c - l2)
  }

  function Rest(c: int, l2: int, d: int, upper: bool): int {
    if upper then 510 * (2 * c - l2) + d else d
  }

  function Line(slope: int, x: real): real { slope as real * x }

  /** Where the line has to be for the channel to be at least `m`. */
  function Level(c: int, l2: int, d: int, upper: bool, m: int): int {
    2 * d * m - Rest(c, l2, d, upper)
  }

  lemma SlopeRange(c: int, l2: int, d: int, upper: bool)
    requires OnPath(c, l2, d)
    ensures 0 <= Slope(c, l2, d, upper) <= 510
  {
  }

  lemma RealOrder(a: real, b: real, s: real)
    requires s > 0.0
    ensures a >= b <==> a * s >= b * s
  {
    if a >= b { assert (a - b) * s >= 0.0; } else { assert (b - a) * s > 0.0; }
  }

  lemma Distribute(x: real, q: real, d: real)
    ensures (255.0 * (x + q) + 0.5) * (2.0 * d) == 510.0 * (x * d) + 255.0 * (q * (2.0 * d)) + d
  {
  }

  lemma SlopeTimes(d: int, k: int, x: real)
    ensures Line(d + k, x) == x * d as real + x * k as real
    ensures Line(d - k, x) == x * d as real - x * k as real
    ensures (2.0 * x) * k as real == 2.0 * (x * k as real)
    ensures (2.0 - 2.0 * x) * k as real == 2.0 * k as real - 2.0 * (x * k as real)
  {
  }

  lemma Cancel(n: real, d: real) returns (q: real)
    requires d > 0.0
    ensures q == n / d && q * d == n
  {
    q := n / d;
  }

  lemma ExactShape(c: int, l2: int, d: int, x: real) returns (q: real)
    requires 1 <= d
    ensures ExactValue(c, l2, d, x) == 255.0 * (x + q)
    ensures q * (2.0 * d as real) == (if 2.0 * x <= 1.0 then 2.0 * x else 2.0 - 2.0 * x) * (2 * c - l2) as real
  {
    var rho := if 2.0 * x <= 1.0 then 2.0 * x else 2.0 - 2.0 * x;
    q := Cancel(rho * (2 * c - l2) as real, 2.0 * d as real);
  }

  lemma Linear(c: int, l2: int, d: int, x: real, upper: bool)
    requires OnPath(c, l2, d)
    requires if upper then 1.0 <= 2.0 * x else 2.0 * x <= 1.0
    ensures (ExactValue(c, l2, d, x) + 0.5) * (2.0 * d as real)
         == 510.0 * Line(Slope(c, l2, d, upper), x) + Rest(c, l2, d, upper) as real
  {
    var k := 2 * c - l2;
    assert Slope(c, l2, d, upper) == if upper then d - k else d + k;
    assert Rest(c, l2, d, upper) == if upper then 510 * k + d else d;
    assert 1 <= d;
    hide *;
    var q := ExactShape(c, l2, d, x);
    Distribute(x, q, d as real);
    SlopeTimes(d, k, x);
  }

  /** A channel is at least `m` exactly when its line has reached the level of `m`. */
  lemma Threshold(c: int, l2: int, d: int, x: real, upper: bool, m: int)
    requires OnPath(c, l2, d)
    requires if upper then 1.0 <= 2.0 * x else 2.0 * x <= 1.0
    ensures ExactChannel(c, l2, d, x) >= m <==>
            510.0 * Line(Slope(c, l2, d, upper), x) >= Level(c, l2, d, upper, m) as real
  {
    var v, e := ExactValue(c, l2, d, x) + 0.5, Rest(c, l2, d, upper);
    assert ExactChannel(c, l2, d, x) == v.Floor;
    assert Level(c, l2, d, upper, m) == 2 * d * m - e;
    assert 1 <= d;
    hide *;
    Linear(c, l2, d, x, upper);
    LevelReached(v, 510.0 * Line(Slope(c, l2, d, upper), x), e, d, m);
  }

  lemma LevelReached(v: real, line: real, e: int, d: int, m: int)
    requires d >= 1 && v * (2.0 * d as real) == line + e as real
    ensures v.Floor >= m <==> line >= (2 * d * m - e) as real
  {
    RealOrder(v, m as real, 2.0 * d as real);
    CastProduct(d, m);
    assert v.Floor >= m <==> v >= m as real;
  }

  lemma CastProduct(d: int, m: int)
    ensures m as real * (2.0 * d as real) == (2 * d * m) as real
  {
  }

  lemma LineRises(a: int, x: real, y: real)
    requires 0 <= a && x <= y
    ensures Line(a, x) <= Line(a, y)
  {
  }

  /** On one side of the kink. */
  lemma MonotoneOnASide(c: int, l2: int, d: int, x: real, y: real, upper: bool)
    requires OnPath(c, l2, d) && x <= y
    requires if upper then 1.0 <= 2.0 * x else 2.0 * y <= 1.0
    ensures ExactChannel(c, l2, d, x) <= ExactChannel(c, l2, d, y)
  {
    var m := ExactChannel(c, l2, d, x);
    hide *;
    Threshold(c, l2, d, x, upper, m);
    SlopeRange(c, l2, d, upper);
    LineRises(Slope(c, l2, d, upper), x, y);
    Threshold(c, l2, d, y, upper, m);
  }

  /** Each exact channel is non-decreasing in lightness. */
  lemma ExactMonotone(c: int, l2: int, d: int, x: real, y: real)
    requires OnPath(c, l2, d) && x <= y
    ensures ExactChannel(c, l2, d, x) <= ExactChannel(c, l2, d, y)
  {
    hide *;
    if 2.0 * y <= 1.0 {
      MonotoneOnASide(c, l2, d, x, y, false);
    } else if 1.0 <= 2.0 * x {
      MonotoneOnASide(c, l2, d, x, y, true);
    } else {
      MonotoneOnASide(c, l2, d, x, 0.5, false);
      MonotoneOnASide(c, l2, d, 0.5, y, true);
    }
  }

  lemma ExactIsByte(c: int, l2: int, d: int, x: real)
    requires OnPath(c, l2, d) && 0.0 <= x <= 1.0
    ensures 0 <= ExactChannel(c, l2, d, x) <= 255
  {
    ExactMonotone(c, l2, d, 0.0, x);
    ExactMonotone(c, l2, d, x, 1.0);
    Threshold(c, l2, d, 0.0, false, 0);
    Threshold(c, l2, d, 1.0, true, 256);
  }

  function GridPoint(u: int): real { u as real / SCALE as real }

  lemma GridOrder(u: int, v: int)
    ensures u <= v <==> GridPoint(u) <= GridPoint(v)
    ensures GridPoint(u) * SCALE as real == u as real
  {
  }

  lemma GridHalf(u: int)
    ensures 2 * u <= SCALE <==> 2.0 * GridPoint(u) <= 1.0
    ensures 2 * u >= SCALE <==> 2.0 * GridPoint(u) >= 1.0
  {
  }

  lemma NumeratorIsALine(c: int, l2: int, d: int, u: int, upper: bool)
    requires if upper then SCALE <= 2 * u else 2 * u <= SCALE
    ensures Numerator(c, l2, d, u) == 510 * (Slope(c, l2, d, upper) * u) + Rest(c, l2, d, upper) * SCALE
  {
    var k := 2 * c - l2;
    if upper {
      assert (2 * SCALE - 2 * u) * k == 2 * SCALE * k - 2 * (u * k);
      assert (d - k) * u == u * d - u * k;
    } else {
      assert (2 * u) * k == 2 * (u * k);
      assert (d + k) * u == u * d + u * k;
    }
  }

  /** A line is below a level at a grid point exactly when the scaled integers say so. */
  lemma OnGrid(b: int, u: int, p: int)
    ensures 510.0 * Line(b, GridPoint(u)) >= p as real <==> 510 * (b * u) >= p * SCALE
  {
    GridOrder(u, u);
    var s := SCALE as real;
    var v := 510.0 * (b as real * GridPoint(u));
    assert v * s == 510.0 * (b as real * (GridPoint(u) * s)) == (510 * (b * u)) as real;
    if v >= p as real { assert (v - p as real) * s >= 0.0; } else { assert (p as real - v) * s > 0.0; }
  }

  lemma GridThreshold(c: int, l2: int, d: int, u: int, upper: bool, m: int)
    requires OnPath(c, l2, d)
    requires if upper then SCALE <= 2 * u else 2 * u <= SCALE
    ensures ChannelAt(c, l2, d, u) >= m <==>
            510 * (Slope(c, l2, d, upper) * u) >= Level(c, l2, d, upper, m) * SCALE
  {
    NumeratorIsALine(c, l2, d, u, upper);
    ScaledThreshold(Numerator(c, l2, d, u), 510 * (Slope(c, l2, d, upper) * u), Rest(c, l2, d, upper), SCALE, d, m);
  }

  lemma ScaledThreshold(n: int, line: int, e: int, s: int, d: int, m: int)
    requires n == line + e * s && s > 0 && d > 0
    ensures 2 * s * d > 0 && (n / (2 * s * d) >= m <==> line >= (2 * d * m - e) * s)
  {
    assert s * d > 0;
    FloorAtLeast(n, 2 * s * d, m);
    calc {
      m * (2 * s * d);
      (2 * d * m) * s;
      (2 * d * m - e + e) * s;
      (2 * d * m - e) * s + e * s;
    }
  }

  /** On the grid, the integer formula is the exact path: the code computes HSL, rounded half up. */
  lemma GridIsExact(c: int, l2: int, d: int, u: int)
    requires OnPath(c, l2, d)
    ensures ChannelAt(c, l2, d, u) == ExactChannel(c, l2, d, GridPoint(u))
  {
    GridHalf(u);
    var upper := 2 * u > SCALE;
    var m := ChannelAt(c, l2, d, u);
    GridMeetsPath(c, l2, d, u, upper, m);
    GridMeetsPath(c, l2, d, u, upper, m + 1);
  }

  lemma GridMeetsPath(c: int, l2: int, d: int, u: int, upper: bool, m: int)
    requires OnPath(c, l2, d)
    requires if upper then SCALE <= 2 * u && 1.0 <= 2.0 * GridPoint(u) else 2 * u <= SCALE && 2.0 * GridPoint(u) <= 1.0
    ensures ChannelAt(c, l2, d, u) >= m <==> ExactChannel(c, l2, d, GridPoint(u)) >= m
  {
    hide *;
    GridThreshold(c, l2, d, u, upper, m);
    OnGrid(Slope(c, l2, d, upper), u, Level(c, l2, d, upper, m));
    Threshold(c, l2, d, GridPoint(u), upper, m);
  }

  // ------------------------------------------------------- whole colours

  function ColorAt(p: Path, u: int): Color
    requires |p.c| == 3 && (forall i :: 0 <= i < 3 ==> OnPath(p.c[i], p.l2, p.d)) && 0 <= u <= SCALE
  {
    ChannelAtIsByte(p.c[0], p.l2, p.d, u);
    ChannelAtIsByte(p.c[1], p.l2, p.d, u);
    ChannelAtIsByte(p.c[2], p.l2, p.d, u);
    Color(ChannelAt(p.c[0], p.l2, p.d, u), ChannelAt(p.c[1], p.l2, p.d, u), ChannelAt(p.c[2], p.l2, p.d, u))
  }

  ghost function ExactColor(p: Path, x: real): Color
    requires |p.c| == 3 && (forall i :: 0 <= i < 3 ==> OnPath(p.c[i], p.l2, p.d)) && 0.0 <= x <= 1.0
  {
    ExactIsByte(p.c[0], p.l2, p.d, x);
    ExactIsByte(p.c[1], p.l2, p.d, x);
    ExactIsByte(p.c[2], p.l2, p.d, x);
    Color(ExactChannel(p.c[0], p.l2, p.d, x), ExactChannel(p.c[1], p.l2, p.d, x), ExactChannel(p.c[2], p.l2, p.d, x))
  }

  // ------------------------------------------------- HSL, from the colour's own channels

  /** HSL's lightness of a colour. */
  ghost function Lightness(a: Color): real {
    (Max3(a.r, a.g, a.b) + Min3(a.r, a.g, a.b)) as real / 510.0
  }

  /** The room HSL leaves at a lightness: 1 - |2x - 1|. */
  ghost function Room(x: real): real { if x <= 0.5 then 2.0 * x else 2.0 - 2.0 * x }

  /** How much of its offset a channel keeps on the way from lightness `l` to `x`: black and white have none. */
  ghost function Kept(l: real, x: real): real { if Room(l) == 0.0 then 0.0 else Room(x) / Room(l) }

  /** One of the colour's channels carried to lightness `x` at the colour's hue and saturation: its offset from the
      lightness scales with the room. */
  ghost function Carried(a: Color, c: Byte, x: real): real {
    255.0 * (x + Kept(Lightness(a), x) * (c as real / 255.0 - Lightness(a)))
  }

  lemma PathIsOwn(a: Color)
    ensures PathOf(a).c == [a.r, a.g, a.b] && 1 <= PathOf(a).d
    ensures PathOf(a).l2 == Max3(a.r, a.g, a.b) + Min3(a.r, a.g, a.b) && Lightness(a) == PathOf(a).l2 as real / 510.0
    ensures Room(Lightness(a)) == 0.0 ==> forall i :: 0 <= i < 3 ==> 2 * (PathOf(a).c[i] as int) == PathOf(a).l2
    ensures Room(Lightness(a)) != 0.0 ==> 255.0 * Room(Lightness(a)) == PathOf(a).d as real
  {
  }

  ghost function Times(x: real, y: real): real { x * y }

  lemma SameQuotient(q: real, t: real, n: real)
    requires n > 0.0 && q * n == t * n
    ensures q == t
  {
    assert (q - t) * n == 0.0;
  }

  lemma OffsetKept(q: real, kept: real, k: int, off: real, d: int, room: real, w: real)
    requires d >= 1 && off == k as real / 510.0 && Times(q, 2.0 * d as real) == Times(w, k as real)
    requires (k == 0 && kept == 0.0) || (255.0 * room == d as real && Times(kept, room) == w)
    ensures q == Times(kept, off)
  {
    var n, t := 2.0 * d as real, kept * off;
    if k == 0 && kept == 0.0 {
      assert w * k as real == 0.0;
    } else {
      assert t * n == kept * k as real * (d as real / 255.0) == kept * k as real * room == (kept * room) * k as real;
    }
    SameQuotient(q, t, n);
  }

  lemma CarriedShape(a: Color, c: Byte, l2: int, x: real) returns (off: real)
    requires Lightness(a) == l2 as real / 510.0
    ensures off == (2 * c - l2) as real / 510.0 && Carried(a, c, x) == 255.0 * (x + Times(Kept(Lightness(a), x), off))
  {
    hide Lightness, Kept;
    off := c as real / 255.0 - Lightness(a);
  }

  lemma ExactTimes(c: int, l2: int, d: int, x: real) returns (q: real)
    requires 1 <= d
    ensures ExactValue(c, l2, d, x) == 255.0 * (x + q) && Times(q, 2.0 * d as real) == Times(Room(x), (2 * c - l2) as real)
  {
    hide ExactValue;
    q := ExactShape(c, l2, d, x);
  }

  lemma KeptIsRatio(l: real, x: real)
    ensures Room(l) != 0.0 ==> Times(Kept(l, x), Room(l)) == Room(x)
    ensures Room(l) == 0.0 ==> Kept(l, x) == 0.0
  {
  }

  /** The code's path is that of the colour itself: each exact channel is HSL's. */
  lemma PathIsHsl(a: Color, i: nat, x: real)
    requires i < 3
    ensures |PathOf(a).c| == 3 && 1 <= PathOf(a).d
    ensures ExactValue(PathOf(a).c[i], PathOf(a).l2, PathOf(a).d, x) == Carried(a, [a.r, a.g, a.b][i], x)
  {
    hide *;
    PathIsOwn(a);
    var p, l := PathOf(a), Lightness(a);
    var q := ExactTimes(p.c[i], p.l2, p.d, x);
    KeptIsRatio(l, x);
    var off := CarriedShape(a, p.c[i], p.l2, x);
    OffsetKept(q, Kept(l, x), 2 * p.c[i] as int - p.l2, off, p.d, Room(l), Room(x));
  }

  /** A colour darkened to lightness `x`, each channel rounded half up. */
  ghost function Darkened(a: Color, x: real): Color
    requires 0.0 <= x <= 1.0
  {
    DarkenedIsExact(a, x);
    Color((Carried(a, a.r, x) + 0.5).Floor, (Carried(a, a.g, x) + 0.5).Floor, (Carried(a, a.b, x) + 0.5).Floor)
  }

  lemma DarkenedIsExact(a: Color, x: real)
    requires 0.0 <= x <= 1.0
    ensures ExactColor(PathOf(a), x).r == (Carried(a, a.r, x) + 0.5).Floor
    ensures ExactColor(PathOf(a), x).g == (Carried(a, a.g, x) + 0.5).Floor
    ensures ExactColor(PathOf(a), x).b == (Carried(a, a.b, x) + 0.5).Floor
  {
    PathIsHsl(a, 0, x);
    PathIsHsl(a, 1, x);
    PathIsHsl(a, 2, x);
    hide PathOf, Carried, ExactValue;
  }

  lemma Proportions(m: real, n: real, c: real, l: real, x: real, q: real)
    requires m + n == 510.0 * l
    ensures var hi, lo, v := 255.0 * (x + q * (m / 255.0 - l)), 255.0 * (x + q * (n / 255.0 - l)), 255.0 * (x + q * (c / 255.0 - l));
            && hi + lo == 510.0 * x && hi - lo == q * (m - n) && (v - lo) * (m - n) == (c - n) * (hi - lo)
  {
    assert q * (m / 255.0 - l) + q * (n / 255.0 - l) == q * ((m + n) / 255.0 - 2.0 * l) == 0.0;
    assert 255.0 * (q * (m / 255.0 - l)) - 255.0 * (q * (n / 255.0 - l)) == q * (m - n);
    assert 255.0 * (q * (c / 255.0 - l)) - 255.0 * (q * (n / 255.0 - l)) == q * (c - n);
  }

  lemma LightnessMeans(a: Color)
    ensures Max3(a.r, a.g, a.b) as real + Min3(a.r, a.g, a.b) as real == 510.0 * Lightness(a)
    ensures 0.0 <= Lightness(a) <= 1.0
    ensures Room(Lightness(a)) == 0.0 ==> Max3(a.r, a.g, a.b) == Min3(a.r, a.g, a.b)
  {
  }

  lemma Saturation(kept: real, room: real, w: real, span: real)
    requires if room == 0.0 then span == 0.0 else kept * room == w
    ensures kept * span * room == span * w
  {
    assert kept * span * room == span * (kept * room);
  }

  /** It is darkening as HSL has it: the brightest and the darkest channel average to the lightness, their distance
      stays in proportion to the room (the saturation), and every channel keeps its place between the two
      (the hue). */
  lemma DarkeningKeepsHueAndSaturation(a: Color, c: Byte, x: real)
    ensures var m, n := Max3(a.r, a.g, a.b), Min3(a.r, a.g, a.b);
            var hi, lo := Carried(a, m, x), Carried(a, n, x);
            && hi + lo == 510.0 * x
            && (hi - lo) * Room(Lightness(a)) == (m as real - n as real) * Room(x)
            && (Carried(a, c, x) - lo) * (m as real - n as real) == (c as real - n as real) * (hi - lo)
            && m as real + n as real == 510.0 * Lightness(a)
  {
    hide Lightness, Room, Kept;
    var m, n, l := Max3(a.r, a.g, a.b), Min3(a.r, a.g, a.b), Lightness(a);
    LightnessMeans(a);
    KeptIsRatio(l, x);
    hide Max3, Min3;
    Proportions(m as real, n as real, c as real, l, x, Kept(l, x));
    Saturation(Kept(l, x), Room(l), Room(x), m as real - n as real);
  }

  lemma AtItsOwnLightness(a: Color, c: Byte)
    requires Room(Lightness(a)) != 0.0 || 510 * c == 255 * (Max3(a.r, a.g, a.b) + Min3(a.r, a.g, a.b))
    ensures Carried(a, c, Lightness(a)) == c as real
  {
    hide Lightness, Room;
    var l := Lightness(a);
    LightnessMeans(a);
    if Room(l) != 0.0 { assert Kept(l, l) == 1.0; }
  }

  /** The uint8 conversion in `at` loses nothing. */
  lemma ChannelAtIsByte(c: int, l2: int, d: int, u: int)
    requires OnPath(c, l2, d) && 0 <= u <= SCALE
    ensures 0 <= ChannelAt(c, l2, d, u) <= 255
  {
    GridOrder(0, u);
    GridOrder(u, SCALE);
    GridIsExact(c, l2, d, u);
    ExactIsByte(c, l2, d, GridPoint(u));
  }

  /** Every intermediate value of `at` fits int64, with the magnitudes the code states; the numerator is
      not negative, so Go's truncating division is the floor used here. */
  lemma AtFitsInt64(c: int, l2: int, d: int, u: int)
    requires OnPath(c, l2, d) && 0 <= u <= SCALE
    ensures 0 <= Spread(u) <= SCALE && Abs(2 * u - SCALE) <= SCALE && 2 * u < 0x7FFF_FFFF_FFFF_FFFF
    ensures 0 <= 2 * u * d < 600_000_000_000_000
    ensures Abs(Spread(u) * (2 * c - l2)) < 300_000_000_000_000
    ensures 0 <= 255 * (2 * u * d + Spread(u) * (2 * c - l2)) <= Numerator(c, l2, d, u) < 220_000_000_000_000_000
    ensures 0 < 2 * SCALE * d < 560_000_000_000_000
  {
    var w, k := Spread(u), 2 * c - l2;
    assert 0 <= w <= 2 * u && w <= 2 * (SCALE - u) && w <= SCALE;
    assert Numerator(c, l2, d, u) == 255 * (2 * u * d + w * k) + SCALE * d;
    assert 1 <= d <= 255 && -d <= k <= d;
    assert SCALE == 1_095_216_660_480;
    Bounds(u, w, k, d, SCALE);
  }

  lemma Bounds(u: int, w: int, k: int, d: int, s: int)
    requires 0 <= u <= s && 0 <= w <= s && w <= 2 * u && w <= 2 * (s - u)
    requires 1 <= d <= 255 && -d <= k <= d
    ensures 0 <= 2 * u * d <= 510 * s
    ensures -255 * s <= w * k <= 255 * s
    ensures 0 <= 2 * u * d + w * k <= 510 * s
    ensures 0 < s ==> 0 < s * d <= 255 * s
  {
    Squeeze(w, k, d);
    MulOrder(u, s, d);
    MulOrder(w, s, d);
    MulOrder(w, 2 * u, d);
    MulOrder(w, 2 * (s - u), d);
    assert (2 * u) * d == 2 * u * d == 2 * (u * d);
    assert (2 * (s - u)) * d == 2 * (s * d) - 2 * (u * d);
    MulOrder(d, 255, s);
    assert d * s == s * d;
  }

  lemma Squeeze(w: int, k: int, d: int)
    requires 0 <= w && -d <= k <= d
    ensures -(w * d) <= w * k <= w * d
  {
    MulOrder(k, d, w);
    MulOrder(-d, k, w);
  }

  /** The path darkens one rounding step at a time, and it runs from black to the colour itself. */
  lemma PathMonotone(a: Color, u: int, v: int)
    requires 0 <= u <= v <= SCALE
    ensures ColorAt(PathOf(a), u).NoBrighterThan(ColorAt(PathOf(a), v))
  {
    var p := PathOf(a);
    GridOrder(u, v);
    forall i | 0 <= i < 3
      ensures ChannelAt(p.c[i], p.l2, p.d, u) <= ChannelAt(p.c[i], p.l2, p.d, v)
    {
      GridIsExact(p.c[i], p.l2, p.d, u);
      GridIsExact(p.c[i], p.l2, p.d, v);
      ExactMonotone(p.c[i], p.l2, p.d, GridPoint(u), GridPoint(v));
    }
  }

  lemma PathEnds(a: Color)
    ensures 0 <= PathOf(a).top <= SCALE
    ensures ColorAt(PathOf(a), 0) == BLACK
    ensures ColorAt(PathOf(a), PathOf(a).top) == a
  {
    var p := PathOf(a);
    forall i | 0 <= i < 3
      ensures ChannelAt(p.c[i], p.l2, p.d, 0) == 0
      ensures ChannelAt(p.c[i], p.l2, p.d, p.top) == p.c[i]
    {
      TopChannel(p.c[i], p.l2, p.d);
    }
  }

  lemma TopChannel(c: int, l2: int, d: int)
    requires OnPath(c, l2, d)
    requires d == 255 - Abs(l2 - 255) || (d == 1 && 2 * c == l2 && (l2 == 0 || l2 == 510))
    ensures ChannelAt(c, l2, d, 0) == 0
    ensures ChannelAt(c, l2, d, l2 * STEP) == c
  {
    var k, u := 2 * c - l2, l2 * STEP;
    assert SCALE == 510 * STEP;
    assert Spread(0) == 0 && Spread(u) * k == 2 * STEP * d * k by {
      assert Spread(u) == 2 * STEP * (255 - Abs(l2 - 255));
    }
    assert Numerator(c, l2, d, 0) == 255 * (0 * d + 0 * k) + SCALE * d;
    assert Numerator(c, l2, d, u) == 255 * (2 * u * d + Spread(u) * k) + SCALE * d;
    assert ChannelAt(c, l2, d, 0) == Numerator(c, l2, d, 0) / (2 * SCALE * d);
    assert ChannelAt(c, l2, d, u) == Numerator(c, l2, d, u) / (2 * SCALE * d);
    assert 1 <= d;
    hide *;
    TopNumerator(c, l2, d, STEP, k, u);
    DivideExactly(0, SCALE * d, 2 * SCALE * d);
    DivideExactly(c, SCALE * d, 2 * SCALE * d);
  }

  lemma TopNumerator(c: int, l2: int, d: int, s: int, k: int, u: int)
    requires k == 2 * c - l2 && u == l2 * s && d >= 1 && s >= 1
    ensures 255 * (2 * u * d + 2 * s * d * k) == c * (2 * (510 * s) * d)
    ensures 0 <= (510 * s) * d < 2 * (510 * s) * d
  {
    assert s * d >= 1;
    assert u * d == l2 * (s * d);
    assert 2 * s * d * k == 2 * (s * d) * k == 4 * (c * (s * d)) - 2 * (l2 * (s * d));
  }

  // ------------------------------------------------- the grid loses no colour

  /** Two channels cannot both change value inside one grid step, one at or before `x` and the other after
      it: the crossings are rationals with denominators 510 * slope, so distinct ones lie further apart
      than 1/SCALE. */
  lemma NoTwoCrossings(ci: int, cj: int, l2: int, d: int, u: int, x: real, upper: bool)
    requires OnPath(ci, l2, d) && OnPath(cj, l2, d)
    requires GridPoint(u) < x < GridPoint(u + 1)
    requires if upper then SCALE <= 2 * u else 2 * (u + 1) <= SCALE
    requires ChannelAt(ci, l2, d, u) < ExactChannel(ci, l2, d, x)
    ensures ChannelAt(cj, l2, d, u + 1) <= ExactChannel(cj, l2, d, x)
  {
    hide *;
    GridHalf(u);
    GridHalf(u + 1);
    var p := CrossedBy(ci, l2, d, u, x, upper);
    var q := NotYetCrossed(cj, l2, d, u + 1, x, upper);
    SlopeRange(ci, l2, d, upper);
    SlopeRange(cj, l2, d, upper);
    CrossingsApart(Slope(ci, l2, d, upper), Slope(cj, l2, d, upper), p, q, u, x);
  }

  /** A channel that changed between `u` and `x` has a level its line reached in between. */
  lemma CrossedBy(c: int, l2: int, d: int, u: int, x: real, upper: bool) returns (p: int)
    requires OnPath(c, l2, d)
    requires if upper then SCALE <= 2 * u && 1.0 <= 2.0 * x else 2 * u <= SCALE && 2.0 * x <= 1.0
    requires ChannelAt(c, l2, d, u) < ExactChannel(c, l2, d, x)
    ensures 510 * (Slope(c, l2, d, upper) * u) < p * SCALE
    ensures 510.0 * Line(Slope(c, l2, d, upper), x) >= p as real
  {
    var m := ExactChannel(c, l2, d, x);
    hide *;
    p := Level(c, l2, d, upper, m);
    Threshold(c, l2, d, x, upper, m);
    GridThreshold(c, l2, d, u, upper, m);
  }

  /** The next level above a channel's value at `x`; if its line is below it at `v` too, so is the channel. */
  lemma NotYetCrossed(c: int, l2: int, d: int, v: int, x: real, upper: bool) returns (q: int)
    requires OnPath(c, l2, d)
    requires if upper then SCALE <= 2 * v && 1.0 <= 2.0 * x else 2 * v <= SCALE && 2.0 * x <= 1.0
    ensures 510.0 * Line(Slope(c, l2, d, upper), x) < q as real
    ensures 510 * (Slope(c, l2, d, upper) * v) < q * SCALE ==> ChannelAt(c, l2, d, v) <= ExactChannel(c, l2, d, x)
  {
    var n := ExactChannel(c, l2, d, x) + 1;
    hide *;
    q := Level(c, l2, d, upper, n);
    Threshold(c, l2, d, x, upper, n);
    GridThreshold(c, l2, d, v, upper, n);
  }

  /** The number theory of the above: a crossing p/(510 bi) in (u/SCALE, x] and a level q/(510 bj) beyond x
      put the level beyond (u+1)/SCALE. */
  lemma CrossingsApart(bi: int, bj: int, p: int, q: int, u: int, x: real)
    requires 0 <= bi <= 510 && 0 <= bj <= 510
    requires 510 * (bi * u) < p * SCALE && 510.0 * Line(bi, x) >= p as real
    requires 510.0 * Line(bj, x) < q as real
    ensures 510 * (bj * (u + 1)) < q * SCALE
  {
    if bj > 0 {
      assert bi > 0;
      CrossProduct(bi, bj, p, q, x);
      FarApart(bi, bj, bi * u, p, q, SCALE);
      assert bj * (u + 1) == bj * u + bj;
      CancelFactor(bi, bj * u + bj, bj * (bi * u) + bi * bj, q, SCALE);
    }
  }

  lemma FarApart(bi: int, bj: int, biu: int, p: int, q: int, s: int)
    requires 0 < bi <= 510 && 0 < bj <= 510 && s > 510 * 510 * 510
    requires 510 * biu < p * s && p * bj + 1 <= q * bi
    ensures 510 * (bj * biu + bi * bj) < (q * bi) * s
  {
    MulOrder(510 * biu, p * s, bj);
    assert (510 * biu) * bj == 510 * (bj * biu);
    assert (p * s) * bj == (p * bj) * s;
    MulOrder(p * bj + 1, q * bi, s);
    assert (p * bj + 1) * s == (p * bj) * s + s;
    MulOrder(bi, 510, bj);
  }

  lemma CancelFactor(b: int, t: int, bt: int, q: int, s: int)
    requires b > 0 && bt == b * t && 510 * bt < (q * b) * s
    ensures 510 * t < q * s
  {
    assert (q * b) * s == (q * s) * b;
    assert (510 * t) * b == 510 * bt;
    if 510 * t >= q * s { MulOrder(q * s, 510 * t, b); }
  }

  /** p/(510 bi) <= x < q/(510 bj), without the divisions and without x. */
  lemma CrossProduct(bi: int, bj: int, p: int, q: int, x: real)
    requires bi > 0 && bj > 0
    requires 510.0 * Line(bi, x) >= p as real
    requires 510.0 * Line(bj, x) < q as real
    ensures p * bj + 1 <= q * bi
  {
    var ri, rj, rp, rq := bi as real, bj as real, p as real, q as real;
    assert (510.0 * (ri * x) - rp) * rj >= 0.0;
    assert (rq - 510.0 * (rj * x)) * ri > 0.0;
    assert 510.0 * (ri * x) * rj == 510.0 * (rj * x) * ri;
    assert (q * bi) as real == rq * ri && (p * bj) as real == rp * rj;
  }

  /** Both ends of the grid step that `x` lies in, channel by channel. */
  lemma SandwichAll(a: Color, x: real, u: int)
    requires GridPoint(u) <= x < GridPoint(u + 1)
    ensures var p := PathOf(a);
            forall i :: 0 <= i < 3 ==>
              && OnPath(p.c[i], p.l2, p.d)
              && ChannelAt(p.c[i], p.l2, p.d, u) <= ExactChannel(p.c[i], p.l2, p.d, x) <= ChannelAt(p.c[i], p.l2, p.d, u + 1)
              && (x == GridPoint(u) ==> ChannelAt(p.c[i], p.l2, p.d, u) == ExactChannel(p.c[i], p.l2, p.d, x))
  {
    var p := PathOf(a);
    forall i | 0 <= i < 3
      ensures OnPath(p.c[i], p.l2, p.d)
      ensures ChannelAt(p.c[i], p.l2, p.d, u) <= ExactChannel(p.c[i], p.l2, p.d, x) <= ChannelAt(p.c[i], p.l2, p.d, u + 1)
      ensures x == GridPoint(u) ==> ChannelAt(p.c[i], p.l2, p.d, u) == ExactChannel(p.c[i], p.l2, p.d, x)
    {
      Sandwich(p.c[i], p.l2, p.d, u, x);
    }
  }

  lemma PathFits(a: Color)
    ensures var p := PathOf(a);
            |p.c| == 3 && p.top == p.l2 * STEP && 0 <= p.top <= SCALE && forall i :: 0 <= i < 3 ==> OnPath(p.c[i], p.l2, p.d)
  {
    PathEnds(a);
  }

  /** Grid completeness: every colour the exact path takes at or below the colour's own lightness is the
      colour of some grid step between 0 and top. */
  lemma GridIsComplete(a: Color, x: real) returns (u: int)
    requires 0.0 <= x <= Lightness(a)
    ensures 0 <= u <= PathOf(a).top <= SCALE && Lightness(a) <= 1.0
    ensures ColorAt(PathOf(a), u) == Darkened(a, x)
  {
    hide PathOf, OnPath, ChannelAt, ExactChannel, GridPoint, Lightness, Carried;
    var p := PathOf(a);
    PathFits(a);
    PathIsOwn(a);
    LightnessMeans(a);
    u := (x * SCALE as real).Floor;
    Bracket(p.l2, p.top, x, u);
    SandwichAll(a, x, u);
    DarkenedIsExact(a, x);
    if i :| 0 <= i < 3 && ChannelAt(p.c[i], p.l2, p.d, u) < ExactChannel(p.c[i], p.l2, p.d, x) {
      forall j | 0 <= j < 3
        ensures ChannelAt(p.c[j], p.l2, p.d, u + 1) == ExactChannel(p.c[j], p.l2, p.d, x)
      {
        NoTwoCrossings(p.c[i], p.c[j], p.l2, p.d, u, x, SCALE <= 2 * u);
      }
      u := u + 1;
    }
  }

  lemma Bracket(l2: int, top: int, x: real, u: int)
    requires 0.0 <= x <= l2 as real / 510.0 && top == l2 * STEP && u == (x * SCALE as real).Floor
    ensures GridPoint(u) <= x < GridPoint(u + 1)
    ensures 0 <= u <= top && (x != GridPoint(u) ==> u < top)
  {
  }

  lemma Sandwich(c: int, l2: int, d: int, u: int, x: real)
    requires OnPath(c, l2, d) && GridPoint(u) <= x < GridPoint(u + 1)
    ensures ChannelAt(c, l2, d, u) <= ExactChannel(c, l2, d, x) <= ChannelAt(c, l2, d, u + 1)
    ensures x == GridPoint(u) ==> ChannelAt(c, l2, d, u) == ExactChannel(c, l2, d, x)
  {
    hide *;
    GridIsExact(c, l2, d, u);
    GridIsExact(c, l2, d, u + 1);
    ExactMonotone(c, l2, d, GridPoint(u), x);
    ExactMonotone(c, l2, d, x, GridPoint(u + 1));
  }

  // ---------------------------------------------------------------- the code

  /** `at`, channel by channel. */
  method At(p: Path, u: int) returns (color: Color)
    requires |p.c| == 3 && (forall i :: 0 <= i < 3 ==> OnPath(p.c[i], p.l2, p.d)) && 0 <= u <= SCALE
    ensures color == ColorAt(p, u)
  {
    var w := SCALE - Abs(2 * u - SCALE);
    var den := 2 * SCALE * p.d;
    var out: array<Byte> := new Byte[3](_ => 0);
    for i := 0 to 3
      invariant forall j :: 0 <= j < i ==> out[j] == ChannelAt(p.c[j], p.l2, p.d, u)
    {
      ChannelAtIsByte(p.c[i], p.l2, p.d, u);
      AtFitsInt64(p.c[i], p.l2, p.d, u);
      out[i] := (255 * (2 * u * p.d + w * (2 * p.c[i] - p.l2)) + SCALE * p.d) / den;
    }
    color := Color(out[0], out[1], out[2]);
  }

  /** The bisection, for a refused colour: the largest grid step whose colour passes, and all below it. */
  method SuggestStep(lin: seq<real>, a: Color) returns (p: Path, step: int)
    requires IsTable(lin) && !Passes(lin, a)
    ensures p == PathOf(a) && 0 <= step < p.top <= SCALE
    ensures forall u :: 0 <= u <= p.top ==> (Passes(lin, ColorAt(p, u)) <==> u <= step)
  {
    p := PathOf(a);
    PathEnds(a);
    BlackPasses(lin);
    var lo, hi := 0, p.top;
    while hi - lo > 1
      invariant 0 <= lo < hi <= p.top
      invariant Passes(lin, ColorAt(p, lo)) && !Passes(lin, ColorAt(p, hi))
    {
      var mid := lo + (hi - lo) / 2;
      var c := At(p, mid);
      if Check(lin, c).Accepted? { lo := mid; } else { hi := mid; }
    }
    step := lo;
    forall u | 0 <= u <= p.top
      ensures Passes(lin, ColorAt(p, u)) <==> u <= step
    {
      PathMonotone(a, u, p.top);
      PathMonotone(a, step, p.top);
      if u <= step {
        PathMonotone(a, u, step);
        PassingIsDownClosed(lin, a, ColorAt(p, step), ColorAt(p, u));
      } else if Passes(lin, ColorAt(p, u)) {
        PathMonotone(a, hi, u);
        PassingIsDownClosed(lin, a, ColorAt(p, u), ColorAt(p, hi));
      }
    }
  }

  lemma StepIsDarkened(a: Color, u: int)
    requires 0 <= u <= PathOf(a).top <= SCALE
    ensures 0.0 <= GridPoint(u) <= Lightness(a) <= 1.0
    ensures Darkened(a, GridPoint(u)) == ColorAt(PathOf(a), u)
  {
    hide PathOf, ChannelAt, ExactChannel, Lightness, Carried;
    var p := PathOf(a);
    PathFits(a);
    PathIsOwn(a);
    LightnessMeans(a);
    GridOrder(0, u);
    GridOrder(u, p.top);
    TopPoint(p.l2);
    forall i | 0 <= i < 3
      ensures ChannelAt(p.c[i], p.l2, p.d, u) == ExactChannel(p.c[i], p.l2, p.d, GridPoint(u))
    {
      GridIsExact(p.c[i], p.l2, p.d, u);
    }
    DarkenedIsExact(a, GridPoint(u));
  }

  lemma TopPoint(l2: int)
    ensures GridPoint(l2 * STEP) == l2 as real / 510.0
  {
  }

  /** No passing colour of the exact path is above the brightest passing one of the grid. */
  lemma NoneBrighter(lin: seq<real>, a: Color, u: int, x: real)
    requires IsTable(lin) && 0 <= u <= PathOf(a).top <= SCALE && 0.0 <= x <= Lightness(a) <= 1.0
    requires forall v :: 0 <= v <= PathOf(a).top ==> (Passes(lin, ColorAt(PathOf(a), v)) <==> v <= u)
    requires Passes(lin, Darkened(a, x))
    ensures Darkened(a, x).NoBrighterThan(ColorAt(PathOf(a), u))
  {
    hide PathOf, ColorAt, Darkened, Passes, Lightness, Color.NoBrighterThan;
    var v := GridIsComplete(a, x);
    PathMonotone(a, v, u);
  }

  /** The suggestion passes, keeps an accent that passes, brightens no channel, and is the accent darkened at its own
      hue and saturation to some lightness at or below its own, no further than it has to be: no passing
      colour of that path exceeds it in any channel. */
  method Suggest(lin: seq<real>, a: Color) returns (s: Color)
    requires IsTable(lin)
    ensures Passes(lin, s) && s.NoBrighterThan(a)
    ensures Passes(lin, a) ==> s == a
    ensures !Passes(lin, a) ==> exists x :: 0.0 <= x <= Lightness(a) <= 1.0 && Darkened(a, x) == s
    ensures !Passes(lin, a) ==>
              forall x :: 0.0 <= x <= Lightness(a) <= 1.0 && Passes(lin, Darkened(a, x)) ==> Darkened(a, x).NoBrighterThan(s)
  {
    hide PathOf, ColorAt, Darkened, Lightness, Color.NoBrighterThan, IsTable;
    if Check(lin, a).Accepted? {
      ItselfNoBrighter(a);
      return a;
    }
    var p, u := SuggestStep(lin, a);
    PathFits(a);
    s := At(p, u);
    PathEnds(a);
    PathMonotone(a, u, p.top);
    StepIsDarkened(a, u);
    forall x | 0.0 <= x <= Lightness(a) && Passes(lin, Darkened(a, x))
      ensures Darkened(a, x).NoBrighterThan(s)
    {
      NoneBrighter(lin, a, u, x);
    }
  }

  lemma ItselfNoBrighter(a: Color)
    ensures a.NoBrighterThan(a)
  {
  }
}
