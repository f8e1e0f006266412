/** The logo's box filter (internal/brand/logo_resize.go).

    The code is separable: tap lists with exact integer weights along each axis, one row of sums, one row of
    accumulators, then rounding and un-premultiplying. `AreaSum` is what the two axes form; it is
    (`SeparableIsArea`) the sum, over every source pixel, of the area an output pixel shares with it times the
    sample. The method `Resize` is proved
    to compute `Filtered`, which is `AreaSum` rounded to nearest, and the lemmas say what that is.
 */
module LogoResize {
  import opened Arith

  // ------------------------------------------------------ one axis: exact area weights

  /** The length that output pixel `d` of `dn` and source pixel `s` of `sn` share on the axis, in units
      where a source pixel is dn wide and an output pixel sn wide. */
  function Overlap(sn: nat, dn: nat, d: nat, s: nat): nat {
    var lo := if d * sn < s * dn then s * dn else d * sn;
    var hi := if (d + 1) * sn < (s + 1) * dn then (d + 1) * sn else (s + 1) * dn;
    if lo < hi then hi - lo else 0
  }

  /** How much of output pixel `d` lies before source position `n`. */
  function Reach(sn: nat, dn: nat, d: nat, n: nat): nat {
    var x := n * dn - d * sn;
    if x < 0 then 0 else if x < sn then x else sn
  }

  lemma OverlapIsStep(sn: nat, dn: nat, d: nat, s: nat)
    ensures Overlap(sn, dn, d, s) == Reach(sn, dn, d, s + 1) - Reach(sn, dn, d, s)
    ensures Overlap(sn, dn, d, s) == Overlap(dn, sn, s, d)
  {
    assert (d + 1) * sn == d * sn + sn && (s + 1) * dn == s * dn + dn;
  }

  /** The weighted sum of the first `n` values along an axis. */
  function Dot(dn: nat, d: nat, vals: seq<nat>, n: nat): nat
    requires n <= |vals|
  {
    if n == 0 then 0 else Dot(dn, d, vals, n - 1) + Overlap(|vals|, dn, d, n - 1) * vals[n - 1]
  }

  lemma DotOneMore(dn: nat, d: nat, vals: seq<nat>, n: nat)
    requires n < |vals|
    ensures Dot(dn, d, vals, n + 1) == Dot(dn, d, vals, n) + Overlap(|vals|, dn, d, n) * vals[n]
  {
    hide Overlap;
  }

  lemma DotOfNone(dn: nat, d: nat, vals: seq<nat>)
    ensures Dot(dn, d, vals, 0) == 0
  {
  }

  /** The weighted sum over the whole axis: |vals| times the mean that output pixel `d` of `dn` sees. */
  function Box(vals: seq<nat>, dn: nat, d: nat): nat {
    Dot(dn, d, vals, |vals|)
  }

  lemma ReachEnds(sn: nat, dn: nat, d: nat)
    requires d < dn
    ensures Reach(sn, dn, d, 0) == 0 && Reach(sn, dn, d, sn) == sn
  {
    MulOrder(d + 1, dn, sn);
    assert (d + 1) * sn == d * sn + sn;
    MulOrder(0, d, sn);
  }

  /** Values between `lo` and `hi` have a weighted sum between `lo` and `hi` times the weights' sum. */
  lemma {:induction false} DotBetween(dn: nat, d: nat, vals: seq<nat>, n: nat, lo: nat, hi: nat)
    requires n <= |vals| && forall i :: 0 <= i < n ==> lo <= vals[i] <= hi
    ensures lo * (Reach(|vals|, dn, d, n) - Reach(|vals|, dn, d, 0))
         <= Dot(dn, d, vals, n)
         <= hi * (Reach(|vals|, dn, d, n) - Reach(|vals|, dn, d, 0))
  {
    hide Reach, Overlap, Dot;
    if n == 0 {
      DotOfNone(dn, d, vals);
    } else {
      DotOneMore(dn, d, vals, n - 1);
      DotBetween(dn, d, vals, n - 1, lo, hi);
      OverlapIsStep(|vals|, dn, d, n - 1);
      Between(Reach(|vals|, dn, d, n - 1) - Reach(|vals|, dn, d, 0), Overlap(|vals|, dn, d, n - 1),
              Dot(dn, d, vals, n - 1), vals[n - 1], lo, hi);
    }
  }

  lemma Between(weights: int, w: nat, sum: int, v: nat, lo: nat, hi: nat)
    requires lo * weights <= sum <= hi * weights && lo <= v <= hi
    ensures lo * (weights + w) <= sum + w * v <= hi * (weights + w)
  {
    MulOrder(lo, v, w);
    MulOrder(v, hi, w);
    AddMul(weights, w, lo);
    AddMul(weights, w, hi);
  }

  /** Each output pixel's weights add up to the source length, so the weighted sum over that length is a
      mean: it lies between the smallest and the largest value. */
  lemma BoxIsMean(vals: seq<nat>, dn: nat, d: nat, lo: nat, hi: nat)
    requires d < dn && forall i :: 0 <= i < |vals| ==> lo <= vals[i] <= hi
    ensures lo * |vals| <= Box(vals, dn, d) <= hi * |vals|
  {
    DotBetween(dn, d, vals, |vals|, lo, hi);
    ReachEnds(|vals|, dn, d);
  }

  lemma {:induction false} DotMonotone(dn: nat, d: nat, vals: seq<nat>, more: seq<nat>, n: nat)
    requires n <= |vals| == |more| && forall i :: 0 <= i < n ==> vals[i] <= more[i]
    ensures Dot(dn, d, vals, n) <= Dot(dn, d, more, n)
  {
    if n > 0 {
      DotMonotone(dn, d, vals, more, n - 1);
      MulOrder(vals[n - 1], more[n - 1], Overlap(|vals|, dn, d, n - 1));
    }
  }

  /** At equal sizes an output pixel is its own source pixel. */
  lemma {:induction false} DotAtEqualSize(d: nat, vals: seq<nat>, n: nat)
    requires d < |vals| && n <= |vals|
    ensures Dot(|vals|, d, vals, n) == if d < n then |vals| * vals[d] else 0
  {
    if n > 0 {
      DotAtEqualSize(d, vals, n - 1);
      var m, s := |vals|, n - 1;
      assert (d + 1) * m == d * m + m && (s + 1) * m == s * m + m;
      if d < s { MulOrder(d + 1, s, m); } else if s < d { MulOrder(s + 1, d, m); }
    }
  }

  function Total(vals: seq<nat>, n: nat): nat
    requires n <= |vals|
  {
    if n == 0 then 0 else Total(vals, n - 1) + vals[n - 1]
  }

  /** The first `m` output pixels' weighted sums, added up. */
  function Spread(dn: nat, vals: seq<nat>, n: nat, m: nat): nat
    requires n <= |vals|
  {
    if m == 0 then 0 else Spread(dn, vals, n, m - 1) + Dot(dn, m - 1, vals, n)
  }

  lemma {:induction false} SpreadStep(dn: nat, vals: seq<nat>, n: nat, m: nat)
    requires n < |vals| && m <= dn
    ensures Spread(dn, vals, n + 1, m) == Spread(dn, vals, n, m) + Reach(dn, |vals|, n, m) * vals[n]
  {
    if m == 0 {
      MulOrder(0, n, dn);
    } else {
      var v, r, o := vals[n], Reach(dn, |vals|, n, m - 1), Overlap(|vals|, dn, m - 1, n);
      hide Reach, Overlap;
      SpreadStep(dn, vals, n, m - 1);
      OverlapIsStep(|vals|, dn, m - 1, n);
      OverlapIsStep(dn, |vals|, n, m - 1);
      DotOneMore(dn, m - 1, vals, n);
      hide Dot;
      Gather(Spread(dn, vals, n, m - 1), Dot(dn, m - 1, vals, n), Reach(dn, |vals|, n, m), r, o, v);
    }
  }

  lemma Gather(s: int, d: int, whole: int, r: int, o: int, v: int)
    requires whole == r + o
    ensures (s + r * v) + (d + o * v) == (s + d) + whole * v
  {
    AddMul(r, o, v);
  }

  /** Each source pixel's weights over all output pixels add up to the output length: the filter neither
      loses nor invents any of a row's light. */
  lemma {:induction false} AxisConserves(dn: nat, vals: seq<nat>, n: nat)
    requires n <= |vals|
    ensures Spread(dn, vals, n, dn) == dn * Total(vals, n)
  {
    hide Reach, Dot;
    if n == 0 {
      SpreadOfNothing(dn, vals, dn);
    } else {
      AxisConserves(dn, vals, n - 1);
      SpreadStep(dn, vals, n - 1, dn);
      ReachEnds(dn, |vals|, n - 1);
      AddMul(Total(vals, n - 1), vals[n - 1], dn);
    }
  }

  lemma {:induction false} SpreadOfNothing(dn: nat, vals: seq<nat>, m: nat)
    ensures Spread(dn, vals, 0, m) == 0
  {
    if m > 0 { SpreadOfNothing(dn, vals, m - 1); }
  }

  // ------------------------------------------------------------------ taps

  datatype Tap = Tap(src: nat, weight: nat)

  /** The source pixels among the first `n` that output pixel `d` overlaps, in order, each with its share. */
  function TapList(sn: nat, dn: nat, d: nat, n: nat): seq<Tap> {
    if n == 0 then []
    else
      var w := Overlap(sn, dn, d, n - 1);
      TapList(sn, dn, d, n - 1) + if w > 0 then [Tap(n - 1, w)] else []
  }

  lemma {:induction false} TapsInRange(sn: nat, dn: nat, d: nat, n: nat)
    ensures forall t :: t in TapList(sn, dn, d, n) ==> t.src < n && t.weight > 0
  {
    if n > 0 { TapsInRange(sn, dn, d, n - 1); }
  }

  /** Stretches of an axis an output pixel does not meet contribute no tap. */
  lemma {:induction false} NoTapsBetween(sn: nat, dn: nat, d: nat, from: nat, to: nat)
    requires from <= to
    requires to * dn <= d * sn || (d + 1) * sn <= from * dn
    ensures TapList(sn, dn, d, to) == TapList(sn, dn, d, from)
  {
    if from < to {
      MulOrder(to - 1, to, dn);
      MulOrder(from, to - 1, dn);
      assert (to - 1 + 1) * dn == to * dn;
      NoTapsBetween(sn, dn, d, from, to - 1);
    }
  }

  /** `logoTaps`: the search starts at the source pixel under the output pixel's left edge and ends past
      its right edge, and still misses no overlap. */
  method Taps(sn: nat, dn: nat) returns (taps: seq<seq<Tap>>)
    requires dn > 0
    ensures |taps| == dn
    ensures forall d :: 0 <= d < dn ==> taps[d] == TapList(sn, dn, d, sn)
  {
    taps := [];
    for d := 0 to dn
      invariant |taps| == d
      invariant forall e :: 0 <= e < d ==> taps[e] == TapList(sn, dn, e, sn)
    {
      var lo, hi := d * sn, (d + 1) * sn;
      MulOrder(0, d, sn);
      MulOrder(d + 1, dn, sn);
      var s, row := lo / dn, [];
      NoTapsBetween(sn, dn, d, 0, s);
      while s * dn < hi
        invariant 0 <= s && row == TapList(sn, dn, d, s)
        decreases hi - s * dn
      {
        var a := if lo < s * dn then s * dn else lo;
        var b := if hi < (s + 1) * dn then hi else (s + 1) * dn;
        if b > a { row := row + [Tap(s, b - a)]; }
        s := s + 1;
      }
      AfterLast(sn, dn, d, s);
      taps := taps + [row];
    }
  }

  lemma AfterLast(sn: nat, dn: nat, d: nat, s: nat)
    requires d < dn && (d + 1) * sn <= s * dn
    ensures TapList(sn, dn, d, s) == TapList(sn, dn, d, sn)
  {
    if sn <= s {
      MulOrder(d + 1, dn, sn);
      NoTapsBetween(sn, dn, d, sn, s);
    } else {
      NoTapsBetween(sn, dn, d, s, sn);
    }
  }

  /** The sum the inner loops form: the taps' weights times the samples under them. */
  function TapDot(taps: seq<Tap>, vals: seq<nat>): nat
    requires forall t :: t in taps ==> t.src < |vals|
  {
    if taps == [] then 0
    else
      var t := taps[|taps| - 1];
      TapDot(taps[..|taps| - 1], vals) + t.weight * vals[t.src]
  }

  /** Going over the taps alone is going over the whole axis. */
  lemma {:induction false} TapsCoverTheAxis(dn: nat, d: nat, vals: seq<nat>, n: nat)
    requires n <= |vals|
    ensures forall t :: t in TapList(|vals|, dn, d, n) ==> t.src < |vals|
    ensures TapDot(TapList(|vals|, dn, d, n), vals) == Dot(dn, d, vals, n)
  {
    hide *;
    TapsInRange(|vals|, dn, d, n);
    DotStep(dn, d, vals, n);
    TapListStep(|vals|, dn, d, n);
    if n == 0 {
      TapDotOfNone(TapList(|vals|, dn, d, n), vals);
    } else {
      var w, init := Overlap(|vals|, dn, d, n - 1), TapList(|vals|, dn, d, n - 1);
      TapsCoverTheAxis(dn, d, vals, n - 1);
      TapDotAppend(init, Tap(n - 1, w), vals);
    }
  }

  lemma DotStep(dn: nat, d: nat, vals: seq<nat>, n: nat)
    requires n <= |vals|
    ensures Dot(dn, d, vals, n)
         == if n == 0 then 0 else Dot(dn, d, vals, n - 1) + Overlap(|vals|, dn, d, n - 1) * vals[n - 1]
  {
    hide Overlap;
  }

  lemma TapListStep(sn: nat, dn: nat, d: nat, n: nat)
    ensures n == 0 ==> TapList(sn, dn, d, n) == []
    ensures n > 0 && Overlap(sn, dn, d, n - 1) > 0 ==>
              TapList(sn, dn, d, n) == TapList(sn, dn, d, n - 1) + [Tap(n - 1, Overlap(sn, dn, d, n - 1))]
    ensures n > 0 && Overlap(sn, dn, d, n - 1) == 0 ==> TapList(sn, dn, d, n) == TapList(sn, dn, d, n - 1)
  {
    hide Overlap;
  }

  lemma TapDotOfNone(taps: seq<Tap>, vals: seq<nat>)
    requires taps == []
    ensures TapDot(taps, vals) == 0
  {
  }

  lemma TapDotAppend(init: seq<Tap>, t: Tap, vals: seq<nat>)
    requires (forall t :: t in init ==> t.src < |vals|) && t.src < |vals|
    ensures TapDot(init + [t], vals) == TapDot(init, vals) + t.weight * vals[t.src]
  {
    assert (init + [t])[..|init|] == init;
  }

  lemma {:induction false} PartialSumsGrow(taps: seq<Tap>, vals: seq<nat>, k: nat)
    requires k <= |taps| && forall t :: t in taps ==> t.src < |vals|
    ensures TapDot(taps[..k], vals) <= TapDot(taps, vals)
  {
    if k == |taps| {
      assert taps[..k] == taps;
    } else {
      var init := taps[..|taps| - 1];
      PartialSumsGrow(init, vals, k);
      assert init[..k] == taps[..k];
    }
  }

  // ----------------------------------------------------------- two dimensions

  /** A premultiplied 16-bit sample, as color.RGBA64 holds it. */
  datatype Pixel = Pixel(r: nat, g: nat, b: nat, a: nat) {
    function Channel(c: nat): nat { if c == 0 then r else if c == 1 then g else if c == 2 then b else a }

    predicate Premultiplied() { r <= a && g <= a && b <= a && a <= 0xFFFF }
  }

  /** `sum` over `norm`, rounded half up. */
  function Rounded(sum: nat, norm: nat): nat
    requires norm > 0
  {
    (sum + norm / 2) / norm
  }

  datatype Image = Image(w: nat, h: nat, rows: seq<seq<Pixel>>) {
    ghost predicate Valid() {
      && w >= 1 && h >= 1 && |rows| == h
      && (forall y :: 0 <= y < h ==> |rows[y]| == w)
      && forall y, x :: 0 <= y < h && 0 <= x < w ==> rows[y][x].Premultiplied()
    }

    /** One channel of a source row. */
    ghost function Row(y: nat, c: nat): (r: seq<nat>)
      requires Valid() && y < h
      ensures |r| == w && forall x :: 0 <= x < w ==> r[x] == rows[y][x].Channel(c)
    {
      seq(w, x requires 0 <= x < w => rows[y][x].Channel(c))
    }

    /** A channel of every source row, summed over what output column `dx` covers of it. */
    ghost function Column(dw: nat, dx: nat, c: nat): (r: seq<nat>)
      requires Valid()
      ensures |r| == h && forall y :: 0 <= y < h ==> r[y] == Box(Row(y, c), dw, dx)
    {
      seq(h, y requires 0 <= y < h => Box(Row(y, c), dw, dx))
    }

    /** The area sum as the separable code forms it, along the rows and then across them. */
    ghost function AreaSum(dw: nat, dh: nat, dx: nat, dy: nat, c: nat): nat
      requires Valid()
    {
      Box(Column(dw, dx, c), dh, dy)
    }

    /** The area-weighted mean, rounded to nearest. */
    ghost function Mean(dw: nat, dh: nat, dx: nat, dy: nat, c: nat): nat
      requires Valid()
    {
      Positive(w, h);
      Rounded(AreaSum(dw, dh, dx, dy, c), w * h)
    }

    /** The byte written: the mean un-premultiplied and cut to 8 bits, 0 where nothing shows. */
    ghost function Filtered(dw: nat, dh: nat, dx: nat, dy: nat, c: nat): nat
      requires Valid()
    {
      var a := Mean(dw, dh, dx, dy, 3);
      if a == 0 then 0
      else if c < 3 then Mean(dw, dh, dx, dy, c) * 0xFFFF / a / 256
      else a / 256
    }
  }

  // The area sum as it is meant: over every source pixel, the area it shares with the output pixel, which is
  // the product of the two axes' overlaps, times its sample.
  function Times(a: nat, b: nat): nat {
    MulOrder(0, a, b);
    a * b
  }

  ghost function RowArea(src: Image, dw: nat, dh: nat, dx: nat, dy: nat, c: nat, y: nat, n: nat): nat
    requires src.Valid() && y < src.h && n <= src.w
  {
    if n == 0 then 0
    else
      var shared := Times(Overlap(src.w, dw, dx, n - 1), Overlap(src.h, dh, dy, y));
      RowArea(src, dw, dh, dx, dy, c, y, n - 1) + Times(shared, src.rows[y][n - 1].Channel(c))
  }

  ghost function Area(src: Image, dw: nat, dh: nat, dx: nat, dy: nat, c: nat, n: nat): nat
    requires src.Valid() && n <= src.h
  {
    if n == 0 then 0
    else Area(src, dw, dh, dx, dy, c, n - 1) + RowArea(src, dw, dh, dx, dy, c, n - 1, src.w)
  }

  lemma Factor(b: nat, sum: nat, a: nat, v: nat)
    ensures b * sum + Times(Times(a, b), v) == b * (sum + a * v)
  {
    assert a * b * v == b * (a * v);
  }

  lemma RowAreaOneMore(src: Image, dw: nat, dh: nat, dx: nat, dy: nat, c: nat, y: nat, n: nat)
    requires src.Valid() && y < src.h && n < src.w
    ensures RowArea(src, dw, dh, dx, dy, c, y, n + 1) ==
              RowArea(src, dw, dh, dx, dy, c, y, n)
              + Times(Times(Overlap(src.w, dw, dx, n), Overlap(src.h, dh, dy, y)), src.Row(y, c)[n])
  {
    hide Overlap, Times;
  }

  lemma {:induction false} RowAreaFactors(src: Image, dw: nat, dh: nat, dx: nat, dy: nat, c: nat, y: nat, n: nat)
    requires src.Valid() && y < src.h && n <= src.w
    ensures RowArea(src, dw, dh, dx, dy, c, y, n) == Overlap(src.h, dh, dy, y) * Dot(dw, dx, src.Row(y, c), n)
  {
    hide Overlap, Times;
    if n > 0 {
      RowAreaFactors(src, dw, dh, dx, dy, c, y, n - 1);
      RowAreaOneMore(src, dw, dh, dx, dy, c, y, n - 1);
      DotOneMore(dw, dx, src.Row(y, c), n - 1);
      hide RowArea, Dot;
      Factor(Overlap(src.h, dh, dy, y), Dot(dw, dx, src.Row(y, c), n - 1), Overlap(src.w, dw, dx, n - 1), src.Row(y, c)[n - 1]);
    }
  }

  lemma {:induction false} AreaFactors(src: Image, dw: nat, dh: nat, dx: nat, dy: nat, c: nat, n: nat)
    requires src.Valid() && n <= src.h
    ensures Area(src, dw, dh, dx, dy, c, n) == Dot(dh, dy, src.Column(dw, dx, c), n)
  {
    hide Overlap, RowArea;
    if n > 0 {
      AreaFactors(src, dw, dh, dx, dy, c, n - 1);
      RowAreaFactors(src, dw, dh, dx, dy, c, n - 1, src.w);
      DotOneMore(dh, dy, src.Column(dw, dx, c), n - 1);
    }
  }

  /** Separability: summing along rows and then across them is summing over the pixels of the plane. */
  lemma SeparableIsArea(src: Image, dw: nat, dh: nat, dx: nat, dy: nat, c: nat)
    requires src.Valid()
    ensures src.AreaSum(dw, dh, dx, dy, c) == Area(src, dw, dh, dx, dy, c, src.h)
  {
    AreaFactors(src, dw, dh, dx, dy, c, src.h);
    hide Area, Dot;
  }

  /** The rounding is half up, to nearest: twice the mean is at most one more than twice the exact quotient, and
      less than that by less than two. */
  lemma MeanIsNearest(src: Image, dw: nat, dh: nat, dx: nat, dy: nat, c: nat)
    requires src.Valid()
    ensures var norm, sum := src.w * src.h, src.AreaSum(dw, dh, dx, dy, c);
            2 * (src.Mean(dw, dh, dx, dy, c) * norm) <= 2 * sum + norm < 2 * (src.Mean(dw, dh, dx, dy, c) * norm) + 2 * norm
  {
    Positive(src.w, src.h);
    var norm, sum, m := src.w * src.h, src.AreaSum(dw, dh, dx, dy, c), src.Mean(dw, dh, dx, dy, c);
    assert m == Rounded(sum, norm);
    hide *;
    RoundedIsNearest(sum, norm);
  }

  lemma RoundedIsNearest(sum: nat, norm: nat)
    requires norm > 0
    ensures var m := Rounded(sum, norm); 2 * (m * norm) <= 2 * sum + norm < 2 * (m * norm) + 2 * norm
  {
    var m := Rounded(sum, norm);
    FloorAtLeast(sum + norm / 2, norm, m);
    FloorAtLeast(sum + norm / 2, norm, m + 1);
    AddMul(m, 1, norm);
  }

  lemma AreaBetween(src: Image, dw: nat, dh: nat, dx: nat, dy: nat, c: nat, lo: nat, hi: nat)
    requires src.Valid() && dx < dw && dy < dh
    requires forall y, x :: 0 <= y < src.h && 0 <= x < src.w ==> lo <= src.rows[y][x].Channel(c) <= hi
    ensures lo * (src.w * src.h) <= src.AreaSum(dw, dh, dx, dy, c) <= hi * (src.w * src.h)
  {
    hide Box;
    var column := src.Column(dw, dx, c);
    forall y | 0 <= y < src.h
      ensures lo * src.w <= column[y] <= hi * src.w
    {
      BoxIsMean(src.Row(y, c), dw, dx, lo, hi);
    }
    BoxIsMean(column, dh, dy, lo * src.w, hi * src.w);
    hide *;
    assert lo * src.w * src.h == lo * (src.w * src.h) && hi * src.w * src.h == hi * (src.w * src.h);
  }

  /** The filter never leaves the range of the samples it averages; a flat channel stays as it is. */
  lemma MeanBetween(src: Image, dw: nat, dh: nat, dx: nat, dy: nat, c: nat, lo: nat, hi: nat)
    requires src.Valid() && dx < dw && dy < dh
    requires forall y, x :: 0 <= y < src.h && 0 <= x < src.w ==> lo <= src.rows[y][x].Channel(c) <= hi
    ensures lo <= src.Mean(dw, dh, dx, dy, c) <= hi
  {
    AreaBetween(src, dw, dh, dx, dy, c, lo, hi);
    Positive(src.w, src.h);
    RoundBetween(src.AreaSum(dw, dh, dx, dy, c), src.w * src.h, lo, hi);
  }

  lemma RoundBetween(sum: nat, norm: nat, lo: nat, hi: nat)
    requires norm > 0 && lo * norm <= sum <= hi * norm
    ensures lo <= Rounded(sum, norm) <= hi
  {
    FloorAtLeast(sum + norm / 2, norm, lo);
    FloorAtLeast(sum + norm / 2, norm, hi + 1);
    AddMul(hi, 1, norm);
  }

  lemma RoundedOfExact(v: nat, norm: nat)
    requires norm > 0
    ensures v * norm >= 0 && Rounded(v * norm, norm) == v
  {
    MulOrder(0, v, norm);
    DivideExactly(v, norm / 2, norm);
  }

  lemma RoundMonotone(a: nat, b: nat, norm: nat)
    requires norm > 0 && a <= b
    ensures Rounded(a, norm) <= Rounded(b, norm)
  {
    var p := Rounded(a, norm);
    FloorAtLeast(a + norm / 2, norm, p);
    FloorAtLeast(b + norm / 2, norm, p);
  }

  /** No colour channel's mean exceeds the alpha's, so un-premultiplying stays within 16 bits and the
      conversion to a byte loses nothing. */
  lemma FilteredIsByte(src: Image, dw: nat, dh: nat, dx: nat, dy: nat, c: nat)
    requires src.Valid() && dx < dw && dy < dh && c < 4
    ensures src.Mean(dw, dh, dx, dy, c) <= src.Mean(dw, dh, dx, dy, 3) <= 0xFFFF
    ensures src.Filtered(dw, dh, dx, dy, c) <= 255
  {
    forall y | 0 <= y < src.h
      ensures src.Column(dw, dx, c)[y] <= src.Column(dw, dx, 3)[y]
    {
      DotMonotone(dw, dx, src.Row(y, c), src.Row(y, 3), src.w);
    }
    DotMonotone(dh, dy, src.Column(dw, dx, c), src.Column(dw, dx, 3), src.h);
    Positive(src.w, src.h);
    RoundMonotone(src.AreaSum(dw, dh, dx, dy, c), src.AreaSum(dw, dh, dx, dy, 3), src.w * src.h);
    MeanBetween(src, dw, dh, dx, dy, 3, 0, 0xFFFF);
    Unpremultiply(src.Mean(dw, dh, dx, dy, c), src.Mean(dw, dh, dx, dy, 3));
  }

  lemma Unpremultiply(v: nat, a: nat)
    requires v <= a
    ensures a > 0 ==> v * 0xFFFF / a <= 0xFFFF
  {
    if a > 0 {
      FloorAtLeast(v * 0xFFFF, a, 0x10000);
    }
  }

  /** At the source's own size every premultiplied sample maps to itself. */
  lemma SameSizeIsIdentity(src: Image, dx: nat, dy: nat, c: nat)
    requires src.Valid() && dx < src.w && dy < src.h
    ensures src.Mean(src.w, src.h, dx, dy, c) == src.rows[dy][dx].Channel(c)
  {
    hide Dot;
    var w, h, v := src.w, src.h, src.rows[dy][dx].Channel(c);
    DotAtEqualSize(dx, src.Row(dy, c), w);
    DotAtEqualSize(dy, src.Column(w, dx, c), h);
    Positive(w, h);
    var sum, mean := src.AreaSum(w, h, dx, dy, c), src.Mean(w, h, dx, dy, c);
    assert sum == h * (w * v) && mean == Rounded(sum, w * h);
    hide *;
    assert h * (w * v) == v * (w * h);
    RoundedOfExact(v, w * h);
  }

  /** The light of the whole output, before rounding. */
  ghost function Light(src: Image, dw: nat, dh: nat, c: nat, columns: nat): nat
    requires src.Valid()
  {
    if columns == 0 then 0
    else Light(src, dw, dh, c, columns - 1) + Spread(dh, src.Column(dw, columns - 1, c), src.h, dh)
  }

  ghost function Totals(src: Image, c: nat, rows: nat): nat
    requires src.Valid() && rows <= src.h
  {
    if rows == 0 then 0 else Totals(src, c, rows - 1) + Total(src.Row(rows - 1, c), src.w)
  }

  ghost function ColumnTotals(src: Image, dw: nat, c: nat, columns: nat, rows: nat): nat
    requires src.Valid() && rows <= src.h
  {
    if columns == 0 then 0
    else ColumnTotals(src, dw, c, columns - 1, rows) + Total(src.Column(dw, columns - 1, c), rows)
  }

  /** Conservation: over all output pixels the area sums add up to dw * dh times the sum of all samples. */
  lemma LightIsConserved(src: Image, dw: nat, dh: nat, c: nat)
    requires src.Valid()
    ensures Light(src, dw, dh, c, dw) == dw * dh * Totals(src, c, src.h)
  {
    hide *;
    LightByColumns(src, dw, dh, c, dw);
    RowsConserve(src, dw, c, src.h);
    assert dh * (dw * Totals(src, c, src.h)) == dw * dh * Totals(src, c, src.h);
  }

  lemma {:induction false} LightByColumns(src: Image, dw: nat, dh: nat, c: nat, columns: nat)
    requires src.Valid()
    ensures Light(src, dw, dh, c, columns) == dh * ColumnTotals(src, dw, c, columns, src.h)
  {
    hide Spread, Total;
    if columns > 0 {
      LightByColumns(src, dw, dh, c, columns - 1);
      AxisConserves(dh, src.Column(dw, columns - 1, c), src.h);
      AddMul(ColumnTotals(src, dw, c, columns - 1, src.h), Total(src.Column(dw, columns - 1, c), src.h), dh);
    }
  }

  lemma {:induction false} RowsConserve(src: Image, dw: nat, c: nat, rows: nat)
    requires src.Valid() && rows <= src.h
    ensures ColumnTotals(src, dw, c, dw, rows) == dw * Totals(src, c, rows)
  {
    hide Spread, Total, ColumnTotals;
    if rows == 0 {
      NoRows(src, dw, c, dw);
    } else {
      RowsConserve(src, dw, c, rows - 1);
      AxisConserves(dw, src.Row(rows - 1, c), src.w);
      OneMoreRow(src, dw, c, dw, rows - 1);
      AddMul(Totals(src, c, rows - 1), Total(src.Row(rows - 1, c), src.w), dw);
    }
  }

  lemma {:induction false} NoRows(src: Image, dw: nat, c: nat, columns: nat)
    requires src.Valid()
    ensures ColumnTotals(src, dw, c, columns, 0) == 0
  {
    if columns > 0 { NoRows(src, dw, c, columns - 1); }
  }

  lemma {:induction false} OneMoreRow(src: Image, dw: nat, c: nat, columns: nat, y: nat)
    requires src.Valid() && y < src.h
    ensures ColumnTotals(src, dw, c, columns, y + 1)
         == ColumnTotals(src, dw, c, columns, y) + Spread(dw, src.Row(y, c), src.w, columns)
  {
    if columns > 0 { OneMoreRow(src, dw, c, columns - 1, y); }
  }

  // ---------------------------------------------------------------- the code

  /** The four sums of one source row that output pixel dx sees, over its tap list. */
  method PixelSums(src: Image, taps: seq<Tap>, sy: nat) returns (r: nat, g: nat, b: nat, a: nat)
    requires src.Valid() && sy < src.h && forall t :: t in taps ==> t.src < src.w
    ensures r == TapDot(taps, src.Row(sy, 0)) && g == TapDot(taps, src.Row(sy, 1))
    ensures b == TapDot(taps, src.Row(sy, 2)) && a == TapDot(taps, src.Row(sy, 3))
  {
    r, g, b, a := 0, 0, 0, 0;
    for i := 0 to |taps|
      invariant r == TapDot(taps[..i], src.Row(sy, 0)) && g == TapDot(taps[..i], src.Row(sy, 1))
      invariant b == TapDot(taps[..i], src.Row(sy, 2)) && a == TapDot(taps[..i], src.Row(sy, 3))
    {
      var t := taps[i];
      var c := src.rows[sy][t.src];
      assert taps[..i + 1] == taps[..i] + [t];
      TapDotAppend(taps[..i], t, src.Row(sy, 0));
      TapDotAppend(taps[..i], t, src.Row(sy, 1));
      TapDotAppend(taps[..i], t, src.Row(sy, 2));
      TapDotAppend(taps[..i], t, src.Row(sy, 3));
      r := r + t.weight * c.r;
      g := g + t.weight * c.g;
      b := b + t.weight * c.b;
      a := a + t.weight * c.a;
    }
    assert taps[..|taps|] == taps;
  }

  ghost predicate AreTaps(sn: nat, dn: nat, taps: seq<seq<Tap>>) {
    |taps| == dn && forall d :: 0 <= d < dn ==> taps[d] == TapList(sn, dn, d, sn)
  }

  /** One source row filtered along x into the row of sums, four to an output pixel. */
  method FilterRow(src: Image, dw: nat, xt: seq<seq<Tap>>, sy: nat, row: array<nat>)
    requires src.Valid() && sy < src.h && AreTaps(src.w, dw, xt) && row.Length == 4 * dw
    modifies row
    ensures forall i :: 0 <= i < 4 * dw ==> row[i] == src.Column(dw, i / 4, i % 4)[sy]
  {
    hide Dot, TapDot, TapList;
    for dx := 0 to dw
      invariant forall i :: 0 <= i < 4 * dx ==> row[i] == src.Column(dw, i / 4, i % 4)[sy]
    {
      TapsInRange(src.w, dw, dx, src.w);
      var r, g, b, a := PixelSums(src, xt[dx], sy);
      forall c | 0 <= c < 4
        ensures TapDot(xt[dx], src.Row(sy, c)) == src.Column(dw, dx, c)[sy]
      {
        TapsCoverTheAxis(dw, dx, src.Row(sy, c), src.w);
      }
      row[4 * dx], row[4 * dx + 1], row[4 * dx + 2], row[4 * dx + 3] := r, g, b, a;
    }
  }

  method AddRow(acc: array<nat>, row: array<nat>, weight: nat)
    requires acc.Length == row.Length && acc != row
    modifies acc
    ensures forall i :: 0 <= i < acc.Length ==> acc[i] == old(acc[i]) + weight * row[i]
  {
    for i := 0 to row.Length
      invariant forall j :: 0 <= j < i ==> acc[j] == old(acc[j]) + weight * row[j]
      invariant forall j :: i <= j < acc.Length ==> acc[j] == old(acc[j])
    {
      acc[i] := acc[i] + weight * row[i];
    }
  }

  /** The accumulators of one output row: every source row it overlaps, filtered and weighted. */
  method Accumulate(src: Image, dw: nat, dh: nat, dy: nat, xt: seq<seq<Tap>>, taps: seq<Tap>,
                    row: array<nat>, acc: array<nat>)
    requires src.Valid() && dy < dh && AreTaps(src.w, dw, xt) && taps == TapList(src.h, dh, dy, src.h)
    requires row.Length == acc.Length == 4 * dw && row != acc
    modifies row, acc
    ensures forall i :: 0 <= i < 4 * dw ==> acc[i] == src.AreaSum(dw, dh, i / 4, dy, i % 4)
  {
    hide Dot, TapDot, TapList, Box;
    Clear(acc);
    TapsInRange(src.h, dh, dy, src.h);
    forall i | 0 <= i < 4 * dw
      ensures TapDot(taps[..0], src.Column(dw, i / 4, i % 4)) == 0
    {
      TapDotOfNone(taps[..0], src.Column(dw, i / 4, i % 4));
    }
    for k := 0 to |taps|
      invariant forall i :: 0 <= i < 4 * dw ==> acc[i] == TapDot(taps[..k], src.Column(dw, i / 4, i % 4))
    {
      Clear(row);
      FilterRow(src, dw, xt, taps[k].src, row);
      AddRow(acc, row, taps[k].weight);
      assert taps[..k + 1] == taps[..k] + [taps[k]];
      forall i | 0 <= i < 4 * dw
        ensures acc[i] == TapDot(taps[..k + 1], src.Column(dw, i / 4, i % 4))
      {
        TapDotAppend(taps[..k], taps[k], src.Column(dw, i / 4, i % 4));
      }
    }
    assert taps[..|taps|] == taps;
    forall i | 0 <= i < 4 * dw
      ensures acc[i] == src.AreaSum(dw, dh, i / 4, dy, i % 4)
    {
      TapsCoverTheAxis(dh, dy, src.Column(dw, i / 4, i % 4), src.h);
      BoxIsDot(src.Column(dw, i / 4, i % 4), dh, dy);
    }
  }

  method Clear(a: array<nat>)
    modifies a
    ensures forall i :: 0 <= i < a.Length ==> a[i] == 0
  {
    for i := 0 to a.Length
      invariant forall j :: 0 <= j < i ==> a[j] == 0
    {
      a[i] := 0;
    }
  }

  lemma BoxIsDot(vals: seq<nat>, dn: nat, d: nat)
    ensures Box(vals, dn, d) == Dot(dn, d, vals, |vals|)
  {
  }

  type Byte = x: nat | x < 256

  /** The byte the code makes of a channel's accumulator and the alpha's. */
  function Finish(c: nat, sum: nat, alphaSum: nat, norm: nat): int
    requires norm > 0
  {
    var a := (alphaSum + norm / 2) / norm;
    if a == 0 then 0 else if c < 3 then (sum + norm / 2) / norm * 0xFFFF / a / 256 else a / 256
  }

  /** What the code computes from an output pixel's two accumulators is the filter's byte. */
  lemma FromSums(src: Image, dw: nat, dh: nat, dx: nat, dy: nat, c: nat, norm: nat, sum: nat, alphaSum: nat)
    requires src.Valid() && dx < dw && dy < dh && c < 4 && norm == src.w * src.h
    requires sum == src.AreaSum(dw, dh, dx, dy, c) && alphaSum == src.AreaSum(dw, dh, dx, dy, 3)
    ensures norm > 0 && src.Filtered(dw, dh, dx, dy, c) < 256
    ensures src.Filtered(dw, dh, dx, dy, c) == Finish(c, sum, alphaSum, norm)
  {
    hide Box;
    Positive(src.w, src.h);
    FilteredIsByte(src, dw, dh, dx, dy, c);
  }

  /** Rounds and un-premultiplies one output pixel. */
  method EmitPixel(src: Image, dw: nat, dh: nat, dx: nat, dy: nat, acc: array<nat>, out: array<Byte>, at: nat)
    requires src.Valid() && dx < dw && dy < dh && acc.Length == 4 * dw && at + 4 <= out.Length
    requires forall i :: 0 <= i < 4 * dw ==> acc[i] == src.AreaSum(dw, dh, i / 4, dy, i % 4)
    modifies out
    ensures forall c :: 0 <= c < 4 ==> out[at + c] == src.Filtered(dw, dh, dx, dy, c)
    ensures forall i :: 0 <= i < out.Length && !(at <= i < at + 4) ==> out[i] == old(out[i])
  {
    hide Image.AreaSum, Image.Filtered;
    var norm := src.w * src.h;
    forall c | 0 <= c < 4
      ensures acc[4 * dx + c] == src.AreaSum(dw, dh, dx, dy, c)
      ensures norm > 0 && src.Filtered(dw, dh, dx, dy, c) < 256
      ensures src.Filtered(dw, dh, dx, dy, c) == Finish(c, acc[4 * dx + c], acc[4 * dx + 3], norm)
    {
      assert (4 * dx + c) / 4 == dx && (4 * dx + c) % 4 == c && (4 * dx + 3) / 4 == dx;
      FromSums(src, dw, dh, dx, dy, c, norm, acc[4 * dx + c], acc[4 * dx + 3]);
    }
    var half := norm / 2;
    var a := (acc[4 * dx + 3] + half) / norm;
    if a == 0 {
      out[at], out[at + 1], out[at + 2], out[at + 3] := 0, 0, 0, 0;
      return;
    }
    for c := 0 to 3
      invariant forall e :: 0 <= e < c ==> out[at + e] == src.Filtered(dw, dh, dx, dy, e)
      invariant forall i :: 0 <= i < out.Length && !(at <= i < at + 4) ==> out[i] == old(out[i])
    {
      var v := (acc[4 * dx + c] + half) / norm;
      assert src.Filtered(dw, dh, dx, dy, c) == v * 0xFFFF / a / 256;
      out[at + c] := v * 0xFFFF / a / 256;
    }
    assert src.Filtered(dw, dh, dx, dy, 3) == a / 256;
    out[at + 3] := a / 256;
  }

  /** Rounds and un-premultiplies one row of accumulators into its slice of the output. */
  method EmitRow(src: Image, dw: nat, dh: nat, dy: nat, acc: array<nat>, pix: array<Byte>, off: nat)
    requires src.Valid() && dy < dh && acc.Length == 4 * dw && off + 4 * dw <= pix.Length
    requires forall i :: 0 <= i < 4 * dw ==> acc[i] == src.AreaSum(dw, dh, i / 4, dy, i % 4)
    modifies pix
    ensures forall i :: 0 <= i < 4 * dw ==> pix[off + i] == src.Filtered(dw, dh, i / 4, dy, i % 4)
    ensures forall i :: 0 <= i < off ==> pix[i] == old(pix[i])
  {
    hide Image.AreaSum, Image.Filtered;
    for dx := 0 to dw
      invariant forall i :: 0 <= i < 4 * dx ==> pix[off + i] == src.Filtered(dw, dh, i / 4, dy, i % 4)
      invariant forall i :: 0 <= i < off ==> pix[i] == old(pix[i])
    {
      EmitPixel(src, dw, dh, dx, dy, acc, pix, off + 4 * dx);
      forall i | 4 * dx <= i < 4 * (dx + 1)
        ensures pix[off + i] == src.Filtered(dw, dh, i / 4, dy, i % 4)
      {
        assert i / 4 == dx && off + i == off + 4 * dx + i % 4;
      }
    }
  }

  ghost function RowBytes(src: Image, dw: nat, dh: nat, dy: nat): (r: seq<nat>)
    requires src.Valid()
    ensures |r| == 4 * dw
  {
    seq(4 * dw, i requires 0 <= i < 4 * dw => src.Filtered(dw, dh, i / 4, dy, i % 4))
  }

  /** The first `n` output rows, one after the other. */
  ghost function Bytes(src: Image, dw: nat, dh: nat, n: nat): (r: seq<nat>)
    requires src.Valid()
    ensures |r| == n * (4 * dw)
  {
    if n == 0 then []
    else
      AddMul(n - 1, 1, 4 * dw);
      Bytes(src, dw, dh, n - 1) + RowBytes(src, dw, dh, n - 1)
  }

  method AppendRow(src: Image, dw: nat, dh: nat, dy: nat, acc: array<nat>, pix: array<Byte>, off: nat)
    requires src.Valid() && dy < dh && acc.Length == 4 * dw && off + 4 * dw <= pix.Length
    requires forall i :: 0 <= i < 4 * dw ==> acc[i] == src.AreaSum(dw, dh, i / 4, dy, i % 4)
    requires pix[..off] == Bytes(src, dw, dh, dy)
    modifies pix
    ensures pix[..off + 4 * dw] == Bytes(src, dw, dh, dy + 1)
  {
    hide Bytes, RowBytes, Image.AreaSum, Image.Filtered;
    ghost var done := pix[..off];
    EmitRow(src, dw, dh, dy, acc, pix, off);
    NextBytes(src, dw, dh, dy, pix[off..off + 4 * dw]);
    assert pix[..off] == done;
    assert pix[..off + 4 * dw] == done + pix[off..off + 4 * dw];
  }

  lemma NoBytes(src: Image, dw: nat, dh: nat)
    requires src.Valid()
    ensures Bytes(src, dw, dh, 0) == []
  {
  }

  lemma NextBytes(src: Image, dw: nat, dh: nat, dy: nat, row: seq<nat>)
    requires src.Valid() && |row| == 4 * dw
    requires forall i :: 0 <= i < 4 * dw ==> row[i] == src.Filtered(dw, dh, i / 4, dy, i % 4)
    ensures Bytes(src, dw, dh, dy + 1) == Bytes(src, dw, dh, dy) + row
  {
    assert row == RowBytes(src, dw, dh, dy);
  }

  lemma InRow(src: Image, dw: nat, dh: nat, dx: nat, dy: nat, c: nat)
    requires src.Valid() && dx < dw && c < 4
    ensures |RowBytes(src, dw, dh, dy)| == 4 * dw && 4 * dx + c < 4 * dw
    ensures RowBytes(src, dw, dh, dy)[4 * dx + c] == src.Filtered(dw, dh, dx, dy, c)
  {
    hide Image.Filtered, Image.Valid;
    assert (4 * dx + c) / 4 == dx && (4 * dx + c) % 4 == c;
  }

  lemma BytesStep(src: Image, dw: nat, dh: nat, n: nat)
    requires src.Valid() && n > 0
    ensures Bytes(src, dw, dh, n) == Bytes(src, dw, dh, n - 1) + RowBytes(src, dw, dh, n - 1)
    ensures |Bytes(src, dw, dh, n - 1)| == (n - 1) * (4 * dw)
  {
    hide Image.Filtered, Image.Valid;
  }

  /** Where each pixel's bytes lie: four to a pixel, 4 * dw to a row. */
  lemma {:induction false} ByteOf(src: Image, dw: nat, dh: nat, n: nat, dx: nat, dy: nat, c: nat)
    requires src.Valid() && dx < dw && dy < n && c < 4
    ensures 0 <= dy * (4 * dw) + 4 * dx + c < |Bytes(src, dw, dh, n)|
    ensures Bytes(src, dw, dh, n)[dy * (4 * dw) + 4 * dx + c] == src.Filtered(dw, dh, dx, dy, c)
  {
    hide *;
    BytesStep(src, dw, dh, n);
    if dy < n - 1 {
      ByteOf(src, dw, dh, n - 1, dx, dy, c);
    } else {
      InRow(src, dw, dh, dx, dy, c);
      MulOrder(0, dy, 4 * dw);
    }
  }

  /** Pixel (dx, dy) of the output is `p`, un-premultiplied, in four bytes: nothing where nothing shows. */
  ghost predicate Shows(pix: seq<nat>, dw: nat, dy: nat, dx: nat, p: Pixel) {
    var at := dy * (4 * dw) + 4 * dx;
    && 0 <= at && at + 4 <= |pix|
    && if p.a == 0 then pix[at] == pix[at + 1] == pix[at + 2] == pix[at + 3] == 0
       else
         && pix[at] == p.r * 0xFFFF / p.a / 256 && pix[at + 1] == p.g * 0xFFFF / p.a / 256
         && pix[at + 2] == p.b * 0xFFFF / p.a / 256 && pix[at + 3] == p.a / 256
  }

  ghost predicate IsFlat(src: Image, p: Pixel)
    requires src.Valid()
  {
    forall y, x :: 0 <= y < src.h && 0 <= x < src.w ==> src.rows[y][x] == p
  }

  lemma ShowsItsMeans(src: Image, dw: nat, dh: nat, dx: nat, dy: nat, p: Pixel)
    requires src.Valid() && dx < dw && dy < dh
    requires forall c :: 0 <= c < 4 ==> src.Mean(dw, dh, dx, dy, c) == p.Channel(c)
    ensures Shows(Bytes(src, dw, dh, dh), dw, dy, dx, p)
  {
    hide Bytes, Image.Valid, Image.Mean;
    ByteOf(src, dw, dh, dh, dx, dy, 0);
    ByteOf(src, dw, dh, dh, dx, dy, 1);
    ByteOf(src, dw, dh, dh, dx, dy, 2);
    ByteOf(src, dw, dh, dh, dx, dy, 3);
    FilteredIs(src, dw, dh, dx, dy, p);
    hide Image.Filtered, Pixel.Channel;
    MulOrder(0, dy, 4 * dw);
  }

  lemma FilteredIs(src: Image, dw: nat, dh: nat, dx: nat, dy: nat, p: Pixel)
    requires src.Valid()
    requires forall c :: 0 <= c < 4 ==> src.Mean(dw, dh, dx, dy, c) == p.Channel(c)
    ensures p.a == 0 ==> forall c :: 0 <= c < 4 ==> src.Filtered(dw, dh, dx, dy, c) == 0
    ensures p.a != 0 ==>
              && src.Filtered(dw, dh, dx, dy, 0) == p.r * 0xFFFF / p.a / 256
              && src.Filtered(dw, dh, dx, dy, 1) == p.g * 0xFFFF / p.a / 256
              && src.Filtered(dw, dh, dx, dy, 2) == p.b * 0xFFFF / p.a / 256
              && src.Filtered(dw, dh, dx, dy, 3) == p.a / 256
  {
    hide Image.Valid, Image.Mean;
    assert src.Mean(dw, dh, dx, dy, 0) == p.r && src.Mean(dw, dh, dx, dy, 1) == p.g;
    assert src.Mean(dw, dh, dx, dy, 2) == p.b && src.Mean(dw, dh, dx, dy, 3) == p.a;
  }

  lemma FlatShows(src: Image, dw: nat, dh: nat)
    requires src.Valid()
    ensures forall p :: IsFlat(src, p) ==>
              forall dy, dx :: 0 <= dy < dh && 0 <= dx < dw ==> Shows(Bytes(src, dw, dh, dh), dw, dy, dx, p)
  {
    forall p, dy, dx | IsFlat(src, p) && 0 <= dy < dh && 0 <= dx < dw
      ensures Shows(Bytes(src, dw, dh, dh), dw, dy, dx, p)
    {
      forall c | 0 <= c < 4
        ensures src.Mean(dw, dh, dx, dy, c) == p.Channel(c)
      {
        MeanBetween(src, dw, dh, dx, dy, c, p.Channel(c), p.Channel(c));
      }
      hide Shows, Bytes, Pixel.Channel;
      ShowsItsMeans(src, dw, dh, dx, dy, p);
    }
  }

  lemma SameSizeShows(src: Image, dw: nat, dh: nat)
    requires src.Valid()
    ensures dw == src.w && dh == src.h ==>
              forall y, x :: 0 <= y < dh && 0 <= x < dw ==> Shows(Bytes(src, dw, dh, dh), dw, y, x, src.rows[y][x])
  {
    hide Shows, Bytes, Pixel.Channel, Image.Mean;
    if dw == src.w && dh == src.h {
      forall y, x | 0 <= y < dh && 0 <= x < dw
        ensures Shows(Bytes(src, dw, dh, dh), dw, y, x, src.rows[y][x])
      {
        forall c | 0 <= c < 4
          ensures src.Mean(dw, dh, x, y, c) == src.rows[y][x].Channel(c)
        {
          SameSizeIsIdentity(src, x, y, c);
        }
        ShowsItsMeans(src, dw, dh, x, y, src.rows[y][x]);
      }
    }
  }

  /** Every byte written, for any source: a colour's is the floor of its mean over the alpha's mean, the alpha's the
      upper half of its mean; all four are 0 exactly where the alpha's mean is. */
  lemma ByteIsUnpremultiplied(src: Image, dw: nat, dh: nat, dx: nat, dy: nat, c: nat)
    requires src.Valid() && dx < dw && dy < dh && c < 4
    ensures var a, m, byte := src.Mean(dw, dh, dx, dy, 3), src.Mean(dw, dh, dx, dy, c), src.Filtered(dw, dh, dx, dy, c);
            && (a == 0 ==> byte == 0)
            && (c < 3 ==> 256 * byte * a <= m * 0xFFFF && (a > 0 ==> m * 0xFFFF < 256 * (byte + 1) * a))
            && (c == 3 ==> 256 * byte <= m < 256 * (byte + 1))
  {
    hide Image.Mean, Image.Valid;
    var a, m, byte := src.Mean(dw, dh, dx, dy, 3), src.Mean(dw, dh, dx, dy, c), src.Filtered(dw, dh, dx, dy, c);
    assert byte == if a == 0 then 0 else if c < 3 then m * 0xFFFF / a / 256 else a / 256;
    hide *;
    if a > 0 && c < 3 { TwoFloors(m * 0xFFFF, a, byte); }
  }

  lemma TwoFloors(n: nat, a: nat, byte: int)
    requires a > 0 && byte == n / a / 256
    ensures 0 <= byte && 256 * byte * a <= n < 256 * (byte + 1) * a
  {
    FloorAtLeast(n, a, 256 * byte);
    FloorAtLeast(n, a, 256 * (byte + 1));
    FloorAtLeast(n, a, 0);
  }

  /** `logoResize`: the output's bytes, row after row, are the filtered means of the source. A source of one colour
      gives that colour everywhere, and a source of the output's size gives every pixel its own: red, green,
      blue, alpha, in that order, un-premultiplied. */
  method Resize(src: Image, dw: nat, dh: nat) returns (pix: array<Byte>)
    requires src.Valid() && dw >= 1 && dh >= 1
    ensures pix[..] == Bytes(src, dw, dh, dh)
    ensures forall p :: IsFlat(src, p) ==> forall dy, dx :: 0 <= dy < dh && 0 <= dx < dw ==> Shows(pix[..], dw, dy, dx, p)
    ensures dw == src.w && dh == src.h ==>
              forall y, x :: 0 <= y < dh && 0 <= x < dw ==> Shows(pix[..], dw, y, x, src.rows[y][x])
  {
    hide Bytes, RowBytes, TapList, Image.AreaSum, Shows, IsFlat;
    var xt := Taps(src.w, dw);
    var yt := Taps(src.h, dh);
    var row, acc := new nat[4 * dw], new nat[4 * dw];
    var stride := 4 * dw;
    MulOrder(0, dh, stride);
    pix := new Byte[dh * stride];
    NoBytes(src, dw, dh);
    assert pix[..0] == [];
    for dy := 0 to dh
      invariant 0 <= dy * stride <= pix.Length && pix[..dy * stride] == Bytes(src, dw, dh, dy)
    {
      MulOrder(dy + 1, dh, stride);
      AddMul(dy, 1, stride);
      Accumulate(src, dw, dh, dy, xt, yt[dy], row, acc);
      AppendRow(src, dw, dh, dy, acc, pix, dy * stride);
    }
    assert pix[..] == pix[..dh * stride];
    FlatShows(src, dw, dh);
    SameSizeShows(src, dw, dh);
  }

  // ------------------------------------------------------------ word sizes

  /** Within the upload gate's sizes no uint64 sum or product of the filter overflows: not a row's partial
      sum, not an accumulator after any of its rows, not the rounded numerator, not the un-premultiplying product. */
  lemma FitsUint64(src: Image, dw: nat, dh: nat, dx: nat, dy: nat, sy: nat, c: nat, k: nat, j: nat)
    requires src.Valid() && src.w * src.h <= 0x40_0000 && dx < dw && dy < dh && sy < src.h && c < 4
    requires k <= |TapList(src.w, dw, dx, src.w)| && j <= |TapList(src.h, dh, dy, src.h)|
    ensures forall t :: t in TapList(src.w, dw, dx, src.w) ==> t.src < src.w
    ensures forall t :: t in TapList(src.h, dh, dy, src.h) ==> t.src < src.h
    ensures TapDot(TapList(src.w, dw, dx, src.w)[..k], src.Row(sy, c)) <= src.Column(dw, dx, c)[sy] <= 0xFFFF * src.w
    ensures TapDot(TapList(src.h, dh, dy, src.h)[..j], src.Column(dw, dx, c)) <= src.AreaSum(dw, dh, dx, dy, c)
    ensures src.AreaSum(dw, dh, dx, dy, c) + (src.w * src.h) / 2 < 0x40_0000_0000
    ensures src.Mean(dw, dh, dx, dy, c) * 0xFFFF < 0x1_0000_0000
  {
    hide Dot, TapDot, TapList;
    TapsInRange(src.w, dw, dx, src.w);
    TapsCoverTheAxis(dw, dx, src.Row(sy, c), src.w);
    PartialSumsGrow(TapList(src.w, dw, dx, src.w), src.Row(sy, c), k);
    BoxIsMean(src.Row(sy, c), dw, dx, 0, 0xFFFF);
    TapsInRange(src.h, dh, dy, src.h);
    TapsCoverTheAxis(dh, dy, src.Column(dw, dx, c), src.h);
    PartialSumsGrow(TapList(src.h, dh, dy, src.h), src.Column(dw, dx, c), j);
    AreaBetween(src, dw, dh, dx, dy, c, 0, 0xFFFF);
    MeanBetween(src, dw, dh, dx, dy, c, 0, 0xFFFF);
  }
}
