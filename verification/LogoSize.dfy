/** The size a logo is stored at (internal/brand/logo.go, `logoTargetSize`). */
module LogoSize {
  import opened Arith

  const MAX_EDGE := 512

  datatype Size = Size(w: nat, h: nat)

  function Max(a: nat, b: nat): nat { if a < b then b else a }

  /** The short edge when the long one becomes MAX_EDGE. */
  function Scaled(short: nat, long: nat): nat
    requires long > 0
  {
    Max(1, (short * MAX_EDGE + long / 2) / long)
  }

  function TargetSize(w: nat, h: nat): Size {
    if w <= MAX_EDGE && h <= MAX_EDGE then Size(w, h)
    else if w >= h then Size(MAX_EDGE, Scaled(h, w))
    else Size(Scaled(w, h), MAX_EDGE)
  }

  /** The rounded quotient: half up. */
  lemma Nearest(n: nat, d: nat)
    requires d > 0
    ensures var q := (n + d / 2) / d; 2 * (q * d) <= 2 * n + d < 2 * (q * d) + 2 * d
  {
    var m := n + d / 2;
    assert m == m / d * d + m % d;
  }

  /** `edge` is the pixel nearest to short * 512 / long, rounded half up, or the one pixel it needs. */
  predicate KeepsShape(edge: int, short: nat, long: nat) {
    || 2 * (edge * long) <= 2 * (short * 512) + long < 2 * (edge * long) + 2 * long
    || (edge == 1 && 2 * (short * 512) < long)
  }

  lemma ScaledFits(short: nat, long: nat)
    requires 0 < short <= long && long > MAX_EDGE
    ensures 1 <= Scaled(short, long) <= MAX_EDGE && Scaled(short, long) <= short
    ensures KeepsShape(Scaled(short, long), short, long)
  {
    var q := (short * MAX_EDGE + long / 2) / long;
    Nearest(short * MAX_EDGE, long);
    Within(q, short, long);
    assert q == 0 ==> q * long == 0;
  }

  lemma Within(q: nat, short: nat, long: nat)
    requires 0 < short <= long && long > MAX_EDGE && 2 * (q * long) <= 2 * (short * MAX_EDGE) + long
    ensures q <= MAX_EDGE && q <= short
  {
    Grows(MAX_EDGE + 1, q, long);
    Grows(short + 1, q, long);
    Grows(MAX_EDGE, long, short);
  }

  lemma Grows(a: nat, b: nat, c: nat)
    ensures a <= b ==> a * c <= b * c
  {
    if a <= b { MulOrder(a, b, c); }
  }

  /** A logo is never enlarged and ends within the edge; one that fits keeps its size; otherwise its long edge
      becomes the limit and its short edge the pixel nearest to the same shape, at least one. */
  lemma TargetSizeMeans(w: nat, h: nat)
    requires w > 0 && h > 0
    ensures var t := TargetSize(w, h);
            && 1 <= t.w <= 512 && 1 <= t.h <= 512 && t.w <= w && t.h <= h
            && (w <= 512 && h <= 512 <==> t == Size(w, h))
            && (t != Size(w, h) && w >= h ==> t.w == 512 && KeepsShape(t.h, h, w))
            && (t != Size(w, h) && w <= h ==> t.h == 512 && KeepsShape(t.w, w, h))
            && TargetSize(h, w) == Size(t.h, t.w)
  {
    hide Scaled, KeepsShape;
    if w > MAX_EDGE || h > MAX_EDGE {
      if w >= h { ScaledFits(h, w); } else { ScaledFits(w, h); }
      if w == h { SquareStays(w); }
    }
  }

  lemma SquareStays(w: nat)
    requires w > MAX_EDGE
    ensures Scaled(w, w) == MAX_EDGE
  {
    DivideExactly(MAX_EDGE, w / 2, w);
  }
}
