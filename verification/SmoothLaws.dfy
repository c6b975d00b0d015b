/** Order and linearity of the 5-tap smoothing, cell by cell: what one smoothed cell takes from the
    5x5 window around it (crates/mmm-core/src/pyramid.rs, `smooth`). */
module SmoothLaws {
  import opened Entrywise
  import opened Grid
  import opened PyramidKernels
  import opened Reals

  ghost predicate Window(w: nat, h: nat, cx: int, cy: int, r: int, x: int, y: int) {
    0 <= x < w && 0 <= y < h && -r <= x - cx <= r && -r <= y - cy <= r
  }

  /** `p` stays at or below `q` in the window. */
  ghost predicate BelowNear(p: seq<real>, q: seq<real>, w: nat, h: nat, cx: int, cy: int) {
    && IsPlane(|p|, w, h) && IsPlane(|q|, w, h)
    && forall x, y :: Window(w, h, cx, cy, 2, x, y) ==> Cell(p, w, h, x, y) <= Cell(q, w, h, x, y)
  }

  lemma {:induction false} RowBelow(p: seq<real>, q: seq<real>, w: nat, h: nat, cx: int, cy: int, y: int)
    requires BelowNear(p, q, w, h, cx, cy) && 0 <= cx < w && 0 <= y < h && -2 <= y - cy <= 2
    ensures RowTaps(p, w, h, cx, y, 5) <= RowTaps(q, w, h, cx, y, 5)
  {
    hide RowTaps, Cell;
    RowTapsExpand(p, w, h, cx, y);
    RowTapsExpand(q, w, h, cx, y);
    assert Window(w, h, cx, cy, 2, Clamp(cx - 2, w), y) && Window(w, h, cx, cy, 2, Clamp(cx - 1, w), y)
        && Window(w, h, cx, cy, 2, Clamp(cx, w), y)
        && Window(w, h, cx, cy, 2, Clamp(cx + 1, w), y) && Window(w, h, cx, cy, 2, Clamp(cx + 2, w), y);
  }

  /** Smoothing is monotone, and looks only at the window. */
  lemma {:induction false} SmoothBelow(p: seq<real>, q: seq<real>, w: nat, h: nat, cx: int, cy: int)
    requires BelowNear(p, q, w, h, cx, cy) && 0 <= cx < w && 0 <= cy < h
    ensures SmoothAt(p, w, h, cx, cy) <= SmoothAt(q, w, h, cx, cy)
  {
    RowBelow(p, q, w, h, cx, cy, Clamp(cy - 2, h));
    RowBelow(p, q, w, h, cx, cy, Clamp(cy - 1, h));
    RowBelow(p, q, w, h, cx, cy, Clamp(cy, h));
    RowBelow(p, q, w, h, cx, cy, Clamp(cy + 1, h));
    RowBelow(p, q, w, h, cx, cy, Clamp(cy + 2, h));
    hide RowTaps, SmoothAt, BelowNear, IsPlane, Clamp;
    ColTapsExpand(p, w, h, cx, cy);
    ColTapsExpand(q, w, h, cx, cy);
  }

  /** `c` times `p`, plus `q`. */
  function Blend(c: real, p: seq<real>, q: seq<real>): (r: seq<real>)
    requires |p| == |q|
    ensures |r| == |p| && forall i :: 0 <= i < |p| ==> r[i] == Mul(c, p[i]) + q[i]
  {
    seq(|p|, i requires 0 <= i < |p| == |q| => Mul(c, p[i]) + q[i])
  }

  lemma {:induction false} BlendCell(c: real, p: seq<real>, q: seq<real>, w: nat, h: nat, x: nat, y: nat)
    requires IsPlane(|p|, w, h) && |q| == |p| && x < w && y < h
    ensures IsPlane(|Blend(c, p, q)|, w, h)
    ensures Cell(Blend(c, p, q), w, h, x, y) == Mul(c, Cell(p, w, h, x, y)) + Cell(q, w, h, x, y)
  {
    CellAt(p, w, h, x, y);
    CellAt(q, w, h, x, y);
    CellAt(Blend(c, p, q), w, h, x, y);
  }

  lemma {:induction false} FiveSum(c: real, s0: real, s1: real, s2: real, s3: real, s4: real)
    ensures Mul(c, s0 + s1 + s2 + s3 + s4) == Mul(c, s0) + Mul(c, s1) + Mul(c, s2) + Mul(c, s3) + Mul(c, s4)
  {
    Distribute(c, s0 + s1 + s2 + s3, s4);
    Distribute(c, s0 + s1 + s2, s3);
    Distribute(c, s0 + s1, s2);
    Distribute(c, s0, s1);
    hide Mul;
  }

  lemma {:induction false} FiveLinear(c: real, a0: real, a1: real, a2: real, a3: real, a4: real,
                                      b0: real, b1: real, b2: real, b3: real, b4: real)
    ensures 0.0625 * (Mul(c, a0) + b0) + 0.25 * (Mul(c, a1) + b1) + 0.375 * (Mul(c, a2) + b2) + 0.25 * (Mul(c, a3) + b3)
              + 0.0625 * (Mul(c, a4) + b4)
         == Mul(c, 0.0625 * a0 + 0.25 * a1 + 0.375 * a2 + 0.25 * a3 + 0.0625 * a4)
            + (0.0625 * b0 + 0.25 * b1 + 0.375 * b2 + 0.25 * b3 + 0.0625 * b4)
  {
    hide Mul;
    FiveSum(c, 0.0625 * a0, 0.25 * a1, 0.375 * a2, 0.25 * a3, 0.0625 * a4);
    Weights(c, a0);
    Weights(c, a1);
    Weights(c, a2);
    Weights(c, a3);
    Weights(c, a4);
  }

  lemma {:induction false} Weights(c: real, a: real)
    ensures Mul(c, 0.0625 * a) == 0.0625 * Mul(c, a)
    ensures Mul(c, 0.25 * a) == 0.25 * Mul(c, a)
    ensures Mul(c, 0.375 * a) == 0.375 * Mul(c, a)
  {
  }

  lemma {:induction false} RowLinear(c: real, p: seq<real>, q: seq<real>, w: nat, h: nat, x: int, y: int)
    requires IsPlane(|p|, w, h) && |q| == |p| && w > 0 && 0 <= y < h
    ensures IsPlane(|Blend(c, p, q)|, w, h)
    ensures RowTaps(Blend(c, p, q), w, h, x, y, 5) == Mul(c, RowTaps(p, w, h, x, y, 5)) + RowTaps(q, w, h, x, y, 5)
  {
    hide RowTaps, Cell, Mul, Clamp, IsPlane;
    var x0, x1, x2, x3, x4 := Clamp(x - 2, w), Clamp(x - 1, w), Clamp(x, w), Clamp(x + 1, w), Clamp(x + 2, w);
    BlendCell(c, p, q, w, h, x0, y);
    BlendCell(c, p, q, w, h, x1, y);
    BlendCell(c, p, q, w, h, x2, y);
    BlendCell(c, p, q, w, h, x3, y);
    BlendCell(c, p, q, w, h, x4, y);
    RowTapsExpand(p, w, h, x, y);
    RowTapsExpand(q, w, h, x, y);
    RowTapsExpand(Blend(c, p, q), w, h, x, y);
    FiveLinear(c, Cell(p, w, h, x0, y), Cell(p, w, h, x1, y), Cell(p, w, h, x2, y), Cell(p, w, h, x3, y),
               Cell(p, w, h, x4, y),
               Cell(q, w, h, x0, y), Cell(q, w, h, x1, y), Cell(q, w, h, x2, y), Cell(q, w, h, x3, y),
               Cell(q, w, h, x4, y));
  }

  /** Smoothing is linear. */
  lemma {:induction false} SmoothLinear(c: real, p: seq<real>, q: seq<real>, w: nat, h: nat, x: int, y: int)
    requires IsPlane(|p|, w, h) && |q| == |p| && w > 0 && h > 0
    ensures IsPlane(|Blend(c, p, q)|, w, h)
    ensures SmoothAt(Blend(c, p, q), w, h, x, y) == Mul(c, SmoothAt(p, w, h, x, y)) + SmoothAt(q, w, h, x, y)
  {
    hide RowTaps, SmoothAt, Cell, Mul, Clamp, IsPlane;
    var y0, y1, y2, y3, y4 := Clamp(y - 2, h), Clamp(y - 1, h), Clamp(y, h), Clamp(y + 1, h), Clamp(y + 2, h);
    RowLinear(c, p, q, w, h, x, y0);
    RowLinear(c, p, q, w, h, x, y1);
    RowLinear(c, p, q, w, h, x, y2);
    RowLinear(c, p, q, w, h, x, y3);
    RowLinear(c, p, q, w, h, x, y4);
    ColTapsExpand(p, w, h, x, y);
    ColTapsExpand(q, w, h, x, y);
    ColTapsExpand(Blend(c, p, q), w, h, x, y);
    FiveLinear(c, RowTaps(p, w, h, x, y0, 5), RowTaps(p, w, h, x, y1, 5), RowTaps(p, w, h, x, y2, 5),
               RowTaps(p, w, h, x, y3, 5), RowTaps(p, w, h, x, y4, 5),
               RowTaps(q, w, h, x, y0, 5), RowTaps(q, w, h, x, y1, 5), RowTaps(q, w, h, x, y2, 5),
               RowTaps(q, w, h, x, y3, 5), RowTaps(q, w, h, x, y4, 5));
  }

  lemma {:induction false} ZeroCell(k: nat, w: nat, h: nat, x: nat, y: nat)
    requires IsPlane(k, w, h) && x < w && y < h
    ensures Cell(Zeros(k), w, h, x, y) == 0.0
  {
    CellAt(Zeros(k), w, h, x, y);
  }

  lemma {:induction false} SmoothZeros(k: nat, w: nat, h: nat, x: int, y: int)
    requires IsPlane(k, w, h) && w > 0 && h > 0
    ensures SmoothAt(Zeros(k), w, h, x, y) == 0.0
  {
    var z := Zeros(k);
    var t := SmoothAt(z, w, h, x, y);
    assert Blend(1.0, z, z) == z;
    assert Mul(1.0, t) == t;
    hide SmoothAt, Mul;
    SmoothLinear(1.0, z, z, w, h, x, y);
  }

  /** Bounding `a` by multiples of `v` in the window bounds the smoothed `a` by the same multiples of
      the smoothed `v`. */
  lemma {:induction false} SmoothBetween(a: seq<real>, v: seq<real>, w: nat, h: nat, cx: nat, cy: nat, lo: real,
                                         hi: real)
    requires IsPlane(|a|, w, h) && |v| == |a| && cx < w && cy < h
    requires forall x, y :: Window(w, h, cx, cy, 2, x, y) ==>
               Mul(lo, Cell(v, w, h, x, y)) <= Cell(a, w, h, x, y) <= Mul(hi, Cell(v, w, h, x, y))
    ensures Mul(lo, SmoothAt(v, w, h, cx, cy)) <= SmoothAt(a, w, h, cx, cy) <= Mul(hi, SmoothAt(v, w, h, cx, cy))
  {
    var z := Zeros(|a|);
    hide SmoothAt, Mul, Cell, Zeros;
    forall x, y | Window(w, h, cx, cy, 2, x, y)
      ensures Cell(Blend(lo, v, z), w, h, x, y) <= Cell(a, w, h, x, y) <= Cell(Blend(hi, v, z), w, h, x, y)
    {
      BlendCell(lo, v, z, w, h, x, y);
      BlendCell(hi, v, z, w, h, x, y);
      ZeroCell(|a|, w, h, x, y);
    }
    SmoothBelow(Blend(lo, v, z), a, w, h, cx, cy);
    SmoothBelow(a, Blend(hi, v, z), w, h, cx, cy);
    SmoothLinear(lo, v, z, w, h, cx, cy);
    SmoothLinear(hi, v, z, w, h, cx, cy);
    SmoothZeros(|a|, w, h, cx, cy);
  }
}
