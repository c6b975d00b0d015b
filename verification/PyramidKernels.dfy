/** Smoothing, decimation and bilinear upsampling of cell planes
    (crates/mmm-core/src/pyramid.rs, `smooth`, `downsample`, `upsample`). */
module PyramidKernels {
  import opened Grid

  // ---------------------------------------------------------------- specification

  /** The cell of the row nearest to position `v`: the borders are replicated. */
  function Clamp(v: int, n: nat): (r: nat)
    requires n > 0
    ensures r < n && (0 <= v < n ==> r == v)
  {
    if v < 0 then 0 else if v >= n then n - 1 else v
  }

  /** Positions before the row take its first cell, positions behind it the last: no cell `k` is nearer. */
  lemma {:induction false} ClampIsNearest(v: int, n: nat, k: nat)
    requires k < n
    ensures v < Clamp(v, n) ==> Clamp(v, n) <= k
    ensures v > Clamp(v, n) ==> k <= Clamp(v, n)
  {
  }

  /** The k-th weight of the 5-tap kernel. */
  function Tap(k: nat): real {
    if k == 0 || k == 4 then 0.0625 else if k == 1 || k == 3 then 0.25 else 0.375
  }

  function TapOf(k: nat, v: real): real {
    Tap(k) * v
  }

  /** The first `n` taps of the horizontal pass at (x, y). */
  ghost function RowTaps(p: seq<real>, w: nat, h: nat, x: int, y: int, n: nat): real
    requires IsPlane(|p|, w, h) && w > 0 && 0 <= y < h
  {
    if n == 0 then 0.0 else RowTaps(p, w, h, x, y, n - 1) + TapOf(n - 1, Cell(p, w, h, Clamp(x + n - 3, w), y))
  }

  /** The first `n` taps of the vertical pass at (x, y) over the horizontal one. */
  ghost function ColTaps(p: seq<real>, w: nat, h: nat, x: int, y: int, n: nat): real
    requires IsPlane(|p|, w, h) && w > 0 && h > 0
  {
    if n == 0 then 0.0 else ColTaps(p, w, h, x, y, n - 1) + TapOf(n - 1, RowTaps(p, w, h, x, Clamp(y + n - 3, h), 5))
  }

  ghost function SmoothAt(p: seq<real>, w: nat, h: nat, x: int, y: int): real
    requires IsPlane(|p|, w, h) && w > 0 && h > 0
  {
    ColTaps(p, w, h, x, y, 5)
  }

  ghost predicate IsSmooth(p: seq<real>, q: seq<real>, w: nat, h: nat) {
    && IsPlane(|p|, w, h) && IsPlane(|q|, w, h)
    && forall x, y :: 0 <= x < w && 0 <= y < h ==> Cell(q, w, h, x, y) == SmoothAt(p, w, h, x, y)
  }

  /** Half, rounded up. */
  function Half(n: nat): (r: nat)
    ensures 2 * r <= n + 1 && n <= 2 * r && (n > 0 ==> r > 0)
  {
    (n + 1) / 2
  }

  ghost predicate IsDown(p: seq<real>, q: seq<real>, w: nat, h: nat) {
    && IsPlane(|p|, w, h) && IsPlane(|q|, Half(w), Half(h))
    && forall x, y :: 0 <= x < Half(w) && 0 <= y < Half(h) ==>
         Cell(q, Half(w), Half(h), x, y) == SmoothAt(p, w, h, 2 * x, 2 * y)
  }

  /** Linear interpolation: `f` of the way from `a` to `b`. */
  function Lerp(a: real, b: real, f: real): real {
    a * (1.0 - f) + b * f
  }

  function Left(x: nat, cw: nat): (r: nat)
    requires cw > 0
    ensures r < cw
  {
    if x / 2 < cw - 1 then x / 2 else cw - 1
  }

  function Right(x: nat, cw: nat): (r: nat)
    requires cw > 0
    ensures r < cw
  {
    if Left(x, cw) + 1 < cw - 1 then Left(x, cw) + 1 else cw - 1
  }

  function Frac(x: nat, cw: nat): real
    requires cw > 0
  {
    x as real * 0.5 - Left(x, cw) as real
  }

  /** Bilinear sample of the coarse plane at fine cell (x, y). */
  ghost function UpAt(c: seq<real>, cw: nat, ch: nat, x: nat, y: nat): real
    requires IsPlane(|c|, cw, ch) && cw > 0 && ch > 0
  {
    var (x0, x1, y0, y1) := (Left(x, cw), Right(x, cw), Left(y, ch), Right(y, ch));
    var top := Lerp(Cell(c, cw, ch, x0, y0), Cell(c, cw, ch, x1, y0), Frac(x, cw));
    var bot := Lerp(Cell(c, cw, ch, x0, y1), Cell(c, cw, ch, x1, y1), Frac(x, cw));
    Lerp(top, bot, Frac(y, ch))
  }

  ghost predicate IsUp(c: seq<real>, f: seq<real>, cw: nat, ch: nat, fw: nat, fh: nat) {
    && IsPlane(|c|, cw, ch) && IsPlane(|f|, fw, fh) && (fw > 0 && fh > 0 ==> cw > 0 && ch > 0)
    && forall x, y :: 0 <= x < fw && 0 <= y < fh ==> Cell(f, fw, fh, x, y) == UpAt(c, cw, ch, x, y)
  }

  // ---------------------------------------------------------------- what upsampling means

  /** The coarse cell past the one a fine cell sits at or after: itself for an even fine cell, and at the end. */
  function Beyond(x: nat, n: nat): (r: nat)
    requires x / 2 < n
    ensures r < n
  {
    if x % 2 == 1 && x / 2 + 1 < n then x / 2 + 1 else x / 2
  }

  ghost function MeanOfFour(c: seq<real>, cw: nat, ch: nat, i: nat, j: nat, i': nat, j': nat): real
    requires IsPlane(|c|, cw, ch) && i < cw && i' < cw && j < ch && j' < ch
  {
    (Cell(c, cw, ch, i, j) + Cell(c, cw, ch, i', j) + Cell(c, cw, ch, i, j') + Cell(c, cw, ch, i', j')) / 4.0
  }

  /** The fine plane interpolates the coarse one: every fine cell is the mean of the coarse cells around it. */
  ghost predicate Interpolates(c: seq<real>, f: seq<real>, w: nat, h: nat) {
    && IsPlane(|c|, Half(w), Half(h)) && IsPlane(|f|, w, h)
    && forall x: nat, y: nat :: x < w && y < h ==>
         Cell(f, w, h, x, y)
           == MeanOfFour(c, Half(w), Half(h), x / 2, y / 2, Beyond(x, Half(w)), Beyond(y, Half(h)))
  }

  /** Coarse cell (i, j) sits at fine cell (2i, 2j); a fine cell between two coarse ones is their mean, one between
      four the mean of the four; past the last coarse cell that cell goes on. */
  lemma {:induction false} CoarseCellsSitEven(c: seq<real>, f: seq<real>, w: nat, h: nat, i: nat, j: nat)
    requires Interpolates(c, f, w, h) && 2 * i < w && 2 * j < h
    ensures Cell(f, w, h, 2 * i, 2 * j) == Cell(c, Half(w), Half(h), i, j)
    ensures 2 * i + 1 < w ==>
              Cell(f, w, h, 2 * i + 1, 2 * j) ==
              if i + 1 < Half(w) then (Cell(c, Half(w), Half(h), i, j) + Cell(c, Half(w), Half(h), i + 1, j)) / 2.0
              else Cell(c, Half(w), Half(h), i, j)
    ensures 2 * j + 1 < h ==>
              Cell(f, w, h, 2 * i, 2 * j + 1) ==
              if j + 1 < Half(h) then (Cell(c, Half(w), Half(h), i, j) + Cell(c, Half(w), Half(h), i, j + 1)) / 2.0
              else Cell(c, Half(w), Half(h), i, j)
    ensures i + 1 < Half(w) && j + 1 < Half(h) ==>
              Cell(f, w, h, 2 * i + 1, 2 * j + 1) ==
              (Cell(c, Half(w), Half(h), i, j) + Cell(c, Half(w), Half(h), i + 1, j)
               + Cell(c, Half(w), Half(h), i, j + 1) + Cell(c, Half(w), Half(h), i + 1, j + 1)) / 4.0
  {
    BeyondEvenOdd(i, Half(w));
    BeyondEvenOdd(j, Half(h));
    var x, y := 2 * i + 1, 2 * j + 1;
    assert Cell(f, w, h, 2 * i, 2 * j)
        == MeanOfFour(c, Half(w), Half(h), (2 * i) / 2, (2 * j) / 2, Beyond(2 * i, Half(w)), Beyond(2 * j, Half(h)));
    assert x < w ==>
             Cell(f, w, h, x, 2 * j) ==
             MeanOfFour(c, Half(w), Half(h), x / 2, (2 * j) / 2, Beyond(x, Half(w)), Beyond(2 * j, Half(h)));
    assert y < h ==>
             Cell(f, w, h, 2 * i, y) ==
             MeanOfFour(c, Half(w), Half(h), (2 * i) / 2, y / 2, Beyond(2 * i, Half(w)), Beyond(y, Half(h)));
    assert x < w && y < h ==>
             Cell(f, w, h, x, y) ==
             MeanOfFour(c, Half(w), Half(h), x / 2, y / 2, Beyond(x, Half(w)), Beyond(y, Half(h)));
    hide Interpolates, Cell, Half, Beyond;
  }

  lemma {:induction false} BeyondEvenOdd(i: nat, n: nat)
    requires i < n
    ensures (2 * i) / 2 == i && (2 * i + 1) / 2 == i
    ensures Beyond(2 * i, n) == i && Beyond(2 * i + 1, n) == if i + 1 < n then i + 1 else i
  {
  }

  /** Along one axis an even cell takes one coarse cell, an odd one two in equal parts. */
  lemma {:induction false} AxisSample(x: nat, n: nat)
    requires x / 2 < n
    ensures Left(x, n) == x / 2
    ensures x % 2 == 0 ==> Frac(x, n) == 0.0 && Beyond(x, n) == x / 2
    ensures x % 2 == 1 ==> Frac(x, n) == 0.5 && Right(x, n) == Beyond(x, n)
  {
    assert x == 2 * (x / 2) + x % 2;
  }

  lemma {:induction false} LerpEnds(a: real, b: real)
    ensures Lerp(a, b, 0.0) == a && Lerp(a, b, 0.5) == (a + b) / 2.0
  {
  }

  /** The bilinear sample is the mean of the cells around. */
  lemma {:induction false} SampleIsMean(c: seq<real>, cw: nat, ch: nat, x: nat, y: nat)
    requires IsPlane(|c|, cw, ch) && x / 2 < cw && y / 2 < ch
    ensures UpAt(c, cw, ch, x, y) == MeanOfFour(c, cw, ch, x / 2, y / 2, Beyond(x, cw), Beyond(y, ch))
  {
    AxisSample(x, cw);
    AxisSample(y, ch);
    forall a: real, b: real ensures Lerp(a, b, 0.0) == a && Lerp(a, b, 0.5) == (a + b) / 2.0 { LerpEnds(a, b); }
    hide Lerp, Left, Right, Frac, Beyond, Cell, IsPlane;
  }

  lemma {:induction false} HalfCovers(x: nat, w: nat)
    requires x < w
    ensures x / 2 < Half(w)
  {
  }

  /** Upsampling to twice the size is interpolation, and nothing else is. */
  lemma {:induction false} UpIffInterpolates(c: seq<real>, f: seq<real>, w: nat, h: nat)
    ensures IsUp(c, f, Half(w), Half(h), w, h) <==> Interpolates(c, f, w, h)
  {
    if IsPlane(|c|, Half(w), Half(h)) && IsPlane(|f|, w, h) {
      forall x: nat, y: nat | x < w && y < h
        ensures x / 2 < Half(w) && y / 2 < Half(h)
        ensures UpAt(c, Half(w), Half(h), x, y)
             == MeanOfFour(c, Half(w), Half(h), x / 2, y / 2, Beyond(x, Half(w)), Beyond(y, Half(h)))
      {
        HalfCovers(x, w);
        HalfCovers(y, h);
        SampleIsMean(c, Half(w), Half(h), x, y);
      }
    }
    hide UpAt, MeanOfFour, Beyond, Cell, IsPlane;
  }

  // ---------------------------------------------------------------- algorithms

  method SmoothRows(p: seq<real>, w: nat, h: nat) returns (tmp: array<real>)
    requires IsPlane(|p|, w, h)
    ensures fresh(tmp) && IsPlane(tmp.Length, w, h)
    ensures forall x, y :: 0 <= x < w && 0 <= y < h ==> Cell(tmp[..], w, h, x, y) == RowTaps(p, w, h, x, y, 5)
  {
    hide IsPlane, Cell, Tap;
    tmp := NewPlane(w, h, 0.0);
    for y := 0 to h
      invariant forall x', y' :: 0 <= x' < w && 0 <= y' < y ==>
                  Cell(tmp[..], w, h, x', y') == RowTaps(p, w, h, x', y', 5)
    {
      for x := 0 to w
        invariant forall x', y' :: 0 <= x' < w && 0 <= y' < y ==>
                    Cell(tmp[..], w, h, x', y') == RowTaps(p, w, h, x', y', 5)
        invariant forall x' :: 0 <= x' < x ==> Cell(tmp[..], w, h, x', y) == RowTaps(p, w, h, x', y, 5)
      {
        ghost var before := tmp[..];
        var s := 0.0;
        for k := 0 to 5
          invariant tmp[..] == before
          invariant s == RowTaps(p, w, h, x, y, k)
        {
          CellAt(p, w, h, Clamp(x + k - 2, w), y);
          s := s + TapOf(k, p[y * w + Clamp(x + k - 2, w)]);
        }
        Write(tmp, w, h, x, y, s);
      }
    }
  }

  /** Separable 5-tap smoothing with replicated borders. */
  method Smooth(p: seq<real>, w: nat, h: nat) returns (q: array<real>)
    requires IsPlane(|p|, w, h)
    ensures fresh(q) && IsSmooth(p, q[..], w, h)
  {
    hide IsPlane, Cell, Tap, RowTaps;
    var tmp := SmoothRows(p, w, h);
    ghost var T := tmp[..];
    q := NewPlane(w, h, 0.0);
    for y := 0 to h
      invariant tmp[..] == T
      invariant forall x', y' :: 0 <= x' < w && 0 <= y' < y ==> Cell(q[..], w, h, x', y') == SmoothAt(p, w, h, x', y')
    {
      for x := 0 to w
        invariant tmp[..] == T
        invariant forall x', y' :: 0 <= x' < w && 0 <= y' < y ==> Cell(q[..], w, h, x', y') == SmoothAt(p, w, h, x', y')
        invariant forall x' :: 0 <= x' < x ==> Cell(q[..], w, h, x', y) == SmoothAt(p, w, h, x', y)
      {
        ghost var before := q[..];
        var s := 0.0;
        for k := 0 to 5
          invariant tmp[..] == T && q[..] == before
          invariant s == ColTaps(p, w, h, x, y, k)
        {
          var v := Read(tmp, w, h, x, Clamp(y + k - 2, h));
          s := s + TapOf(k, v);
        }
        Write(q, w, h, x, y, s);
      }
    }
  }

  /** Smooth, then keep the even columns and rows. */
  method Downsample(p: seq<real>, w: nat, h: nat) returns (q: array<real>)
    requires IsPlane(|p|, w, h)
    ensures fresh(q) && IsDown(p, q[..], w, h)
  {
    hide IsPlane, Cell, SmoothAt, Half;
    var sm := Smooth(p, w, h);
    ghost var M := sm[..];
    var w2, h2 := Half(w), Half(h);
    q := NewPlane(w2, h2, 0.0);
    for y := 0 to h2
      invariant sm[..] == M
      invariant forall x', y' :: 0 <= x' < w2 && 0 <= y' < y ==>
                  Cell(q[..], w2, h2, x', y') == SmoothAt(p, w, h, 2 * x', 2 * y')
    {
      for x := 0 to w2
        invariant sm[..] == M
        invariant forall x', y' :: 0 <= x' < w2 && 0 <= y' < y ==>
                    Cell(q[..], w2, h2, x', y') == SmoothAt(p, w, h, 2 * x', 2 * y')
        invariant forall x' :: 0 <= x' < x ==> Cell(q[..], w2, h2, x', y) == SmoothAt(p, w, h, 2 * x', 2 * y)
      {
        var v := Read(sm, w, h, 2 * x, 2 * y);
        Write(q, w2, h2, x, y, v);
      }
    }
  }

  /** Bilinear upsampling: coarse cell j sits at fine cell 2j, edges clamp. */
  method Upsample(c: seq<real>, cw: nat, ch: nat, fw: nat, fh: nat) returns (f: array<real>)
    requires IsPlane(|c|, cw, ch) && (fw > 0 && fh > 0 ==> cw > 0 && ch > 0)
    ensures fresh(f) && IsUp(c, f[..], cw, ch, fw, fh)
    ensures cw == Half(fw) && ch == Half(fh) ==> Interpolates(c, f[..], fw, fh)
  {
    hide IsPlane, Cell, Lerp, Left, Right, Frac, Interpolates;
    f := NewPlane(fw, fh, 0.0);
    for y := 0 to fh
      invariant forall x', y' :: 0 <= x' < fw && 0 <= y' < y ==> Cell(f[..], fw, fh, x', y') == UpAt(c, cw, ch, x', y')
    {
      for x := 0 to fw
        invariant forall x', y' :: 0 <= x' < fw && 0 <= y' < y ==>
                    Cell(f[..], fw, fh, x', y') == UpAt(c, cw, ch, x', y')
        invariant forall x' :: 0 <= x' < x ==> Cell(f[..], fw, fh, x', y) == UpAt(c, cw, ch, x', y)
      {
        var y0, y1, fy := Left(y, ch), Right(y, ch), Frac(y, ch);
        var x0, x1, fx := Left(x, cw), Right(x, cw), Frac(x, cw);
        CellAt(c, cw, ch, x0, y0);
        CellAt(c, cw, ch, x1, y0);
        CellAt(c, cw, ch, x0, y1);
        CellAt(c, cw, ch, x1, y1);
        var top := Lerp(c[y0 * cw + x0], c[y0 * cw + x1], fx);
        var bot := Lerp(c[y1 * cw + x0], c[y1 * cw + x1], fx);
        Write(f, fw, fh, x, y, Lerp(top, bot, fy));
      }
    }
    if cw == Half(fw) && ch == Half(fh) { UpIffInterpolates(c, f[..], fw, fh); }
  }

  // ---------------------------------------------------------------- what the kernels keep

  ghost function Dist(a: real, b: real): real {
    if a < b then b - a else a - b
  }

  /** The planes differ by no more than `e` in any cell. */
  ghost predicate Close(p: seq<real>, q: seq<real>, e: real) {
    |p| == |q| && forall i :: 0 <= i < |p| ==> Dist(p[i], q[i]) <= e
  }

  lemma {:induction false} CloseCell(p: seq<real>, q: seq<real>, w: nat, h: nat, e: real, x: int, y: int)
    requires Close(p, q, e) && IsPlane(|p|, w, h) && 0 <= x < w && 0 <= y < h
    ensures IsPlane(|q|, w, h) && Dist(Cell(p, w, h, x, y), Cell(q, w, h, x, y)) <= e
  {
    CellAt(p, w, h, x, y);
    CellAt(q, w, h, x, y);
  }

  lemma {:induction false} CloseByCell(p: seq<real>, q: seq<real>, w: nat, h: nat, e: real)
    requires IsPlane(|p|, w, h) && IsPlane(|q|, w, h)
    requires forall x, y :: 0 <= x < w && 0 <= y < h ==> Dist(Cell(p, w, h, x, y), Cell(q, w, h, x, y)) <= e
    ensures Close(p, q, e)
  {
    forall i | 0 <= i < |p| ensures Dist(p[i], q[i]) <= e {
      var x, y := CellOf(w, h, i);
      CellAt(p, w, h, x, y);
      CellAt(q, w, h, x, y);
    }
  }

  lemma {:induction false} RowTapsExpand(p: seq<real>, w: nat, h: nat, x: int, y: int)
    requires IsPlane(|p|, w, h) && w > 0 && 0 <= y < h
    ensures RowTaps(p, w, h, x, y, 5) ==
            0.0625 * Cell(p, w, h, Clamp(x - 2, w), y) + 0.25 * Cell(p, w, h, Clamp(x - 1, w), y)
            + 0.375 * Cell(p, w, h, Clamp(x, w), y)
            + 0.25 * Cell(p, w, h, Clamp(x + 1, w), y) + 0.0625 * Cell(p, w, h, Clamp(x + 2, w), y)
  {
    hide Cell, IsPlane, Clamp;
    assert RowTaps(p, w, h, x, y, 1) == 0.0625 * Cell(p, w, h, Clamp(x - 2, w), y);
    assert RowTaps(p, w, h, x, y, 2) == RowTaps(p, w, h, x, y, 1) + 0.25 * Cell(p, w, h, Clamp(x - 1, w), y);
    assert RowTaps(p, w, h, x, y, 3) == RowTaps(p, w, h, x, y, 2) + 0.375 * Cell(p, w, h, Clamp(x, w), y);
    assert RowTaps(p, w, h, x, y, 4) == RowTaps(p, w, h, x, y, 3) + 0.25 * Cell(p, w, h, Clamp(x + 1, w), y);
    assert RowTaps(p, w, h, x, y, 5) == RowTaps(p, w, h, x, y, 4) + 0.0625 * Cell(p, w, h, Clamp(x + 2, w), y);
  }

  lemma {:induction false} ColTapsExpand(p: seq<real>, w: nat, h: nat, x: int, y: int)
    requires IsPlane(|p|, w, h) && w > 0 && h > 0
    ensures SmoothAt(p, w, h, x, y) ==
            0.0625 * RowTaps(p, w, h, x, Clamp(y - 2, h), 5) + 0.25 * RowTaps(p, w, h, x, Clamp(y - 1, h), 5)
            + 0.375 * RowTaps(p, w, h, x, Clamp(y, h), 5)
            + 0.25 * RowTaps(p, w, h, x, Clamp(y + 1, h), 5) + 0.0625 * RowTaps(p, w, h, x, Clamp(y + 2, h), 5)
  {
    hide Cell, IsPlane, Clamp, RowTaps;
    assert ColTaps(p, w, h, x, y, 1) == 0.0625 * RowTaps(p, w, h, x, Clamp(y - 2, h), 5);
    assert ColTaps(p, w, h, x, y, 2) == ColTaps(p, w, h, x, y, 1) + 0.25 * RowTaps(p, w, h, x, Clamp(y - 1, h), 5);
    assert ColTaps(p, w, h, x, y, 3) == ColTaps(p, w, h, x, y, 2) + 0.375 * RowTaps(p, w, h, x, Clamp(y, h), 5);
    assert ColTaps(p, w, h, x, y, 4) == ColTaps(p, w, h, x, y, 3) + 0.25 * RowTaps(p, w, h, x, Clamp(y + 1, h), 5);
    assert ColTaps(p, w, h, x, y, 5) == ColTaps(p, w, h, x, y, 4) + 0.0625 * RowTaps(p, w, h, x, Clamp(y + 2, h), 5);
  }

  /** The kernel has unit mass: weighting five values never widens their differences. */
  lemma {:induction false} FiveClose(a: real, b: real, c: real, d: real, f: real,
                                     a': real, b': real, c': real, d': real, f': real, e: real)
    requires Dist(a, a') <= e && Dist(b, b') <= e && Dist(c, c') <= e && Dist(d, d') <= e && Dist(f, f') <= e
    ensures Dist(0.0625 * a + 0.25 * b + 0.375 * c + 0.25 * d + 0.0625 * f,
                 0.0625 * a' + 0.25 * b' + 0.375 * c' + 0.25 * d' + 0.0625 * f') <= e
  {
    assert -e <= a - a' <= e && -e <= b - b' <= e && -e <= c - c' <= e && -e <= d - d' <= e && -e <= f - f' <= e;
  }

  /** Smoothing never widens a difference. */
  lemma {:induction false} SmoothClose(p: seq<real>, q: seq<real>, w: nat, h: nat, e: real, x: int, y: int)
    requires Close(p, q, e) && IsPlane(|p|, w, h) && IsPlane(|q|, w, h) && w > 0 && h > 0
    ensures Dist(SmoothAt(p, w, h, x, y), SmoothAt(q, w, h, x, y)) <= e
  {
    hide RowTaps, SmoothAt, Dist, Clamp, Cell, IsPlane, Close;
    var y0, y1, y2, y3, y4 := Clamp(y - 2, h), Clamp(y - 1, h), Clamp(y, h), Clamp(y + 1, h), Clamp(y + 2, h);
    RowClose(p, q, w, h, e, x, y0);
    RowClose(p, q, w, h, e, x, y1);
    RowClose(p, q, w, h, e, x, y2);
    RowClose(p, q, w, h, e, x, y3);
    RowClose(p, q, w, h, e, x, y4);
    FiveClose(RowTaps(p, w, h, x, y0, 5), RowTaps(p, w, h, x, y1, 5), RowTaps(p, w, h, x, y2, 5),
              RowTaps(p, w, h, x, y3, 5), RowTaps(p, w, h, x, y4, 5),
              RowTaps(q, w, h, x, y0, 5), RowTaps(q, w, h, x, y1, 5), RowTaps(q, w, h, x, y2, 5),
              RowTaps(q, w, h, x, y3, 5), RowTaps(q, w, h, x, y4, 5), e);
    ColTapsExpand(p, w, h, x, y);
    ColTapsExpand(q, w, h, x, y);
  }

  lemma {:induction false} RowClose(p: seq<real>, q: seq<real>, w: nat, h: nat, e: real, x: int, y: int)
    requires Close(p, q, e) && IsPlane(|p|, w, h) && IsPlane(|q|, w, h) && w > 0 && 0 <= y < h
    ensures Dist(RowTaps(p, w, h, x, y, 5), RowTaps(q, w, h, x, y, 5)) <= e
  {
    hide RowTaps, Cell, Dist, Clamp, IsPlane, Close;
    var x0, x1, x2, x3, x4 := Clamp(x - 2, w), Clamp(x - 1, w), Clamp(x, w), Clamp(x + 1, w), Clamp(x + 2, w);
    CloseCell(p, q, w, h, e, x0, y);
    CloseCell(p, q, w, h, e, x1, y);
    CloseCell(p, q, w, h, e, x2, y);
    CloseCell(p, q, w, h, e, x3, y);
    CloseCell(p, q, w, h, e, x4, y);
    FiveClose(Cell(p, w, h, x0, y), Cell(p, w, h, x1, y), Cell(p, w, h, x2, y), Cell(p, w, h, x3, y),
              Cell(p, w, h, x4, y),
              Cell(q, w, h, x0, y), Cell(q, w, h, x1, y), Cell(q, w, h, x2, y), Cell(q, w, h, x3, y),
              Cell(q, w, h, x4, y), e);
    RowTapsExpand(p, w, h, x, y);
    RowTapsExpand(q, w, h, x, y);
  }

  lemma {:induction false} DownClose(p: seq<real>, q: seq<real>, p': seq<real>, q': seq<real>, w: nat, h: nat, e: real)
    requires Close(p, p', e) && IsDown(p, q, w, h) && IsDown(p', q', w, h)
    ensures Close(q, q', e)
  {
    hide SmoothAt, Cell, Half;
    forall x, y | 0 <= x < Half(w) && 0 <= y < Half(h)
      ensures Dist(Cell(q, Half(w), Half(h), x, y), Cell(q', Half(w), Half(h), x, y)) <= e
    {
      SmoothClose(p, p', w, h, e, 2 * x, 2 * y);
    }
    CloseByCell(q, q', Half(w), Half(h), e);
  }

  lemma {:induction false} FracOf(x: nat, cw: nat)
    requires cw > 0 && x / 2 <= cw - 1
    ensures Frac(x, cw) == 0.0 || Frac(x, cw) == 0.5
  {
    assert x == 2 * (x / 2) || x == 2 * (x / 2) + 1;
  }

  lemma {:induction false} LerpClose(a: real, b: real, a': real, b': real, f: real, e: real)
    requires f == 0.0 || f == 0.5
    requires Dist(a, a') <= e && Dist(b, b') <= e
    ensures Dist(Lerp(a, b, f), Lerp(a', b', f)) <= e
  {
    if f == 0.0 {
      assert Lerp(a, b, 0.0) == a && Lerp(a', b', 0.0) == a';
    } else {
      assert Lerp(a, b, 0.5) == 0.5 * a + 0.5 * b && Lerp(a', b', 0.5) == 0.5 * a' + 0.5 * b';
    }
  }

  /** Upsampling takes convex combinations: it never widens a difference. */
  lemma {:induction false} UpClose(c: seq<real>, f: seq<real>, c': seq<real>, f': seq<real>, cw: nat, ch: nat, fw: nat,
                                   fh: nat, e: real)
    requires Close(c, c', e) && IsUp(c, f, cw, ch, fw, fh) && IsUp(c', f', cw, ch, fw, fh)
    requires cw == Half(fw) && ch == Half(fh)
    ensures Close(f, f', e)
  {
    forall x, y | 0 <= x < fw && 0 <= y < fh
      ensures Dist(Cell(f, fw, fh, x, y), Cell(f', fw, fh, x, y)) <= e
    {
      UpCloseAt(c, c', cw, ch, e, x, y);
    }
    CloseByCell(f, f', fw, fh, e);
  }

  lemma {:induction false} InterpolationClose(c: seq<real>, f: seq<real>, c': seq<real>, f': seq<real>, w: nat, h: nat,
                                              e: real)
    requires Close(c, c', e) && Interpolates(c, f, w, h) && Interpolates(c', f', w, h)
    ensures Close(f, f', e)
  {
    UpIffInterpolates(c, f, w, h);
    UpIffInterpolates(c', f', w, h);
    hide IsUp, Interpolates;
    UpClose(c, f, c', f', Half(w), Half(h), w, h, e);
  }

  lemma {:induction false} UpCloseAt(c: seq<real>, c': seq<real>, cw: nat, ch: nat, e: real, x: nat, y: nat)
    requires Close(c, c', e) && IsPlane(|c|, cw, ch) && IsPlane(|c'|, cw, ch) && cw > 0 && ch > 0
    requires x / 2 <= cw - 1 && y / 2 <= ch - 1
    ensures Dist(UpAt(c, cw, ch, x, y), UpAt(c', cw, ch, x, y)) <= e
  {
    hide Cell, Lerp, Left, Right, Frac, Dist;
    var (x0, x1, y0, y1) := (Left(x, cw), Right(x, cw), Left(y, ch), Right(y, ch));
    CloseCell(c, c', cw, ch, e, x0, y0);
    CloseCell(c, c', cw, ch, e, x1, y0);
    CloseCell(c, c', cw, ch, e, x0, y1);
    CloseCell(c, c', cw, ch, e, x1, y1);
    FracOf(x, cw);
    FracOf(y, ch);
    LerpClose(Cell(c, cw, ch, x0, y0), Cell(c, cw, ch, x1, y0), Cell(c', cw, ch, x0, y0), Cell(c', cw, ch, x1, y0),
              Frac(x, cw), e);
    LerpClose(Cell(c, cw, ch, x0, y1), Cell(c, cw, ch, x1, y1), Cell(c', cw, ch, x0, y1), Cell(c', cw, ch, x1, y1),
              Frac(x, cw), e);
    LerpClose(Lerp(Cell(c, cw, ch, x0, y0), Cell(c, cw, ch, x1, y0), Frac(x, cw)),
              Lerp(Cell(c, cw, ch, x0, y1), Cell(c, cw, ch, x1, y1), Frac(x, cw)),
              Lerp(Cell(c', cw, ch, x0, y0), Cell(c', cw, ch, x1, y0), Frac(x, cw)),
              Lerp(Cell(c', cw, ch, x0, y1), Cell(c', cw, ch, x1, y1), Frac(x, cw)), Frac(y, ch), e);
  }
}
