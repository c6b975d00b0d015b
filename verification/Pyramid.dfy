/** Laplacian pyramids of cell planes under a validity plane, ownership-mask pyramids, and their
    blend (crates/mmm-core/src/pyramid.rs). */
module Pyramid {
  import opened Entrywise
  import opened Grid
  import opened PyramidKernels
  import opened Reals
  import Indexing

  const EPS_WEIGHT: real := 0.000001
  const MASK_SUPPORT_MIN: real := 0.001

  type Plane = seq<real>

  /** Extent of level `l` along an axis of `n` cells. */
  function Level(n: nat, l: nat): nat {
    if l == 0 then n else Half(Level(n, l - 1))
  }

  // ---------------------------------------------------------------- pointwise maps

  function Times(p: Plane, v: Plane): (r: Plane)
    requires |p| == |v|
    ensures |r| == |p| && forall i :: 0 <= i < |p| ==> r[i] == Mul(p[i], v[i])
  {
    seq(|p|, i requires 0 <= i < |p| == |v| => Mul(p[i], v[i]))
  }

  function Over(a: real, v: real): real {
    if v > EPS_WEIGHT then a / v else 0.0
  }

  /** Normalised data: the zero sentinel where the weight vanishes. */
  function Ratio(a: Plane, v: Plane): (r: Plane)
    requires |a| == |v|
    ensures |r| == |a| && forall i :: 0 <= i < |a| ==> r[i] == Over(a[i], v[i])
  {
    seq(|a|, i requires 0 <= i < |a| == |v| => Over(a[i], v[i]))
  }

  /** Mask values survive only where enough of the cell is valid. */
  function Supported(m: Plane, v: Plane): (r: Plane)
    requires |m| == |v|
    ensures |r| == |m| && forall i :: 0 <= i < |m| ==> r[i] == if v[i] >= MASK_SUPPORT_MIN then m[i] else 0.0
  {
    seq(|m|, i requires 0 <= i < |m| == |v| => if v[i] >= MASK_SUPPORT_MIN then m[i] else 0.0)
  }

  // ---------------------------------------------------------------- specification

  /** The Gaussian chain of a plane: each level the decimated smoothing of the one before. */
  ghost predicate IsChain(c: seq<Plane>, base: Plane, w: nat, h: nat, n: nat) {
    && |c| == n + 1 && c[0] == base && IsPlane(|base|, w, h)
    && forall l :: 0 <= l < n ==> IsDown(c[l], c[l + 1], Level(w, l), Level(h, l))
  }

  lemma {:induction false} ChainPlanes(c: seq<Plane>, base: Plane, w: nat, h: nat, n: nat, l: nat)
    requires IsChain(c, base, w, h, n) && l <= n
    ensures IsPlane(|c[l]|, Level(w, l), Level(h, l))
  {
    if l > 0 { assert IsDown(c[l - 1], c[l], Level(w, l - 1), Level(h, l - 1)); }
  }

  /** The difference levels and the residual of a Gaussian pyramid `g`. */
  ghost predicate IsLaplacian(g: seq<Plane>, w: nat, h: nat, n: nat, levels: seq<Plane>) {
    && |g| == |levels| == n + 1 && levels[n] == g[n]
    && forall l :: 0 <= l < n ==> IsDifference(g[l], g[l + 1], levels[l], Level(w, l), Level(h, l))
  }

  /** `d` is the fine plane minus the upsampled coarse one. */
  ghost predicate IsDifference(fine: Plane, coarse: Plane, d: Plane, w: nat, h: nat) {
    exists up: Plane :: Interpolates(coarse, up, w, h) && |up| == |fine| && d == Minus(fine, up)
  }

  /** The normalised data levels of a chain pair. */
  ghost predicate IsGauss(a: seq<Plane>, v: seq<Plane>, g: seq<Plane>) {
    |a| == |v| == |g| && forall l :: 0 <= l < |g| ==> |a[l]| == |v[l]| && g[l] == Ratio(a[l], v[l])
  }

  /** `levels` is the masked pyramid of `plane` under `valid`; `g` are its data levels, `v` the
      validity levels. */
  ghost predicate IsBuilt(plane: Plane, valid: Plane, w: nat, h: nat, n: nat, levels: seq<Plane>, g: seq<Plane>,
                          v: seq<Plane>) {
    && |plane| == |valid|
    && IsChain(v, valid, w, h, n)
    && (exists a: seq<Plane> :: IsChain(a, Times(plane, valid), w, h, n) && IsGauss(a, v, g))
    && IsLaplacian(g, w, h, n, levels)
  }

  /** `levels` is what building the masked pyramid of `plane` under `valid` gives. */
  ghost predicate IsPyramid(plane: Plane, valid: Plane, w: nat, h: nat, n: nat, levels: seq<Plane>) {
    exists g: seq<Plane>, v: seq<Plane> :: IsBuilt(plane, valid, w, h, n, levels, g, v)
  }

  /** The planes a collapse passes through, coarsest last. */
  ghost predicate IsCollapse(levels: seq<Plane>, w: nat, h: nat, n: nat, cur: seq<Plane>) {
    && |levels| == |cur| == n + 1 && cur[n] == levels[n]
    && forall l :: 0 <= l < n ==> IsSum(levels[l], cur[l + 1], cur[l], Level(w, l), Level(h, l))
  }

  ghost predicate IsSum(d: Plane, coarse: Plane, fine: Plane, w: nat, h: nat) {
    exists up: Plane :: Interpolates(coarse, up, w, h) && |up| == |d| && fine == Plus(d, up)
  }

  // ---------------------------------------------------------------- uniqueness

  lemma {:induction false} CloseZero(p: Plane, q: Plane)
    requires Close(p, q, 0.0)
    ensures p == q
  {
  }

  lemma {:induction false} CloseSelf(p: Plane)
    ensures Close(p, p, 0.0)
  {
  }

  lemma {:induction false} UpUnique(c: Plane, f: Plane, f': Plane, w: nat, h: nat)
    requires Interpolates(c, f, w, h) && Interpolates(c, f', w, h)
    ensures f == f'
  {
    CloseSelf(c);
    InterpolationClose(c, f, c, f', w, h, 0.0);
    CloseZero(f, f');
  }

  lemma {:induction false} DownUnique(p: Plane, q: Plane, q': Plane, w: nat, h: nat)
    requires IsDown(p, q, w, h) && IsDown(p, q', w, h)
    ensures q == q'
  {
    CloseSelf(p);
    DownClose(p, q, p, q', w, h, 0.0);
    CloseZero(q, q');
  }

  lemma {:induction false} ChainUnique(c: seq<Plane>, c': seq<Plane>, base: Plane, w: nat, h: nat, n: nat, l: nat)
    requires IsChain(c, base, w, h, n) && IsChain(c', base, w, h, n) && l <= n
    ensures c[l] == c'[l]
  {
    if l > 0 {
      ChainUnique(c, c', base, w, h, n, l - 1);
      DownUnique(c[l - 1], c[l], c'[l], Level(w, l - 1), Level(h, l - 1));
    }
  }

  // ---------------------------------------------------------------- build and collapse undo each other

  lemma {:induction false} SumUndoesDifference(fine: Plane, coarse: Plane, d: Plane, back: Plane, w: nat, h: nat)
    requires IsDifference(fine, coarse, d, w, h) && IsSum(d, coarse, back, w, h)
    ensures back == fine
  {
    hide Interpolates;
    var up: Plane :| Interpolates(coarse, up, w, h) && |up| == |fine| && d == Minus(fine, up);
    var up': Plane :| Interpolates(coarse, up', w, h) && |up'| == |d| && back == Plus(d, up');
    UpUnique(coarse, up, up', w, h);
  }

  /** Collapsing a Laplacian pyramid gives back its Gaussian levels, every one of them. */
  lemma {:induction false} CollapseIsGauss(g: seq<Plane>, w: nat, h: nat, n: nat, levels: seq<Plane>, cur: seq<Plane>,
                                           l: nat)
    requires IsLaplacian(g, w, h, n, levels) && IsCollapse(levels, w, h, n, cur) && l <= n
    ensures cur[l] == g[l]
    decreases n - l
  {
    hide IsDifference, IsSum;
    if l < n {
      CollapseIsGauss(g, w, h, n, levels, cur, l + 1);
      SumUndoesDifference(g[l], g[l + 1], levels[l], cur[l], Level(w, l), Level(h, l));
    }
  }

  lemma {:induction false} OverTimes(p: real, v: real)
    requires v > EPS_WEIGHT
    ensures Over(Mul(p, v), v) == p
  {
    var a := p * v;
    assert a / v == p;
  }

  /** Round trip: the plane itself wherever it is valid, the sentinel elsewhere. */
  lemma {:induction false} RoundTrip(plane: Plane, valid: Plane, w: nat, h: nat, n: nat,
                                     levels: seq<Plane>, g: seq<Plane>, v: seq<Plane>, cur: seq<Plane>)
    requires IsBuilt(plane, valid, w, h, n, levels, g, v) && IsCollapse(levels, w, h, n, cur)
    ensures |cur[0]| == |plane|
    ensures forall i :: 0 <= i < |plane| ==> cur[0][i] == if valid[i] > EPS_WEIGHT then plane[i] else 0.0
  {
    hide IsDown, IsLaplacian, IsCollapse, Over;
    CollapseIsGauss(g, w, h, n, levels, cur, 0);
    var a: seq<Plane> :| IsChain(a, Times(plane, valid), w, h, n) && IsGauss(a, v, g);
    forall i | 0 <= i < |plane|
      ensures Over(Mul(plane[i], valid[i]), valid[i]) == if valid[i] > EPS_WEIGHT then plane[i] else 0.0
    {
      RatioAt(plane[i], valid[i]);
    }
  }

  lemma {:induction false} RatioAt(p: real, v: real)
    ensures Over(Mul(p, v), v) == if v > EPS_WEIGHT then p else 0.0
  {
    if v > EPS_WEIGHT { OverTimes(p, v); }
  }

  lemma {:induction false} DifferenceUnique(fine: Plane, coarse: Plane, d: Plane, d': Plane, w: nat, h: nat)
    requires IsDifference(fine, coarse, d, w, h) && IsDifference(fine, coarse, d', w, h)
    ensures d == d'
  {
    hide Interpolates;
    var up: Plane :| Interpolates(coarse, up, w, h) && |up| == |fine| && d == Minus(fine, up);
    var up': Plane :| Interpolates(coarse, up', w, h) && |up'| == |fine| && d' == Minus(fine, up');
    UpUnique(coarse, up, up', w, h);
  }

  /** Values under zero validity reach no level. */
  lemma {:induction false} InvalidValuesIgnored(plane: Plane, plane': Plane, valid: Plane, w: nat, h: nat, n: nat,
                                                levels: seq<Plane>, g: seq<Plane>, v: seq<Plane>,
                                                levels': seq<Plane>, g': seq<Plane>, v': seq<Plane>)
    requires IsBuilt(plane, valid, w, h, n, levels, g, v) && IsBuilt(plane', valid, w, h, n, levels', g', v')
    requires forall i :: 0 <= i < |valid| && valid[i] != 0.0 ==> plane[i] == plane'[i]
    ensures levels == levels'
  {
    hide IsDown, IsDifference;
    assert Times(plane, valid) == Times(plane', valid) by {
      forall i | 0 <= i < |valid| ensures Mul(plane[i], valid[i]) == Mul(plane'[i], valid[i]) {
        if valid[i] == 0.0 { ZeroFactor(plane[i]); ZeroFactor(plane'[i]); }
      }
      hide Mul;
    }
    var a: seq<Plane> :| IsChain(a, Times(plane, valid), w, h, n) && IsGauss(a, v, g);
    var a': seq<Plane> :| IsChain(a', Times(plane', valid), w, h, n) && IsGauss(a', v', g');
    forall l | 0 <= l <= n ensures g[l] == g'[l] {
      ChainUnique(a, a', Times(plane, valid), w, h, n, l);
      ChainUnique(v, v', valid, w, h, n, l);
    }
    forall l | 0 <= l <= n ensures levels[l] == levels'[l] {
      if l < n { DifferenceUnique(g[l], g[l + 1], levels[l], levels'[l], Level(w, l), Level(h, l)); }
    }
  }

  lemma {:induction false} ZeroFactor(x: real)
    ensures Mul(x, 0.0) == 0.0
  {
  }

  // ---------------------------------------------------------------- existence

  ghost function DownOf(p: Plane, w: nat, h: nat): Plane
    requires IsPlane(|p|, w, h)
  {
    if w == 0 || h == 0 then []
    else
      seq(Half(w) * Half(h), i requires 0 <= i && IsPlane(|p|, w, h) && w > 0 && h > 0 =>
        SmoothAt(p, w, h, 2 * (i % Half(w)), 2 * (i / Half(w))))
  }

  lemma {:induction false} DownOfIsDown(p: Plane, w: nat, h: nat)
    requires IsPlane(|p|, w, h)
    ensures IsDown(p, DownOf(p, w, h), w, h)
  {
    var q, w2, h2 := DownOf(p, w, h), Half(w), Half(h);
    forall x, y | 0 <= x < w2 && 0 <= y < h2
      ensures IsPlane(|q|, w2, h2) && Cell(q, w2, h2, x, y) == SmoothAt(p, w, h, 2 * x, 2 * y)
    {
      hide SmoothAt;
      Indexing.InBounds(w2, h2, x, y);
      var x', y' := CellOf(w2, h2, y * w2 + x);
      Indexing.Injective(w2, x', y', x, y);
    }
  }

  ghost function UpCell(c: Plane, w: nat, h: nat, i: nat): real
    requires IsPlane(|c|, Half(w), Half(h)) && w > 0 && h > 0
  {
    UpAt(c, Half(w), Half(h), i % w, i / w)
  }

  ghost function UpOf(c: Plane, w: nat, h: nat): Plane
    requires IsPlane(|c|, Half(w), Half(h))
  {
    if w == 0 || h == 0 then []
    else
      seq(w * h, i requires 0 <= i && IsPlane(|c|, Half(w), Half(h)) && w > 0 && h > 0 => UpCell(c, w, h, i))
  }

  lemma {:induction false} UpOfIsUp(c: Plane, w: nat, h: nat)
    requires IsPlane(|c|, Half(w), Half(h))
    ensures IsUp(c, UpOf(c, w, h), Half(w), Half(h), w, h)
  {
    var f := UpOf(c, w, h);
    forall x, y | 0 <= x < w && 0 <= y < h
      ensures IsPlane(|f|, w, h) && Cell(f, w, h, x, y) == UpAt(c, Half(w), Half(h), x, y)
    {
      hide UpAt;
      Indexing.InBounds(w, h, x, y);
      var x', y' := CellOf(w, h, y * w + x);
      Indexing.Injective(w, x', y', x, y);
    }
  }

  lemma {:induction false} UpOfInterpolates(c: Plane, w: nat, h: nat)
    requires IsPlane(|c|, Half(w), Half(h))
    ensures Interpolates(c, UpOf(c, w, h), w, h)
  {
    UpOfIsUp(c, w, h);
    hide UpOf, IsUp, Interpolates;
    UpIffInterpolates(c, UpOf(c, w, h), w, h);
  }

  lemma {:induction false} ChainExists(base: Plane, w: nat, h: nat, n: nat) returns (c: seq<Plane>)
    requires IsPlane(|base|, w, h)
    ensures IsChain(c, base, w, h, n)
  {
    hide IsDown;
    if n == 0 {
      c := [base];
    } else {
      var d := ChainExists(base, w, h, n - 1);
      ChainPlanes(d, base, w, h, n - 1, n - 1);
      DownOfIsDown(d[n - 1], Level(w, n - 1), Level(h, n - 1));
      c := d + [DownOf(d[n - 1], Level(w, n - 1), Level(h, n - 1))];
    }
  }

  lemma {:induction false} UpPlane(c: Plane, f: Plane, w: nat, h: nat)
    requires Interpolates(c, f, w, h)
    ensures IsPlane(|f|, w, h)
  {
  }

  lemma {:induction false} DifferenceExists(fine: Plane, coarse: Plane, w: nat, h: nat) returns (d: Plane)
    requires IsPlane(|fine|, w, h) && IsPlane(|coarse|, Half(w), Half(h))
    ensures IsDifference(fine, coarse, d, w, h)
  {
    var up := UpOf(coarse, w, h);
    UpOfInterpolates(coarse, w, h);
    UpPlane(coarse, up, w, h);
    hide Interpolates, UpOf;
    d := Minus(fine, up);
  }

  lemma {:induction false} LaplacianExists(g: seq<Plane>, w: nat, h: nat, n: nat, m: nat) returns (levels: seq<Plane>)
    requires |g| == n + 1 && m <= n
    requires forall l :: 0 <= l <= n ==> IsPlane(|g[l]|, Level(w, l), Level(h, l))
    ensures |levels| == m
    ensures forall l {:trigger levels[l]} :: 0 <= l < m ==>
              IsDifference(g[l], g[l + 1], levels[l], Level(w, l), Level(h, l))
  {
    hide IsDifference, IsPlane;
    if m == 0 {
      levels := [];
    } else {
      var rest := LaplacianExists(g, w, h, n, m - 1);
      var d := DifferenceExists(g[m - 1], g[m], Level(w, m - 1), Level(h, m - 1));
      levels := rest + [d];
      hide Level;
      forall l | 0 <= l < m ensures IsDifference(g[l], g[l + 1], levels[l], Level(w, l), Level(h, l)) {
        if l < m - 1 { assert levels[l] == rest[l]; }
      }
    }
  }

  // ---------------------------------------------------------------- all-ones validity

  ghost predicate IsOnes(v: Plane) {
    forall i :: 0 <= i < |v| ==> v[i] == 1.0
  }

  lemma {:induction false} SmoothOnes(p: Plane, w: nat, h: nat, x: int, y: int)
    requires IsOnes(p) && IsPlane(|p|, w, h) && w > 0 && h > 0
    ensures SmoothAt(p, w, h, x, y) == 1.0
  {
    forall u, t | 0 <= u < w && 0 <= t < h ensures Cell(p, w, h, u, t) == 1.0 { CellAt(p, w, h, u, t); }
    forall t | 0 <= t < h ensures RowTaps(p, w, h, x, t, 5) == 1.0 {
      hide Cell, RowTaps, Clamp;
      RowTapsExpand(p, w, h, x, t);
    }
    hide RowTaps, Clamp, SmoothAt;
    ColTapsExpand(p, w, h, x, y);
  }

  lemma {:induction false} OnesStay(v: seq<Plane>, base: Plane, w: nat, h: nat, n: nat, l: nat)
    requires IsChain(v, base, w, h, n) && IsOnes(base) && l <= n
    ensures IsOnes(v[l])
  {
    if l > 0 {
      OnesStay(v, base, w, h, n, l - 1);
      var p, q, pw, ph := v[l - 1], v[l], Level(w, l - 1), Level(h, l - 1);
      assert IsDown(p, q, pw, ph);
      forall i | 0 <= i < |q| ensures q[i] == 1.0 {
        hide SmoothAt, Half;
        var x, y := CellOf(Half(pw), Half(ph), i);
        CellAt(q, Half(pw), Half(ph), x, y);
        SmoothOnes(p, pw, ph, 2 * x, 2 * y);
      }
    }
  }

  lemma {:induction false} RatioOnes(a: Plane, v: Plane)
    requires |a| == |v| && IsOnes(v)
    ensures Ratio(a, v) == a
  {
  }

  lemma {:induction false} TimesOnes(p: Plane, v: Plane)
    requires |p| == |v| && IsOnes(v)
    ensures Times(p, v) == p
  {
  }

  /** Under all-ones validity the data levels are the Gaussian chain of the plane. */
  lemma {:induction false} BuiltOnes(plane: Plane, ones: Plane, w: nat, h: nat, n: nat, levels: seq<Plane>,
                                     g: seq<Plane>, v: seq<Plane>)
    requires IsBuilt(plane, ones, w, h, n, levels, g, v) && IsOnes(ones)
    ensures IsChain(g, plane, w, h, n)
  {
    hide IsDown, IsLaplacian, IsOnes;
    var a: seq<Plane> :| IsChain(a, Times(plane, ones), w, h, n) && IsGauss(a, v, g);
    TimesOnes(plane, ones);
    forall l | 0 <= l <= n ensures g[l] == a[l] {
      OnesStay(v, ones, w, h, n, l);
      RatioOnes(a[l], v[l]);
    }
    assert g == a;
  }

  // ---------------------------------------------------------------- stability of the blend

  lemma {:induction false} ChainClose(c: seq<Plane>, c': seq<Plane>, p: Plane, p': Plane, w: nat, h: nat, n: nat,
                                      e: real, l: nat)
    requires IsChain(c, p, w, h, n) && IsChain(c', p', w, h, n) && Close(p, p', e) && l <= n
    ensures Close(c[l], c'[l], e)
  {
    hide Close, IsDown;
    if l > 0 {
      ChainClose(c, c', p, p', w, h, n, e, l - 1);
      DownClose(c[l - 1], c[l], c'[l - 1], c'[l], Level(w, l - 1), Level(h, l - 1), e);
    }
  }

  lemma {:induction false} DifferenceClose(g: Plane, k: Plane, d: Plane, g': Plane, k': Plane, d': Plane, w: nat,
                                           h: nat, e: real)
    requires IsDifference(g, k, d, w, h) && IsDifference(g', k', d', w, h) && Close(g, g', e) && Close(k, k', e)
    ensures Close(d, d', 2.0 * e)
  {
    hide Interpolates;
    var up: Plane :| Interpolates(k, up, w, h) && |up| == |g| && d == Minus(g, up);
    var up': Plane :| Interpolates(k', up', w, h) && |up'| == |g'| && d' == Minus(g', up');
    InterpolationClose(k, up, k', up', w, h, e);
  }

  lemma {:induction false} SumClose(d: Plane, k: Plane, f: Plane, d': Plane, k': Plane, f': Plane, w: nat, h: nat,
                                    e: real, e': real)
    requires IsSum(d, k, f, w, h) && IsSum(d', k', f', w, h) && Close(d, d', e) && Close(k, k', e')
    ensures Close(f, f', e + e')
  {
    hide Interpolates;
    var up: Plane :| Interpolates(k, up, w, h) && |up| == |d| && f == Plus(d, up);
    var up': Plane :| Interpolates(k', up', w, h) && |up'| == |d'| && f' == Plus(d', up');
    InterpolationClose(k, up, k', up', w, h, e');
  }

  lemma {:induction false} DifferenceSums(g: Plane, k: Plane, d: Plane, w: nat, h: nat)
    requires IsDifference(g, k, d, w, h)
    ensures IsSum(d, k, g, w, h)
  {
    hide Interpolates;
    var up: Plane :| Interpolates(k, up, w, h) && |up| == |g| && d == Minus(g, up);
    assert Plus(d, up) == g;
  }

  /** Sums over the first `k` panels at cell `i` of one level. */
  ghost function MaskSum(masks: seq<Plane>, i: nat, k: nat): real
    requires k <= |masks| && forall j :: 0 <= j < |masks| ==> i < |masks[j]|
  {
    if k == 0 then 0.0 else MaskSum(masks, i, k - 1) + masks[k - 1][i]
  }

  ghost function DataSum(datas: seq<Plane>, masks: seq<Plane>, i: nat, k: nat): real
    requires k <= |masks| == |datas|
    requires forall j :: 0 <= j < |masks| ==> i < |masks[j]| && i < |datas[j]|
  {
    if k == 0 then 0.0 else DataSum(datas, masks, i, k - 1) + Mul(masks[k - 1][i], datas[k - 1][i])
  }

  /** Mask-weighted mean of one level over the panels, zero where the masks vanish. */
  ghost predicate IsBlendLevel(datas: seq<Plane>, masks: seq<Plane>, out: Plane) {
    && |datas| == |masks|
    && (forall j :: 0 <= j < |datas| ==> |datas[j]| == |masks[j]| == |out|)
    && forall i :: 0 <= i < |out| ==>
         out[i] == Over(DataSum(datas, masks, i, |datas|), MaskSum(masks, i, |datas|))
  }

  ghost predicate MasksPositive(masks: seq<Plane>, cells: nat) {
    && (forall j :: 0 <= j < |masks| ==> |masks[j]| == cells && forall i :: 0 <= i < cells ==> masks[j][i] >= 0.0)
    && forall i :: 0 <= i < cells ==> MaskSum(masks, i, |masks|) > EPS_WEIGHT
  }

  lemma {:induction false} SumsWithin(datas: seq<Plane>, masks: seq<Plane>, i: nat, k: nat, lo: real, hi: real)
    requires k <= |masks| == |datas|
    requires forall j :: 0 <= j < |masks| ==>
               i < |masks[j]| && i < |datas[j]| && masks[j][i] >= 0.0 && lo <= datas[j][i] <= hi
    ensures Mul(lo, MaskSum(masks, i, k)) <= DataSum(datas, masks, i, k) <= Mul(hi, MaskSum(masks, i, k))
  {
    if k == 0 {
      ZeroFactor(lo);
      ZeroFactor(hi);
    } else {
      SumsWithin(datas, masks, i, k - 1, lo, hi);
      var m, d, s := masks[k - 1][i], datas[k - 1][i], MaskSum(masks, i, k - 1);
      Distribute(lo, s, m);
      Distribute(hi, s, m);
      ScaleOrder(m, lo, d);
      ScaleOrder(m, d, hi);
      hide Mul;
    }
  }

  /** Scaling by a nonnegative factor keeps order. */
  lemma {:induction false} ScaleOrder(m: real, a: real, b: real)
    requires m >= 0.0 && a <= b
    ensures Mul(a, m) <= Mul(m, b) && Mul(m, a) <= Mul(b, m)
    ensures Mul(a, m) == Mul(m, a) && Mul(b, m) == Mul(m, b)
  {
    MulSign(m, b - a);
    assert Mul(m, b) == Mul(m, a) + Mul(m, b - a);
    Associate(a, m, 1.0);
    Associate(b, m, 1.0);
    hide Mul;
  }

  lemma {:induction false} BlendWithin(datas: seq<Plane>, masks: seq<Plane>, out: Plane, i: nat, lo: real, hi: real)
    requires IsBlendLevel(datas, masks, out) && MasksPositive(masks, |out|) && i < |out|
    requires forall j :: 0 <= j < |datas| ==> lo <= datas[j][i] <= hi
    ensures lo <= out[i] <= hi
  {
    SumsWithin(datas, masks, i, |datas|, lo, hi);
    var d, m := DataSum(datas, masks, i, |datas|), MaskSum(masks, i, |datas|);
    QuotientBounds(d, m, lo, hi);
  }

  lemma {:induction false} BlendClose(datas: seq<Plane>, masks: seq<Plane>, out: Plane, ideal: Plane, e: real)
    requires IsBlendLevel(datas, masks, out) && MasksPositive(masks, |out|) && |datas| > 0
    requires forall j :: 0 <= j < |datas| ==> Close(datas[j], ideal, e)
    ensures Close(out, ideal, e)
  {
    assert |datas[0]| == |ideal|;
    forall i | 0 <= i < |out| ensures Dist(out[i], ideal[i]) <= e {
      forall j | 0 <= j < |datas| ensures ideal[i] - e <= datas[j][i] <= ideal[i] + e {
        assert Dist(datas[j][i], ideal[i]) <= e;
      }
      BlendWithin(datas, masks, out, i, ideal[i] - e, ideal[i] + e);
    }
  }

  /** The levels numbered `l` of several pyramids. */
  function LevelOf(pyramids: seq<seq<Plane>>, l: nat): (r: seq<Plane>)
    requires forall k :: 0 <= k < |pyramids| ==> l < |pyramids[k]|
    ensures |r| == |pyramids| && forall k :: 0 <= k < |r| ==> r[k] == pyramids[k][l]
  {
    seq(|pyramids|, k requires 0 <= k < |pyramids| && l < |pyramids[k]| => pyramids[k][l])
  }

  /** `blended` is the level-by-level blend of the data pyramids under the mask pyramids. */
  ghost predicate IsBlend(datas: seq<seq<Plane>>, masks: seq<seq<Plane>>, n: nat, blended: seq<Plane>) {
    && |datas| == |masks| && |blended| == n + 1
    && (forall k :: 0 <= k < |datas| ==> |datas[k]| == |masks[k]| == n + 1)
    && forall l :: 0 <= l <= n ==> IsBlendLevel(LevelOf(datas, l), LevelOf(masks, l), blended[l])
  }

  /** Error bound at level `l` of a collapse from level `n`. */
  function Drift(n: nat, l: nat, e: real): real
    requires l <= n
    decreases n - l
  {
    if l == n then e else 2.0 * e + Drift(n, l + 1, e)
  }

  lemma {:induction false} DriftIs(n: nat, l: nat, e: real)
    requires l <= n
    ensures Drift(n, l, e) == (2 * (n - l) + 1) as real * e
    decreases n - l
  {
    if l < n {
      DriftIs(n, l + 1, e);
      var k := (2 * (n - l - 1) + 1) as real;
      assert (k + 2.0) * e == k * e + 2.0 * e;
    }
  }

  /** What panel `k` of a blend contributes: its own pyramid, within `e` of the common plane. */
  ghost predicate IsPanel(panel: Plane, common: Plane, ones: Plane, w: nat, h: nat, n: nat, e: real, data: seq<Plane>) {
    && Close(panel, common, e)
    && IsPyramid(panel, ones, w, h, n, data)
  }

  lemma {:induction false} PanelLevelClose(panel: Plane, common: Plane, ones: Plane, w: nat, h: nat, n: nat, e: real,
                                           data: seq<Plane>, levels: seq<Plane>, g: seq<Plane>, v: seq<Plane>, l: nat)
    requires IsOnes(ones) && IsPanel(panel, common, ones, w, h, n, e, data)
    requires IsBuilt(common, ones, w, h, n, levels, g, v) && l <= n
    ensures |data| == |levels| == n + 1 && Close(data[l], levels[l], if l < n then 2.0 * e else e)
  {
    hide Close, IsDown, IsDifference, IsOnes;
    var pg: seq<Plane>, pv: seq<Plane> :| IsBuilt(panel, ones, w, h, n, data, pg, pv);
    BuiltOnes(panel, ones, w, h, n, data, pg, pv);
    BuiltOnes(common, ones, w, h, n, levels, g, v);
    ChainClose(pg, g, panel, common, w, h, n, e, l);
    if l < n {
      ChainClose(pg, g, panel, common, w, h, n, e, l + 1);
      DifferenceClose(pg[l], pg[l + 1], data[l], g[l], g[l + 1], levels[l], Level(w, l), Level(h, l), e);
    }
  }

  lemma {:induction false} CollapseClose(blended: seq<Plane>, cur: seq<Plane>, levels: seq<Plane>, g: seq<Plane>,
                                         w: nat, h: nat, n: nat, e: real, l: nat)
    requires IsCollapse(blended, w, h, n, cur) && IsLaplacian(g, w, h, n, levels) && l <= n
    requires forall m :: 0 <= m <= n ==> Close(blended[m], levels[m], if m < n then 2.0 * e else e)
    ensures Close(cur[l], g[l], Drift(n, l, e))
    decreases n - l
  {
    hide Close, IsDifference, IsSum;
    if l < n {
      CollapseClose(blended, cur, levels, g, w, h, n, e, l + 1);
      DifferenceSums(g[l], g[l + 1], levels[l], Level(w, l), Level(h, l));
      assert Close(blended[l], levels[l], 2.0 * e);
      SumClose(blended[l], cur[l + 1], cur[l], levels[l], g[l + 1], g[l], Level(w, l), Level(h, l), 2.0 * e,
               Drift(n, l + 1, e));
    }
  }

  lemma {:induction false} BlendedLevelClose(panels: seq<Plane>, common: Plane, ones: Plane, w: nat, h: nat, n: nat,
                                             e: real, datas: seq<seq<Plane>>, masks: seq<seq<Plane>>,
                                             blended: seq<Plane>, levels: seq<Plane>, g: seq<Plane>, v: seq<Plane>,
                                             l: nat)
    requires 0 < |panels| == |datas| && IsOnes(ones) && l <= n
    requires forall k :: 0 <= k < |panels| ==> IsPanel(panels[k], common, ones, w, h, n, e, datas[k])
    requires IsBuilt(common, ones, w, h, n, levels, g, v) && IsBlend(datas, masks, n, blended)
    requires MasksPositive(LevelOf(masks, l), |blended[l]|)
    ensures |levels| == n + 1 && Close(blended[l], levels[l], if l < n then 2.0 * e else e)
  {
    hide Close, IsOnes, IsPanel, IsBuilt, IsBlendLevel, MasksPositive;
    PanelLevelClose(panels[0], common, ones, w, h, n, e, datas[0], levels, g, v, l);
    var d := LevelOf(datas, l);
    forall k | 0 <= k < |d| ensures Close(d[k], levels[l], if l < n then 2.0 * e else e) {
      PanelLevelClose(panels[k], common, ones, w, h, n, e, datas[k], levels, g, v, l);
    }
    BlendClose(d, LevelOf(masks, l), blended[l], levels[l], if l < n then 2.0 * e else e);
  }

  /** Stability: panels within `e` of a common plane blend to within (2n + 1) e of it, whatever the
      masks, as long as they are nonnegative and never all vanish together. */
  lemma {:induction false} BlendStable(panels: seq<Plane>, common: Plane, ones: Plane, w: nat, h: nat, n: nat, e: real,
                                       datas: seq<seq<Plane>>, masks: seq<seq<Plane>>, blended: seq<Plane>,
                                       cur: seq<Plane>)
    requires 0 < |panels| == |datas| && IsOnes(ones) && IsPlane(|common|, w, h) && |ones| == |common|
    requires forall k :: 0 <= k < |panels| ==> IsPanel(panels[k], common, ones, w, h, n, e, datas[k])
    requires IsBlend(datas, masks, n, blended) && IsCollapse(blended, w, h, n, cur)
    requires forall l :: 0 <= l <= n ==> MasksPositive(LevelOf(masks, l), |blended[l]|)
    ensures Close(cur[0], common, (2 * n + 1) as real * e)
  {
    var levels, g, v := BuildExists(common, ones, w, h, n);
    forall l | 0 <= l <= n ensures |levels| == n + 1 && Close(blended[l], levels[l], if l < n then 2.0 * e else e) {
      hide *;
      BlendedLevelClose(panels, common, ones, w, h, n, e, datas, masks, blended, levels, g, v, l);
    }
    hide Close, IsOnes, IsPanel, IsCollapse, IsLaplacian, IsBlendLevel, MasksPositive, Drift, IsDown, IsGauss;
    CollapseClose(blended, cur, levels, g, w, h, n, e, 0);
    DriftIs(n, 0, e);
    BuiltOnes(common, ones, w, h, n, levels, g, v);
    assert g[0] == common;
  }

  lemma {:induction false} BuildExists(plane: Plane, valid: Plane, w: nat, h: nat, n: nat)
    returns (levels: seq<Plane>, g: seq<Plane>, v: seq<Plane>)
    requires IsPlane(|plane|, w, h) && |valid| == |plane|
    ensures IsBuilt(plane, valid, w, h, n, levels, g, v)
  {
    hide IsDown, IsDifference;
    v := ChainExists(valid, w, h, n);
    var a := ChainExists(Times(plane, valid), w, h, n);
    forall l | 0 <= l <= n
      ensures IsPlane(|a[l]|, Level(w, l), Level(h, l)) && IsPlane(|v[l]|, Level(w, l), Level(h, l))
    {
      ChainPlanes(a, Times(plane, valid), w, h, n, l);
      ChainPlanes(v, valid, w, h, n, l);
    }
    g := RatioLevels(a, v);
    assert IsGauss(a, v, g);
    var d := LaplacianExists(g, w, h, n, n);
    levels := d + [g[n]];
  }

  ghost function RatioLevels(a: seq<Plane>, v: seq<Plane>): (g: seq<Plane>)
    requires |a| == |v| && forall l :: 0 <= l < |a| ==> |a[l]| == |v[l]|
    ensures |g| == |a| && forall l :: 0 <= l < |a| ==> g[l] == Ratio(a[l], v[l])
  {
    seq(|a|, l requires 0 <= l < |a| == |v| && |a[l]| == |v[l]| => Ratio(a[l], v[l]))
  }
}
