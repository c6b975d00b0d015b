/** Ownership-mask pyramids: how far a mask level reaches, what the data levels hold there, and the
    masks' partition of unity (crates/mmm-core/src/pyramid.rs, `mask_pyramid`). */
module MaskPyramid {
  import opened Entrywise
  import opened Grid
  import opened Pyramid
  import opened PyramidKernels
  import opened Reals
  import opened SmoothLaws

  // ---------------------------------------------------------------- specification

  /** One step of the clamped mask chain: decimate, then drop what too little validity supports. */
  ghost predicate IsMaskStep(cur: Plane, v: Plane, next: Plane, w: nat, h: nat) {
    exists d: Plane :: IsDown(cur, d, w, h) && |d| == |v| && next == Supported(d, v)
  }

  /** A stored level: the chain's plane smoothed once more and clamped again. */
  ghost predicate IsMaskLevel(cur: Plane, v: Plane, level: Plane, w: nat, h: nat) {
    exists s: Plane :: IsSmooth(cur, s, w, h) && |s| == |v| && level == Supported(s, v)
  }

  ghost predicate IsMaskChain(mask: Plane, w: nat, h: nat, n: nat, v: seq<Plane>, cur: seq<Plane>) {
    && |v| == |cur| == n + 1 && |mask| == |v[0]| && cur[0] == Supported(mask, v[0])
    && forall l {:trigger IsMaskStep(cur[l], v[l + 1], cur[l + 1], Level(w, l), Level(h, l))} :: 0 <= l < n ==>
         IsMaskStep(cur[l], v[l + 1], cur[l + 1], Level(w, l), Level(h, l))
  }

  lemma {:induction false} MaskStep(mask: Plane, w: nat, h: nat, n: nat, v: seq<Plane>, cur: seq<Plane>, l: nat)
    requires IsMaskChain(mask, w, h, n, v, cur) && l < n
    ensures IsMaskStep(cur[l], v[l + 1], cur[l + 1], Level(w, l), Level(h, l))
  {
    hide IsMaskStep, Level;
  }

  ghost predicate IsMaskPyramid(mask: Plane, valid: Plane, w: nat, h: nat, n: nat,
                                levels: seq<Plane>, v: seq<Plane>, cur: seq<Plane>) {
    && IsChain(v, valid, w, h, n) && IsMaskChain(mask, w, h, n, v, cur) && |levels| == n + 1
    && forall l :: 0 <= l <= n ==> IsMaskLevel(cur[l], v[l], levels[l], Level(w, l), Level(h, l))
  }

  function Pow2(l: nat): (r: nat)
    ensures r >= 1
  {
    if l == 0 then 1 else 2 * Pow2(l - 1)
  }

  /** How far from the cell's own spot a level-`l` value can draw on level 0. */
  function Radius(l: nat): int {
    2 * (Pow2(l) - 1)
  }

  /** Valid data in the window lies between `lo` and `hi`. */
  ghost predicate BoundedNear(plane: Plane, valid: Plane, w: nat, h: nat, cx: int, cy: int, r: int, lo: real,
                              hi: real) {
    && IsPlane(|plane|, w, h) && |valid| == |plane|
    && forall x, y :: Window(w, h, cx, cy, r, x, y) && Cell(valid, w, h, x, y) != 0.0 ==>
         lo <= Cell(plane, w, h, x, y) <= hi
  }

  // ---------------------------------------------------------------- support

  /** A step along one axis of the window. */
  lemma {:induction false} AxisNarrows(l: nat, x: int, x': int, z: int)
    requires -2 <= x' - 2 * x <= 2
    requires -Radius(l) <= z - x' * Pow2(l) <= Radius(l)
    ensures -Radius(l + 1) <= z - x * Pow2(l + 1) <= Radius(l + 1)
  {
    var p, d := Pow2(l), x' - 2 * x;
    assert x' * p == x * (2 * p) + d * p;
    assert -2 * p <= d * p <= 2 * p;
  }

  lemma {:induction false} WindowNarrows(plane: Plane, valid: Plane, w: nat, h: nat, l: nat, x: int, y: int, x': int,
                                         y': int, lo: real, hi: real)
    requires BoundedNear(plane, valid, w, h, x * Pow2(l + 1), y * Pow2(l + 1), Radius(l + 1), lo, hi)
    requires -2 <= x' - 2 * x <= 2 && -2 <= y' - 2 * y <= 2
    ensures BoundedNear(plane, valid, w, h, x' * Pow2(l), y' * Pow2(l), Radius(l), lo, hi)
  {
    hide Cell, IsPlane, Radius, Pow2;
    forall u, t | Window(w, h, x' * Pow2(l), y' * Pow2(l), Radius(l), u, t) && Cell(valid, w, h, u, t) != 0.0
      ensures lo <= Cell(plane, w, h, u, t) <= hi
    {
      AxisNarrows(l, x, x', u);
      AxisNarrows(l, y, y', t);
      assert Window(w, h, x * Pow2(l + 1), y * Pow2(l + 1), Radius(l + 1), u, t);
    }
  }

  /** The premultiplied chain stays between multiples of the validity chain, whatever bounds the valid
      data within the level's radius. */
  lemma {:induction false} ChainBetween(a: seq<Plane>, v: seq<Plane>, plane: Plane, valid: Plane, w: nat, h: nat,
                                        n: nat, l: nat, x: nat, y: nat, lo: real, hi: real)
    requires |plane| == |valid| && IsChain(a, Times(plane, valid), w, h, n) && IsChain(v, valid, w, h, n)
    requires NonNegative(valid) && l <= n && x < Level(w, l) && y < Level(h, l)
    requires BoundedNear(plane, valid, w, h, x * Pow2(l), y * Pow2(l), Radius(l), lo, hi)
    ensures IsPlane(|a[l]|, Level(w, l), Level(h, l)) && IsPlane(|v[l]|, Level(w, l), Level(h, l))
    ensures Mul(lo, Cell(v[l], Level(w, l), Level(h, l), x, y)) <= Cell(a[l], Level(w, l), Level(h, l), x, y)
         <= Mul(hi, Cell(v[l], Level(w, l), Level(h, l), x, y))
  {
    if l == 0 {
      BaseBetween(plane, valid, w, h, x, y, lo, hi);
    } else {
      var pw, ph, cw, ch := Level(w, l - 1), Level(h, l - 1), Level(w, l), Level(h, l);
      var p, q := a[l - 1], v[l - 1];
      assert IsDown(p, a[l], pw, ph) && IsDown(q, v[l], pw, ph);
      assert cw == Half(pw) && ch == Half(ph);
      hide IsChain, SmoothAt, Cell, Mul, Level, Pow2, Radius, BoundedNear, NonNegative, Times;
      forall x', y' | Window(pw, ph, 2 * x, 2 * y, 2, x', y')
        ensures Mul(lo, Cell(q, pw, ph, x', y')) <= Cell(p, pw, ph, x', y') <= Mul(hi, Cell(q, pw, ph, x', y'))
      {
        WindowNarrows(plane, valid, w, h, l - 1, x, y, x', y', lo, hi);
        ChainBetween(a, v, plane, valid, w, h, n, l - 1, x', y', lo, hi);
      }
      SmoothBetween(p, q, pw, ph, 2 * x, 2 * y, lo, hi);
    }
  }

  lemma {:induction false} BaseBetween(plane: Plane, valid: Plane, w: nat, h: nat, x: nat, y: nat, lo: real, hi: real)
    requires |plane| == |valid| && NonNegative(valid) && x < w && y < h
    requires BoundedNear(plane, valid, w, h, x * Pow2(0), y * Pow2(0), Radius(0), lo, hi)
    ensures Mul(lo, Cell(valid, w, h, x, y)) <= Cell(Times(plane, valid), w, h, x, y)
              <= Mul(hi, Cell(valid, w, h, x, y))
  {
    CellAt(plane, w, h, x, y);
    CellAt(valid, w, h, x, y);
    CellAt(Times(plane, valid), w, h, x, y);
    var p, v := Cell(plane, w, h, x, y), Cell(valid, w, h, x, y);
    assert Window(w, h, x * Pow2(0), y * Pow2(0), Radius(0), x, y);
    hide Mul;
    if v == 0.0 {
      ZeroFactor(lo);
      ZeroFactor(p);
      ZeroFactor(hi);
    } else {
      ScaleOrder(v, lo, p);
      ScaleOrder(v, p, hi);
    }
  }

  /** Some valid level-0 cell lies in the window. */
  ghost predicate ValidNear(valid: Plane, w: nat, h: nat, cx: int, cy: int, r: int) {
    IsPlane(|valid|, w, h) && exists x, y :: Window(w, h, cx, cy, r, x, y) && Cell(valid, w, h, x, y) != 0.0
  }

  lemma {:induction false} SmoothNonNegative(p: Plane, w: nat, h: nat, x: nat, y: nat)
    requires IsPlane(|p|, w, h) && NonNegative(p) && x < w && y < h
    ensures SmoothAt(p, w, h, x, y) >= 0.0
  {
    var z := Zeros(|p|);
    forall u, t | Window(w, h, x, y, 2, u, t) ensures Cell(z, w, h, u, t) <= Cell(p, w, h, u, t) {
      CellAt(p, w, h, u, t);
      ZeroCell(|p|, w, h, u, t);
    }
    hide SmoothAt, Cell;
    SmoothBelow(z, p, w, h, x, y);
    SmoothZeros(|p|, w, h, x, y);
  }

  lemma {:induction false} DownNonNegative(p: Plane, q: Plane, w: nat, h: nat)
    requires IsDown(p, q, w, h) && NonNegative(p)
    ensures NonNegative(q)
  {
    forall i | 0 <= i < |q| ensures q[i] >= 0.0 {
      var x, y := CellOf(Half(w), Half(h), i);
      CellAt(q, Half(w), Half(h), x, y);
      hide SmoothAt;
      SmoothNonNegative(p, w, h, 2 * x, 2 * y);
    }
  }

  lemma {:induction false} ChainNonNegative(c: seq<Plane>, base: Plane, w: nat, h: nat, n: nat, l: nat)
    requires IsChain(c, base, w, h, n) && NonNegative(base) && l <= n
    ensures NonNegative(c[l])
  {
    hide IsDown, NonNegative;
    if l > 0 {
      ChainNonNegative(c, base, w, h, n, l - 1);
      DownNonNegative(c[l - 1], c[l], Level(w, l - 1), Level(h, l - 1));
    }
  }

  /** Validity spreads no further than the radius: a nonzero level-`l` value has a valid cell near. */
  lemma {:induction false} ValiditySupport(v: seq<Plane>, valid: Plane, w: nat, h: nat, n: nat, l: nat, x: nat, y: nat)
    requires IsChain(v, valid, w, h, n) && NonNegative(valid) && l <= n && x < Level(w, l) && y < Level(h, l)
    ensures IsPlane(|v[l]|, Level(w, l), Level(h, l))
    ensures Cell(v[l], Level(w, l), Level(h, l), x, y) != 0.0 ==>
              ValidNear(valid, w, h, x * Pow2(l), y * Pow2(l), Radius(l))
  {
    ChainPlanes(v, valid, w, h, n, l);
    ChainNonNegative(v, valid, w, h, n, l);
    CellAt(v[l], Level(w, l), Level(h, l), x, y);
    var c := Cell(v[l], Level(w, l), Level(h, l), x, y);
    assert c >= 0.0;
    hide IsDown, Pow2, Radius, Level, Cell, Mul, Times, NonNegative;
    if !ValidNear(valid, w, h, x * Pow2(l), y * Pow2(l), Radius(l)) {
      // Any bounds hold of data that is not there, even inconsistent ones.
      var a := ChainExists(Times(valid, valid), w, h, n);
      ChainBetween(a, v, valid, valid, w, h, n, l, x, y, 1.0, 0.0);
      UnitFactors(c);
    }
  }

  lemma {:induction false} UnitFactors(c: real)
    ensures Mul(1.0, c) == c && Mul(0.0, c) == 0.0
  {
  }

  /** Where a mask level is nonzero, its panel covers a cell within the radius, and the data level there
      is a genuine weighted average of covered cells within the radius, never the sentinel: it lies
      between any bounds of that data. */
  lemma {:induction false} MaskedCellIsGenuine(plane: Plane, mask: Plane, valid: Plane, w: nat, h: nat, n: nat,
                                               masks: seq<Plane>, mv: seq<Plane>, cur: seq<Plane>,
                                               levels: seq<Plane>, g: seq<Plane>, v: seq<Plane>,
                                               l: nat, x: nat, y: nat, lo: real, hi: real)
    requires IsMaskPyramid(mask, valid, w, h, n, masks, mv, cur) && IsBuilt(plane, valid, w, h, n, levels, g, v)
    requires NonNegative(valid) && l <= n && x < Level(w, l) && y < Level(h, l)
    requires IsPlane(|masks[l]|, Level(w, l), Level(h, l)) && Cell(masks[l], Level(w, l), Level(h, l), x, y) != 0.0
    ensures ValidNear(valid, w, h, x * Pow2(l), y * Pow2(l), Radius(l))
    ensures IsPlane(|g[l]|, Level(w, l), Level(h, l))
    ensures BoundedNear(plane, valid, w, h, x * Pow2(l), y * Pow2(l), Radius(l), lo, hi) ==>
              lo <= Cell(g[l], Level(w, l), Level(h, l), x, y) <= hi
  {
    ChainUnique(mv, v, valid, w, h, n, l);
    ChainPlanes(v, valid, w, h, n, l);
    CellAt(masks[l], Level(w, l), Level(h, l), x, y);
    CellAt(v[l], Level(w, l), Level(h, l), x, y);
    SupportedWhereNonzero(cur[l], v[l], masks[l], Level(w, l), Level(h, l), y * Level(w, l) + x);
    ValiditySupport(v, valid, w, h, n, l, x, y);
    var a: seq<Plane> :| IsChain(a, Times(plane, valid), w, h, n) && IsGauss(a, v, g);
    ChainPlanes(a, Times(plane, valid), w, h, n, l);
    CellAt(a[l], Level(w, l), Level(h, l), x, y);
    CellAt(g[l], Level(w, l), Level(h, l), x, y);
    hide IsChain, IsMaskPyramid, Mul, Cell, Level, Pow2, Radius, NonNegative, Times;
    if BoundedNear(plane, valid, w, h, x * Pow2(l), y * Pow2(l), Radius(l), lo, hi) {
      ChainBetween(a, v, plane, valid, w, h, n, l, x, y, lo, hi);
      OverBetween(Cell(a[l], Level(w, l), Level(h, l), x, y), Cell(v[l], Level(w, l), Level(h, l), x, y), lo, hi);
    }
  }

  lemma {:induction false} SupportedWhereNonzero(cur: Plane, v: Plane, level: Plane, w: nat, h: nat, i: nat)
    requires IsMaskLevel(cur, v, level, w, h) && i < |level| && level[i] != 0.0
    ensures |v| == |level| && v[i] >= MASK_SUPPORT_MIN
  {
    hide IsSmooth;
    var s: Plane :| IsSmooth(cur, s, w, h) && |s| == |v| && level == Supported(s, v);
  }

  lemma {:induction false} OverBetween(a: real, v: real, lo: real, hi: real)
    requires v > EPS_WEIGHT && Mul(lo, v) <= a <= Mul(hi, v)
    ensures lo <= Over(a, v) <= hi
  {
    QuotientBounds(a, v, lo, hi);
  }
}
