/** The guarded blend of several pyramids: mask-weighted means per level, collapsed, with the plane of
    cells that every level's masks reach (crates/mmm-core/src/pyramid.rs, `blend_pyramids_guarded`). */
module PyramidGuard {
  import opened Entrywise
  import opened Grid
  import opened Pyramid
  import opened PyramidBlend
  import opened PyramidKernels
  import opened Reals

  // ---------------------------------------------------------------- specification

  /** Every panel's planes have the size of their level. */
  ghost predicate Shaped(pyramids: seq<seq<Plane>>, w: nat, h: nat, n: nat) {
    forall k :: 0 <= k < |pyramids| ==> |pyramids[k]| == n + 1 && ArePlanes(pyramids[k], w, h)
  }

  ghost predicate SameCells(planes: seq<Plane>, cells: nat) {
    forall j :: 0 <= j < |planes| ==> |planes[j]| == cells
  }

  /** Cells of one level the masks reach. */
  ghost function Reached(masks: seq<Plane>, w: nat, h: nat): (r: seq<bool>)
    requires SameCells(masks, w * h)
    ensures IsPlane(|r|, w, h) && forall i :: 0 <= i < |r| ==> r[i] == (MaskSum(masks, i, |masks|) > EPS_WEIGHT)
  {
    seq(w * h, i requires 0 <= i < w * h && SameCells(masks, w * h) => MaskSum(masks, i, |masks|) > EPS_WEIGHT)
  }

  /** The cell and all its coarser ancestors up to level `n` are reached. */
  ghost predicate AllReached(reached: seq<seq<bool>>, w: nat, h: nat, n: nat, l: nat, x: nat, y: nat)
    requires |reached| == n + 1 && l <= n && x < Level(w, l) && y < Level(h, l)
    requires forall m :: 0 <= m <= n ==> IsPlane(|reached[m]|, Level(w, m), Level(h, m))
    decreases n - l
  {
    Cell(reached[l], Level(w, l), Level(h, l), x, y) && (l < n ==> AllReached(reached, w, h, n, l + 1, x / 2, y / 2))
  }

  /** The coarse coordinate `m` levels up: halved `m` times. */
  function Ancestor(x: nat, m: nat): nat {
    if m == 0 then x else Ancestor(x / 2, m - 1)
  }

  lemma {:induction false} AncestorInside(x: nat, w: nat, l: nat, m: nat)
    requires x < Level(w, l)
    ensures Ancestor(x, m) < Level(w, l + m)
    decreases m
  {
    if m > 0 {
      LevelNext(w, l);
      AncestorInside(x / 2, w, l + 1, m - 1);
    }
  }

  /** The cell `m` levels above the spot is reached. */
  ghost predicate ReachedAbove(reached: seq<seq<bool>>, w: nat, h: nat, l: nat, x: nat, y: nat, m: nat)
    requires l + m < |reached| && x < Level(w, l) && y < Level(h, l)
    requires IsPlane(|reached[l + m]|, Level(w, l + m), Level(h, l + m))
  {
    AncestorInside(x, w, l, m);
    AncestorInside(y, h, l, m);
    Cell(reached[l + m], Level(w, l + m), Level(h, l + m), Ancestor(x, m), Ancestor(y, m))
  }

  lemma {:induction false} AboveStep(reached: seq<seq<bool>>, w: nat, h: nat, l: nat, x: nat, y: nat, x': nat, y': nat,
                                     m: nat)
    requires 0 < m && l + m < |reached| && x < Level(w, l) && y < Level(h, l) && x' == x / 2 && y' == y / 2
    requires IsPlane(|reached[l + m]|, Level(w, l + m), Level(h, l + m))
    ensures x' < Level(w, l + 1) && y' < Level(h, l + 1)
    ensures ReachedAbove(reached, w, h, l, x, y, m) == ReachedAbove(reached, w, h, l + 1, x', y', m - 1)
  {
    LevelNext(w, l);
    LevelNext(h, l);
    hide Level, Cell, IsPlane;
    assert (l + 1) + (m - 1) == l + m;
  }

  lemma {:induction false} AllReachedStep(reached: seq<seq<bool>>, w: nat, h: nat, n: nat, l: nat, x: nat, y: nat)
    requires |reached| == n + 1 && l <= n && x < Level(w, l) && y < Level(h, l)
    requires forall m :: 0 <= m <= n ==> IsPlane(|reached[m]|, Level(w, m), Level(h, m))
    ensures l < n ==> x / 2 < Level(w, l + 1) && y / 2 < Level(h, l + 1)
    ensures AllReached(reached, w, h, n, l, x, y)
        <==> ReachedAbove(reached, w, h, l, x, y, 0) && (l < n ==> AllReached(reached, w, h, n, l + 1, x / 2, y / 2))
  {
    hide Cell, IsPlane;
    LevelNext(w, l);
    LevelNext(h, l);
  }

  lemma {:induction false} ReachedEverywhereAbove(reached: seq<seq<bool>>, w: nat, h: nat, n: nat, l: nat, x: nat,
                                                  y: nat, m: nat)
    requires |reached| == n + 1 && l + m <= n && x < Level(w, l) && y < Level(h, l)
    requires forall m :: 0 <= m <= n ==> IsPlane(|reached[m]|, Level(w, m), Level(h, m))
    requires AllReached(reached, w, h, n, l, x, y)
    ensures ReachedAbove(reached, w, h, l, x, y, m)
    decreases m
  {
    hide AllReached, ReachedAbove, IsPlane, Level;
    AllReachedStep(reached, w, h, n, l, x, y);
    if m > 0 {
      AboveStep(reached, w, h, l, x, y, x / 2, y / 2, m);
      ReachedEverywhereAbove(reached, w, h, n, l + 1, x / 2, y / 2, m - 1);
    }
  }

  lemma {:induction false} GapAbove(reached: seq<seq<bool>>, w: nat, h: nat, n: nat, l: nat, x: nat, y: nat)
    returns (m: nat)
    requires |reached| == n + 1 && l <= n && x < Level(w, l) && y < Level(h, l)
    requires forall m :: 0 <= m <= n ==> IsPlane(|reached[m]|, Level(w, m), Level(h, m))
    requires !AllReached(reached, w, h, n, l, x, y)
    ensures l + m <= n && !ReachedAbove(reached, w, h, l, x, y, m)
    decreases n - l
  {
    hide AllReached, ReachedAbove, IsPlane, Level;
    m := 0;
    AllReachedStep(reached, w, h, n, l, x, y);
    if ReachedAbove(reached, w, h, l, x, y, 0) {
      var k := GapAbove(reached, w, h, n, l + 1, x / 2, y / 2);
      AboveStep(reached, w, h, l, x, y, x / 2, y / 2, k + 1);
      m := k + 1;
    }
  }

  /** A cell is defined exactly when no level above the spot ran out of mask. */
  lemma {:induction false} AllReachedIff(reached: seq<seq<bool>>, w: nat, h: nat, n: nat, x: nat, y: nat)
    requires |reached| == n + 1 && x < Level(w, 0) && y < Level(h, 0)
    requires forall m :: 0 <= m <= n ==> IsPlane(|reached[m]|, Level(w, m), Level(h, m))
    ensures AllReached(reached, w, h, n, 0, x, y) <==>
              forall m :: 0 <= m <= n ==> ReachedAbove(reached, w, h, 0, x, y, m)
  {
    hide AllReached, ReachedAbove, IsPlane, Level;
    if AllReached(reached, w, h, n, 0, x, y) {
      forall m | 0 <= m <= n ensures ReachedAbove(reached, w, h, 0, x, y, m) {
        ReachedEverywhereAbove(reached, w, h, n, 0, x, y, m);
      }
    } else {
      var m := GapAbove(reached, w, h, n, 0, x, y);
    }
  }

  // ---------------------------------------------------------------- algorithm

  method AddPanel(acc: array<real>, wsum: array<real>, datas: seq<Plane>, masks: seq<Plane>, cells: nat, k: nat)
    requires acc != wsum && k < |datas| == |masks| && acc.Length == wsum.Length == cells
    requires SameCells(datas, cells) && SameCells(masks, cells)
    requires forall i :: 0 <= i < cells ==> acc[i] == DataSum(datas, masks, i, k)
    requires forall i :: 0 <= i < cells ==> wsum[i] == MaskSum(masks, i, k)
    modifies acc, wsum
    ensures forall i :: 0 <= i < cells ==> acc[i] == DataSum(datas, masks, i, k + 1)
    ensures forall i :: 0 <= i < cells ==> wsum[i] == MaskSum(masks, i, k + 1)
  {
    hide Mul;
    for i := 0 to cells
      invariant forall j :: 0 <= j < i ==> acc[j] == DataSum(datas, masks, j, k + 1)
      invariant forall j :: 0 <= j < i ==> wsum[j] == MaskSum(masks, j, k + 1)
      invariant forall j :: i <= j < cells ==> acc[j] == DataSum(datas, masks, j, k)
      invariant forall j :: i <= j < cells ==> wsum[j] == MaskSum(masks, j, k)
    {
      acc[i] := acc[i] + Mul(masks[k][i], datas[k][i]);
      wsum[i] := wsum[i] + masks[k][i];
    }
  }

  /** Divide out the weights where there are any. */
  method Normalise(acc: array<real>, wsum: array<real>) returns (out: array<real>, reached: array<bool>)
    requires acc.Length == wsum.Length
    ensures fresh(out) && fresh(reached) && out.Length == reached.Length == acc.Length
    ensures forall i :: 0 <= i < acc.Length ==> reached[i] == (wsum[i] > EPS_WEIGHT) && out[i] == Over(acc[i], wsum[i])
  {
    hide Over;
    out := new real[acc.Length];
    reached := new bool[acc.Length];
    for i := 0 to acc.Length
      invariant forall j :: 0 <= j < i ==> reached[j] == (wsum[j] > EPS_WEIGHT) && out[j] == Over(acc[j], wsum[j])
    {
      reached[i] := wsum[i] > EPS_WEIGHT;
      out[i] := Over(acc[i], wsum[i]);
    }
  }

  /** Both sums over the panels. */
  method SumPanels(datas: seq<Plane>, masks: seq<Plane>, cells: nat) returns (acc: array<real>, wsum: array<real>)
    requires |datas| == |masks| && SameCells(datas, cells) && SameCells(masks, cells)
    ensures fresh(acc) && fresh(wsum) && acc.Length == wsum.Length == cells
    ensures forall i :: 0 <= i < cells ==> acc[i] == DataSum(datas, masks, i, |datas|)
    ensures forall i :: 0 <= i < cells ==> wsum[i] == MaskSum(masks, i, |datas|)
  {
    acc := new real[cells](_ => 0.0);
    wsum := new real[cells](_ => 0.0);
    for k := 0 to |datas|
      invariant forall i :: 0 <= i < cells ==> acc[i] == DataSum(datas, masks, i, k)
      invariant forall i :: 0 <= i < cells ==> wsum[i] == MaskSum(masks, i, k)
    {
      AddPanel(acc, wsum, datas, masks, cells, k);
    }
  }

  /** Mask-weighted mean of one level, and where the weights reach. */
  method BlendLevel(datas: seq<Plane>, masks: seq<Plane>, w: nat, h: nat)
    returns (out: array<real>, reached: array<bool>)
    requires |datas| == |masks| && SameCells(datas, w * h) && SameCells(masks, w * h)
    ensures fresh(out) && IsPlane(out.Length, w, h) && IsBlendLevel(datas, masks, out[..])
    ensures fresh(reached) && reached[..] == Reached(masks, w, h)
  {
    hide Over, MaskSum, DataSum;
    var acc, wsum := SumPanels(datas, masks, w * h);
    out, reached := Normalise(acc, wsum);
  }

  /** Carry definedness down one level: a fine cell needs its own weights and its nearest coarse cell. */
  method Descend(own: seq<bool>, coarse: seq<bool>, w: nat, h: nat) returns (def: array<bool>)
    requires IsPlane(|own|, w, h) && IsPlane(|coarse|, Half(w), Half(h))
    ensures fresh(def) && IsPlane(def.Length, w, h)
    ensures forall x, y :: 0 <= x < w && 0 <= y < h ==>
              Cell(def[..], w, h, x, y) == (Cell(own, w, h, x, y) && Cell(coarse, Half(w), Half(h), x / 2, y / 2))
  {
    hide Cell, IsPlane;
    def := NewPlane(w, h, false);
    var cw, ch := Half(w), Half(h);
    for y := 0 to h
      invariant forall x, y' :: 0 <= x < w && 0 <= y' < y ==>
                  Cell(def[..], w, h, x, y') == (Cell(own, w, h, x, y') && Cell(coarse, cw, ch, x / 2, y' / 2))
    {
      var cy := if y / 2 < ch - 1 then y / 2 else ch - 1;
      for x := 0 to w
        invariant forall x', y' :: 0 <= x' < w && 0 <= y' < y ==>
                    Cell(def[..], w, h, x', y') == (Cell(own, w, h, x', y') && Cell(coarse, cw, ch, x' / 2, y' / 2))
        invariant forall x' :: 0 <= x' < x ==>
                    Cell(def[..], w, h, x', y) == (Cell(own, w, h, x', y) && Cell(coarse, cw, ch, x' / 2, y / 2))
      {
        var cx := if x / 2 < cw - 1 then x / 2 else cw - 1;
        CellAt(own, w, h, x, y);
        CellAt(coarse, cw, ch, cx, cy);
        Write(def, w, h, x, y, own[y * w + x] && coarse[cy * cw + cx]);
      }
    }
  }

  lemma {:induction false} ShapedLevel(pyramids: seq<seq<Plane>>, w: nat, h: nat, n: nat, l: nat)
    requires Shaped(pyramids, w, h, n) && l <= n
    ensures SameCells(LevelOf(pyramids, l), Level(w, l) * Level(h, l))
  {
    hide Level;
  }

  ghost function ReachedAt(masks: seq<seq<Plane>>, w: nat, h: nat, n: nat, l: nat): (r: seq<bool>)
    requires Shaped(masks, w, h, n) && l <= n
    ensures IsPlane(|r|, Level(w, l), Level(h, l))
  {
    ShapedLevel(masks, w, h, n, l);
    Reached(LevelOf(masks, l), Level(w, l), Level(h, l))
  }

  /** Where the masks reach, level by level. */
  ghost function ReachedLevels(masks: seq<seq<Plane>>, w: nat, h: nat, n: nat): (r: seq<seq<bool>>)
    requires Shaped(masks, w, h, n)
    ensures |r| == n + 1 && forall l :: 0 <= l <= n ==> r[l] == ReachedAt(masks, w, h, n, l)
  {
    seq(n + 1, l requires 0 <= l <= n && Shaped(masks, w, h, n) => ReachedAt(masks, w, h, n, l))
  }

  lemma {:induction false} NoPlanes(w: nat, h: nat)
    ensures ArePlanes([], w, h)
  {
  }

  lemma {:induction false} ExtendPlanes(g: seq<Plane>, p: Plane, w: nat, h: nat)
    requires ArePlanes(g, w, h) && IsPlane(|p|, Level(w, |g|), Level(h, |g|))
    ensures ArePlanes(g + [p], w, h)
  {
    hide Level;
  }

  /** All levels blended. */
  method BlendLevels(datas: seq<seq<Plane>>, masks: seq<seq<Plane>>, w: nat, h: nat, n: nat)
    returns (blended: seq<Plane>, reached: seq<seq<bool>>)
    requires 0 < |datas| == |masks| && Shaped(datas, w, h, n) && Shaped(masks, w, h, n)
    ensures IsBlend(datas, masks, n, blended) && ArePlanes(blended, w, h)
    ensures reached == ReachedLevels(masks, w, h, n)
  {
    hide IsBlendLevel, Level, ArePlanes;
    blended, reached := [], [];
    NoPlanes(w, h);
    for l := 0 to n + 1
      invariant |blended| == |reached| == l
      invariant forall m :: 0 <= m < l ==> IsBlendLevel(LevelOf(datas, m), LevelOf(masks, m), blended[m])
      invariant forall m :: 0 <= m < l ==> reached[m] == ReachedLevels(masks, w, h, n)[m]
      invariant ArePlanes(blended, w, h)
    {
      ShapedLevel(datas, w, h, n, l);
      ShapedLevel(masks, w, h, n, l);
      var out, def := BlendLevel(LevelOf(datas, l), LevelOf(masks, l), Level(w, l), Level(h, l));
      ExtendPlanes(blended, out[..], w, h);
      blended, reached := blended + [out[..]], reached + [def[..]];
    }
  }

  /** `defined` marks the level-`l` cells reached there and at every coarser level. */
  ghost predicate IsDefined(defined: seq<bool>, reached: seq<seq<bool>>, w: nat, h: nat, n: nat, l: nat) {
    && l <= n && |reached| == n + 1 && IsPlane(|defined|, Level(w, l), Level(h, l))
    && (forall m :: 0 <= m <= n ==> IsPlane(|reached[m]|, Level(w, m), Level(h, m)))
    && forall x, y :: 0 <= x < Level(w, l) && 0 <= y < Level(h, l) ==>
         Cell(defined, Level(w, l), Level(h, l), x, y) == AllReached(reached, w, h, n, l, x, y)
  }

  lemma {:induction false} DefinedAtTop(reached: seq<seq<bool>>, w: nat, h: nat, n: nat)
    requires |reached| == n + 1
    requires forall m :: 0 <= m <= n ==> IsPlane(|reached[m]|, Level(w, m), Level(h, m))
    ensures IsDefined(reached[n], reached, w, h, n, n)
  {
    hide Cell, Level, IsPlane;
  }

  lemma {:induction false} DefinedDescends(coarse: seq<bool>, fine: seq<bool>, reached: seq<seq<bool>>, w: nat, h: nat,
                                           n: nat, l: nat, lw: nat, lh: nat)
    requires IsDefined(coarse, reached, w, h, n, l + 1) && lw == Level(w, l) && lh == Level(h, l)
    requires IsPlane(|fine|, lw, lh) && IsPlane(|coarse|, Half(lw), Half(lh)) && IsPlane(|reached[l]|, lw, lh)
    requires forall x, y :: 0 <= x < lw && 0 <= y < lh ==>
               Cell(fine, lw, lh, x, y) == (Cell(reached[l], lw, lh, x, y)
                                            && Cell(coarse, Half(lw), Half(lh), x / 2, y / 2))
    ensures IsDefined(fine, reached, w, h, n, l)
  {
    LevelNext(w, l);
    LevelNext(h, l);
    hide Cell, Level, IsPlane;
  }

  /** Blend and collapse: the blended plane, and the level-0 cells whose every coarser level had weight. */
  method BlendGuarded(datas: seq<seq<Plane>>, masks: seq<seq<Plane>>, w: nat, h: nat, n: nat)
    returns (plane: Plane, defined: seq<bool>)
    requires 0 < |datas| == |masks| && Shaped(datas, w, h, n) && Shaped(masks, w, h, n)
    ensures exists blended: seq<Plane> :: IsBlend(datas, masks, n, blended) && CollapsesTo(blended, w, h, n, plane)
    ensures IsDefined(defined, ReachedLevels(masks, w, h, n), w, h, n, 0)
  {
    hide IsBlendLevel, Cell, IsUp, Interpolates, IsSum, IsPlane, Reached, Rising, IsDefined, Level;
    var blended, reached := BlendLevels(datas, masks, w, h, n);
    plane, defined := blended[n], reached[n];
    ghost var tail := [plane];
    StartRise(blended, w, h, n);
    DefinedAtTop(reached, w, h, n);
    hide IsBlend, Shaped, ReachedLevels, CollapsesTo, IsCollapse, Half, Plus, LevelOf;
    for l := n downto 0
      invariant IsPlane(|plane|, Level(w, l), Level(h, l)) && IsPlane(|defined|, Level(w, l), Level(h, l))
      invariant Rising(blended, w, h, n, l, tail) && |tail| > 0 && tail[0] == plane
      invariant IsDefined(defined, reached, w, h, n, l)
    {
      var lw, lh, cw, ch := Level(w, l), Level(h, l), Level(w, l + 1), Level(h, l + 1);
      LevelNext(w, l);
      LevelNext(h, l);
      var up := Upsample(plane, cw, ch, lw, lh);
      UpSum(blended[l], plane, up[..], lw, lh);
      plane := Plus(blended[l], up[..]);
      Rise(blended, w, h, n, l, tail, plane);
      tail := [plane] + tail;
      var def := Descend(reached[l], defined, lw, lh);
      DefinedDescends(defined, def[..], reached, w, h, n, l, lw, lh);
      defined := def[..];
    }
    Risen(blended, w, h, n, tail);
  }
}
