/** Ownership masks that share every cell out completely still do so at every pyramid level, so under
    all-ones validity the blend is stable with no further condition on the masks
    (crates/mmm-core/src/pyramid.rs, `mask_pyramid` and `blend_pyramids_guarded`). */
module MaskPartition {
  import opened Entrywise
  import opened Grid
  import opened MaskPyramid
  import opened Pyramid
  import opened PyramidKernels
  import opened Reals
  import opened SmoothLaws

  ghost predicate SameSize(planes: seq<Plane>, cells: nat) {
    forall j :: 0 <= j < |planes| ==> |planes[j]| == cells
  }

  ghost function PlaneSum(planes: seq<Plane>, cells: nat, k: nat): (r: Plane)
    requires k <= |planes| && SameSize(planes, cells)
    ensures |r| == cells
  {
    if k == 0 then Zeros(cells) else Blend(1.0, planes[k - 1], PlaneSum(planes, cells, k - 1))
  }

  lemma {:induction false} PlaneSumAt(planes: seq<Plane>, cells: nat, k: nat, i: nat)
    requires k <= |planes| && SameSize(planes, cells) && i < cells
    ensures PlaneSum(planes, cells, k)[i] == MaskSum(planes, i, k)
  {
    if k > 0 {
      PlaneSumAt(planes, cells, k - 1, i);
      UnitFactors(planes[k - 1][i]);
      hide Mul;
    }
  }

  /** The smoothed planes at one cell, summed over the first `k`. */
  ghost function SmoothSum(planes: seq<Plane>, w: nat, h: nat, x: int, y: int, k: nat): real
    requires k <= |planes| && SameSize(planes, w * h) && w > 0 && h > 0
  {
    if k == 0 then 0.0 else SmoothAt(planes[k - 1], w, h, x, y) + SmoothSum(planes, w, h, x, y, k - 1)
  }

  lemma {:induction false} SmoothSumIs(planes: seq<Plane>, w: nat, h: nat, x: int, y: int, k: nat)
    requires k <= |planes| && SameSize(planes, w * h) && w > 0 && h > 0
    ensures SmoothSum(planes, w, h, x, y, k) == SmoothAt(PlaneSum(planes, w * h, k), w, h, x, y)
  {
    hide SmoothAt, Mul, Zeros, Blend;
    if k == 0 {
      SmoothZeros(w * h, w, h, x, y);
    } else {
      SmoothSumIs(planes, w, h, x, y, k - 1);
      SmoothLinear(1.0, planes[k - 1], PlaneSum(planes, w * h, k - 1), w, h, x, y);
      UnitFactors(SmoothAt(planes[k - 1], w, h, x, y));
    }
  }

  lemma {:induction false} SumsAgree(planes: seq<Plane>, outs: seq<Plane>, w: nat, h: nat, x: int, y: int, i: nat,
                                     k: nat)
    requires k <= |planes| == |outs| && SameSize(planes, w * h) && w > 0 && h > 0
    requires forall j :: 0 <= j < |outs| ==> i < |outs[j]| && outs[j][i] == SmoothAt(planes[j], w, h, x, y)
    ensures MaskSum(outs, i, k) == SmoothSum(planes, w, h, x, y, k)
  {
    hide SmoothAt;
    if k > 0 { SumsAgree(planes, outs, w, h, x, y, i, k - 1); }
  }

  /** The planes' values add up to one in every cell. */
  ghost predicate SharesOut(planes: seq<Plane>, cells: nat) {
    && SameSize(planes, cells)
    && forall i {:trigger MaskSum(planes, i, |planes|)} :: 0 <= i < cells ==> MaskSum(planes, i, |planes|) == 1.0
  }

  /** Shares that are complete stay complete under smoothing. */
  lemma {:induction false} SmoothedShares(planes: seq<Plane>, outs: seq<Plane>, w: nat, h: nat, x: int, y: int, i: nat)
    requires SharesOut(planes, w * h) && w > 0 && h > 0 && |planes| == |outs|
    requires forall j :: 0 <= j < |outs| ==> i < |outs[j]| && outs[j][i] == SmoothAt(planes[j], w, h, x, y)
    ensures MaskSum(outs, i, |outs|) == 1.0
  {
    var s := PlaneSum(planes, w * h, |planes|);
    assert IsOnes(s) by {
      forall c | 0 <= c < |s| ensures s[c] == 1.0 { PlaneSumAt(planes, w * h, |planes|, c); }
    }
    hide SmoothAt, PlaneSum, IsOnes;
    SumsAgree(planes, outs, w, h, x, y, i, |planes|);
    SmoothSumIs(planes, w, h, x, y, |planes|);
    SmoothOnes(s, w, h, x, y);
  }

  lemma {:induction false} DownShares(planes: seq<Plane>, outs: seq<Plane>, w: nat, h: nat)
    requires SharesOut(planes, w * h) && |planes| == |outs|
    requires forall j :: 0 <= j < |outs| ==> IsDown(planes[j], outs[j], w, h)
    ensures SharesOut(outs, Half(w) * Half(h))
  {
    forall i | 0 <= i < Half(w) * Half(h) ensures MaskSum(outs, i, |outs|) == 1.0 {
      var x, y := CellOf(Half(w), Half(h), i);
      forall j | 0 <= j < |outs| ensures i < |outs[j]| && outs[j][i] == SmoothAt(planes[j], w, h, 2 * x, 2 * y) {
        CellAt(outs[j], Half(w), Half(h), x, y);
      }
      hide SmoothAt, MaskSum, IsDown, SharesOut;
      SmoothedShares(planes, outs, w, h, 2 * x, 2 * y, i);
    }
  }

  lemma {:induction false} SmoothShares(planes: seq<Plane>, outs: seq<Plane>, w: nat, h: nat)
    requires SharesOut(planes, w * h) && |planes| == |outs|
    requires forall j :: 0 <= j < |outs| ==> IsSmooth(planes[j], outs[j], w, h)
    ensures SharesOut(outs, w * h)
  {
    forall i | 0 <= i < w * h ensures MaskSum(outs, i, |outs|) == 1.0 {
      var x, y := CellOf(w, h, i);
      forall j | 0 <= j < |outs| ensures i < |outs[j]| && outs[j][i] == SmoothAt(planes[j], w, h, x, y) {
        CellAt(outs[j], w, h, x, y);
      }
      hide SmoothAt, MaskSum, IsSmooth, SharesOut;
      SmoothedShares(planes, outs, w, h, x, y, i);
    }
  }

  lemma {:induction false} SupportedOnes(m: Plane, v: Plane)
    requires |m| == |v| && IsOnes(v)
    ensures Supported(m, v) == m
  {
  }

  /** Under all-ones validity nothing is clamped: the chain decimates, the stored levels smooth. */
  lemma {:induction false} Unclamped(mask: Plane, ones: Plane, w: nat, h: nat, n: nat,
                                     levels: seq<Plane>, v: seq<Plane>, cur: seq<Plane>, l: nat)
    requires IsMaskPyramid(mask, ones, w, h, n, levels, v, cur) && IsOnes(ones) && l <= n
    ensures l < n ==> IsDown(cur[l], cur[l + 1], Level(w, l), Level(h, l))
    ensures IsSmooth(cur[l], levels[l], Level(w, l), Level(h, l))
    ensures cur[0] == mask
  {
    hide IsDown, IsSmooth, IsOnes;
    OnesStay(v, ones, w, h, n, 0);
    OnesStay(v, ones, w, h, n, l);
    SupportedOnes(mask, v[0]);
    var s: Plane :| IsSmooth(cur[l], s, Level(w, l), Level(h, l)) && |s| == |v[l]| && levels[l] == Supported(s, v[l]);
    SupportedOnes(s, v[l]);
    if l < n {
      OnesStay(v, ones, w, h, n, l + 1);
      MaskStep(mask, w, h, n, v, cur, l);
      var d: Plane :| IsDown(cur[l], d, Level(w, l), Level(h, l)) && |d| == |v[l + 1]|
          && cur[l + 1] == Supported(d, v[l + 1]);
      SupportedOnes(d, v[l + 1]);
    }
  }

  /** The mask pyramids of several panels, with the planes they pass through. */
  ghost predicate AreMasks(bases: seq<Plane>, ones: Plane, w: nat, h: nat, n: nat,
                           masks: seq<seq<Plane>>, v: seq<seq<Plane>>, cur: seq<seq<Plane>>) {
    && |bases| == |masks| == |v| == |cur|
    && forall k :: 0 <= k < |masks| ==> IsMaskPyramid(bases[k], ones, w, h, n, masks[k], v[k], cur[k])
  }

  lemma {:induction false} MaskLengths(bases: seq<Plane>, ones: Plane, w: nat, h: nat, n: nat,
                                       masks: seq<seq<Plane>>, v: seq<seq<Plane>>, cur: seq<seq<Plane>>, l: nat)
    requires AreMasks(bases, ones, w, h, n, masks, v, cur) && l <= n
    ensures forall k :: 0 <= k < |masks| ==> l < |cur[k]| && l < |masks[k]|
  {
    hide IsMaskStep, IsMaskLevel, IsDown;
  }

  lemma {:induction false} ChainShares(bases: seq<Plane>, ones: Plane, w: nat, h: nat, n: nat,
                                       masks: seq<seq<Plane>>, v: seq<seq<Plane>>, cur: seq<seq<Plane>>, l: nat)
    requires AreMasks(bases, ones, w, h, n, masks, v, cur) && IsOnes(ones) && SharesOut(bases, w * h) && l <= n
    ensures forall k :: 0 <= k < |cur| ==> l < |cur[k]|
    ensures SharesOut(LevelOf(cur, l), Level(w, l) * Level(h, l))
  {
    MaskLengths(bases, ones, w, h, n, masks, v, cur, l);
    if l == 0 {
      forall k | 0 <= k < |cur| ensures cur[k][0] == bases[k] {
        Unclamped(bases[k], ones, w, h, n, masks[k], v[k], cur[k], 0);
      }
      assert LevelOf(cur, 0) == bases;
    } else {
      hide *;
      ChainShares(bases, ones, w, h, n, masks, v, cur, l - 1);
      ChainDecimates(bases, ones, w, h, n, masks, v, cur, l - 1);
      DownShares(LevelOf(cur, l - 1), LevelOf(cur, l), Level(w, l - 1), Level(h, l - 1));
      LevelIs(w, l);
      LevelIs(h, l);
    }
  }

  lemma {:induction false} LevelIs(n: nat, l: nat)
    requires l > 0
    ensures Level(n, l) == Half(Level(n, l - 1))
  {
  }

  lemma {:induction false} ChainDecimates(bases: seq<Plane>, ones: Plane, w: nat, h: nat, n: nat,
                                          masks: seq<seq<Plane>>, v: seq<seq<Plane>>, cur: seq<seq<Plane>>, l: nat)
    requires AreMasks(bases, ones, w, h, n, masks, v, cur) && IsOnes(ones) && l < n
    ensures forall k :: 0 <= k < |cur| ==> l + 1 < |cur[k]|
    ensures forall k :: 0 <= k < |cur| ==> IsDown(LevelOf(cur, l)[k], LevelOf(cur, l + 1)[k], Level(w, l), Level(h, l))
  {
    MaskLengths(bases, ones, w, h, n, masks, v, cur, l + 1);
    hide IsMaskPyramid, IsOnes, IsDown, IsSmooth, Level;
    forall k | 0 <= k < |cur| ensures IsDown(LevelOf(cur, l)[k], LevelOf(cur, l + 1)[k], Level(w, l), Level(h, l)) {
      Unclamped(bases[k], ones, w, h, n, masks[k], v[k], cur[k], l);
    }
  }

  /** Partition of unity: masks that share out every level-0 cell share out every cell of every level. */
  lemma {:induction false} LevelShares(bases: seq<Plane>, ones: Plane, w: nat, h: nat, n: nat,
                                       masks: seq<seq<Plane>>, v: seq<seq<Plane>>, cur: seq<seq<Plane>>, l: nat)
    requires AreMasks(bases, ones, w, h, n, masks, v, cur) && IsOnes(ones) && SharesOut(bases, w * h) && l <= n
    ensures forall k :: 0 <= k < |masks| ==> l < |masks[k]|
    ensures SharesOut(LevelOf(masks, l), Level(w, l) * Level(h, l))
  {
    MaskLengths(bases, ones, w, h, n, masks, v, cur, l);
    ChainShares(bases, ones, w, h, n, masks, v, cur, l);
    hide SharesOut, IsMaskPyramid, IsOnes, IsDown, IsSmooth, Level;
    forall k | 0 <= k < |masks| ensures IsSmooth(LevelOf(cur, l)[k], LevelOf(masks, l)[k], Level(w, l), Level(h, l)) {
      Unclamped(bases[k], ones, w, h, n, masks[k], v[k], cur[k], l);
    }
    SmoothShares(LevelOf(cur, l), LevelOf(masks, l), Level(w, l), Level(h, l));
  }

  lemma {:induction false} PlaneSmoothNonNegative(p: Plane, q: Plane, w: nat, h: nat)
    requires IsSmooth(p, q, w, h) && NonNegative(p)
    ensures NonNegative(q)
  {
    forall i | 0 <= i < |q| ensures q[i] >= 0.0 {
      var x, y := CellOf(w, h, i);
      CellAt(q, w, h, x, y);
      hide SmoothAt;
      SmoothNonNegative(p, w, h, x, y);
    }
  }

  lemma {:induction false} StepNonNegative(cur: Plane, v: Plane, next: Plane, w: nat, h: nat)
    requires IsMaskStep(cur, v, next, w, h) && NonNegative(cur)
    ensures NonNegative(next)
  {
    hide IsDown;
    var d: Plane :| IsDown(cur, d, w, h) && |d| == |v| && next == Supported(d, v);
    DownNonNegative(cur, d, w, h);
  }

  lemma {:induction false} LevelNonNegative(cur: Plane, v: Plane, level: Plane, w: nat, h: nat)
    requires IsMaskLevel(cur, v, level, w, h) && NonNegative(cur)
    ensures NonNegative(level)
  {
    hide IsSmooth;
    var s: Plane :| IsSmooth(cur, s, w, h) && |s| == |v| && level == Supported(s, v);
    PlaneSmoothNonNegative(cur, s, w, h);
  }

  /** No step of a mask pyramid makes a weight negative. */
  lemma {:induction false} MaskLevelsNonNegative(mask: Plane, valid: Plane, w: nat, h: nat, n: nat,
                                                 levels: seq<Plane>, v: seq<Plane>, cur: seq<Plane>, l: nat)
    requires IsMaskPyramid(mask, valid, w, h, n, levels, v, cur) && NonNegative(mask) && l <= n
    ensures NonNegative(cur[l]) && NonNegative(levels[l])
  {
    hide IsDown, IsMaskStep, IsMaskLevel;
    if l == 0 {
      assert cur[0] == Supported(mask, v[0]);
    } else {
      MaskLevelsNonNegative(mask, valid, w, h, n, levels, v, cur, l - 1);
      MaskStep(mask, w, h, n, v, cur, l - 1);
      StepNonNegative(cur[l - 1], v[l], cur[l], Level(w, l - 1), Level(h, l - 1));
    }
    hide NonNegative;
    LevelNonNegative(cur[l], v[l], levels[l], Level(w, l), Level(h, l));
  }

  /** Stability of the whole blend: panels within `e` of a common plane, blended under nonnegative
      ownership masks that share out every cell, come out within (2n + 1) e of it; at e = 0 exactly it. */
  lemma {:induction false} OwnershipBlendStable(panels: seq<Plane>, common: Plane, ones: Plane, w: nat, h: nat, n: nat,
                                                e: real, bases: seq<Plane>, v: seq<seq<Plane>>, chains: seq<seq<Plane>>,
                                                datas: seq<seq<Plane>>, masks: seq<seq<Plane>>, blended: seq<Plane>,
                                                cur: seq<Plane>)
    requires 0 < |panels| == |datas| && IsOnes(ones) && IsPlane(|common|, w, h) && |ones| == |common|
    requires forall k :: 0 <= k < |panels| ==> IsPanel(panels[k], common, ones, w, h, n, e, datas[k])
    requires AreMasks(bases, ones, w, h, n, masks, v, chains) && SharesOut(bases, w * h)
    requires forall k :: 0 <= k < |bases| ==> NonNegative(bases[k])
    requires IsBlend(datas, masks, n, blended) && IsCollapse(blended, w, h, n, cur)
    ensures Close(cur[0], common, (2 * n + 1) as real * e)
    ensures e == 0.0 ==> cur[0] == common
  {
    forall l | 0 <= l <= n ensures MasksPositive(LevelOf(masks, l), |blended[l]|) {
      hide IsPanel, IsMaskPyramid, IsCollapse, IsOnes, NonNegative;
      LevelShares(bases, ones, w, h, n, masks, v, chains, l);
      forall k | 0 <= k < |masks| ensures NonNegative(LevelOf(masks, l)[k]) {
        MaskLevelsNonNegative(bases[k], ones, w, h, n, masks[k], v[k], chains[k], l);
      }
      assert IsBlendLevel(LevelOf(datas, l), LevelOf(masks, l), blended[l]);
      assert |LevelOf(masks, l)[0]| == |blended[l]|;
      SharesPositive(LevelOf(masks, l), |blended[l]|);
    }
    BlendStable(panels, common, ones, w, h, n, e, datas, masks, blended, cur);
    hide *;
    if e == 0.0 { NoDrift(cur[0], common, (2 * n + 1) as real, e); }
  }

  lemma {:induction false} NoDrift(p: Plane, q: Plane, k: real, e: real)
    requires Close(p, q, k * e) && e == 0.0
    ensures p == q
  {
    CloseZero(p, q);
  }

  lemma {:induction false} SharesPositive(masks: seq<Plane>, cells: nat)
    requires SharesOut(masks, cells) && forall k :: 0 <= k < |masks| ==> NonNegative(masks[k])
    ensures MasksPositive(masks, cells)
  {
  }
}
