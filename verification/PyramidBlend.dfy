/** Building data and mask pyramids, collapsing them, and blending several panels level by level
    (crates/mmm-core/src/pyramid.rs). */
module PyramidBlend {
  import opened Entrywise
  import opened Grid
  import opened MaskPyramid
  import opened Pyramid
  import opened PyramidKernels

  // ---------------------------------------------------------------- building

  lemma {:induction false} StartChain(base: Plane, w: nat, h: nat)
    requires IsPlane(|base|, w, h)
    ensures IsChain([base], base, w, h, 0)
  {
  }

  lemma {:induction false} ExtendChain(c: seq<Plane>, q: Plane, base: Plane, w: nat, h: nat, l: nat)
    requires IsChain(c, base, w, h, l) && IsDown(c[l], q, Level(w, l), Level(h, l))
    ensures IsChain(c + [q], base, w, h, l + 1)
    ensures IsPlane(|q|, Level(w, l + 1), Level(h, l + 1))
  {
    assert IsPlane(|q|, Level(w, l + 1), Level(h, l + 1));
    hide IsDown, Level;
    var d := c + [q];
    forall m | 0 <= m < l + 1 ensures IsDown(d[m], d[m + 1], Level(w, m), Level(h, m)) {
      if m < l { assert d[m] == c[m] && d[m + 1] == c[m + 1]; }
    }
  }

  lemma {:induction false} UpDifference(fine: Plane, coarse: Plane, up: Plane, w: nat, h: nat)
    requires IsPlane(|fine|, w, h) && Interpolates(coarse, up, w, h)
    ensures |up| == |fine| && IsDifference(fine, coarse, Minus(fine, up), w, h)
  {
    UpPlane(coarse, up, w, h);
  }

  ghost predicate ArePlanes(g: seq<Plane>, w: nat, h: nat) {
    forall l :: 0 <= l < |g| ==> IsPlane(|g[l]|, Level(w, l), Level(h, l))
  }

  /** The difference levels of a Gaussian pyramid, finest first, and its residual. */
  method Differences(gauss: seq<Plane>, w: nat, h: nat, n: nat) returns (levels: seq<Plane>)
    requires |gauss| == n + 1 && ArePlanes(gauss, w, h)
    ensures IsLaplacian(gauss, w, h, n, levels)
  {
    hide Interpolates, IsUp, IsPlane, IsDifference;
    levels := [];
    for l := 0 to n
      invariant |levels| == l
      invariant forall m {:trigger levels[m]} :: 0 <= m < l ==>
                  IsDifference(gauss[m], gauss[m + 1], levels[m], Level(w, m), Level(h, m))
    {
      var lw, lh, cw, ch := Level(w, l), Level(h, l), Level(w, l + 1), Level(h, l + 1);
      assert IsPlane(|gauss[l]|, lw, lh) && IsPlane(|gauss[l + 1]|, cw, ch);
      assert cw == Half(lw) && ch == Half(lh);
      var up := Upsample(gauss[l + 1], cw, ch, lw, lh);
      UpDifference(gauss[l], gauss[l + 1], up[..], lw, lh);
      levels := levels + [Minus(gauss[l], up[..])];
    }
    levels := levels + [gauss[n]];
  }

  /** The masked pyramid of a plane: the premultiplied data and the validity run down the same chain,
      and each level stores normalised data minus the upsampled next level. */
  method BuildMasked(plane: Plane, valid: Plane, w: nat, h: nat, n: nat) returns (levels: seq<Plane>)
    requires IsPlane(|plane|, w, h) && |valid| == |plane|
    ensures IsPyramid(plane, valid, w, h, n, levels)
  {
    hide IsDown, IsChain, Level, IsPlane, IsLaplacian;
    var a, v := Times(plane, valid), valid;
    ghost var base := a;
    var gauss := [Ratio(a, v)];
    ghost var ca, vs := [a], [v];
    StartChain(a, w, h);
    StartChain(v, w, h);
    LevelZero(w, h);
    for l := 0 to n
      invariant |ca| == |vs| == |gauss| == l + 1 && ca[l] == a && vs[l] == v
      invariant IsChain(ca, base, w, h, l) && IsChain(vs, valid, w, h, l)
      invariant IsGauss(ca, vs, gauss)
      invariant IsPlane(|a|, Level(w, l), Level(h, l)) && |a| == |v|
      invariant ArePlanes(gauss, w, h)
    {
      var a2 := Downsample(a, Level(w, l), Level(h, l));
      var v2 := Downsample(v, Level(w, l), Level(h, l));
      ExtendChain(ca, a2[..], base, w, h, l);
      ExtendChain(vs, v2[..], valid, w, h, l);
      PlaneSizes(|a2[..]|, |v2[..]|, Level(w, l + 1), Level(h, l + 1));
      a, v := a2[..], v2[..];
      ca, vs := ca + [a], vs + [v];
      gauss := gauss + [Ratio(a, v)];
    }
    levels := Differences(gauss, w, h, n);
    assert IsBuilt(plane, valid, w, h, n, levels, gauss, vs);
  }

  lemma {:induction false} LevelZero(w: nat, h: nat)
    ensures Level(w, 0) == w && Level(h, 0) == h
  {
  }

  lemma {:induction false} PlaneSizes(a: nat, b: nat, w: nat, h: nat)
    requires IsPlane(a, w, h) && IsPlane(b, w, h)
    ensures a == b
  {
  }

  // ---------------------------------------------------------------- mask pyramids

  /** `levels` is what building the mask pyramid of `mask` under `valid` gives. */
  ghost predicate IsMasks(mask: Plane, valid: Plane, w: nat, h: nat, n: nat, levels: seq<Plane>) {
    exists v: seq<Plane>, cur: seq<Plane> :: IsMaskPyramid(mask, valid, w, h, n, levels, v, cur)
  }

  lemma {:induction false} MaskLevelIs(cur: Plane, s: Plane, v: Plane, w: nat, h: nat)
    requires IsSmooth(cur, s, w, h) && IsPlane(|v|, w, h)
    ensures |s| == |v| && IsMaskLevel(cur, v, Supported(s, v), w, h)
  {
  }

  lemma {:induction false} MaskStepIs(cur: Plane, d: Plane, v: Plane, w: nat, h: nat)
    requires IsDown(cur, d, w, h) && IsPlane(|v|, Half(w), Half(h))
    ensures |d| == |v| && IsMaskStep(cur, v, Supported(d, v), w, h)
  {
  }

  lemma {:induction false} ExtendMaskChain(mask: Plane, w: nat, h: nat, l: nat, v: seq<Plane>, cur: seq<Plane>,
                                           v': Plane, next: Plane)
    requires IsMaskChain(mask, w, h, l, v, cur) && IsMaskStep(cur[l], v', next, Level(w, l), Level(h, l))
    ensures IsMaskChain(mask, w, h, l + 1, v + [v'], cur + [next])
  {
    hide IsMaskStep, Level;
    var c, u := cur + [next], v + [v'];
    forall m | 0 <= m < l + 1 ensures IsMaskStep(c[m], u[m + 1], c[m + 1], Level(w, m), Level(h, m)) {
      if m < l {
        assert c[m] == cur[m] && c[m + 1] == cur[m + 1] && u[m + 1] == v[m + 1];
        MaskStep(mask, w, h, l, v, cur, m);
      }
    }
  }

  /** Decimate the clamped mask along with the validity, storing each level smoothed once more and
      clamped again. */
  method BuildMask(mask: Plane, valid: Plane, w: nat, h: nat, n: nat) returns (levels: seq<Plane>)
    requires IsPlane(|mask|, w, h) && |valid| == |mask|
    ensures IsMasks(mask, valid, w, h, n, levels)
  {
    hide IsDown, IsSmooth, IsChain, Level, IsPlane, IsMaskStep, IsMaskLevel;
    var v := valid;
    var cur := Supported(mask, v);
    var sm := Smooth(cur, w, h);
    MaskLevelIs(cur, sm[..], v, w, h);
    levels := [Supported(sm[..], v)];
    ghost var vs, curs := [v], [cur];
    StartChain(v, w, h);
    LevelZero(w, h);
    for l := 0 to n
      invariant |vs| == |curs| == |levels| == l + 1 && vs[l] == v && curs[l] == cur
      invariant IsChain(vs, valid, w, h, l) && IsMaskChain(mask, w, h, l, vs, curs)
      invariant IsPlane(|v|, Level(w, l), Level(h, l)) && |v| == |cur|
      invariant forall m :: 0 <= m <= l ==> IsMaskLevel(curs[m], vs[m], levels[m], Level(w, m), Level(h, m))
    {
      ghost var before := cur;
      var d := Downsample(cur, Level(w, l), Level(h, l));
      var v2 := Downsample(v, Level(w, l), Level(h, l));
      ExtendChain(vs, v2[..], valid, w, h, l);
      LevelNext(w, l);
      LevelNext(h, l);
      v := v2[..];
      MaskStepIs(before, d[..], v, Level(w, l), Level(h, l));
      cur := Supported(d[..], v);
      ExtendMaskChain(mask, w, h, l, vs, curs, v, cur);
      var s := Smooth(cur, Level(w, l + 1), Level(h, l + 1));
      MaskLevelIs(cur, s[..], v, Level(w, l + 1), Level(h, l + 1));
      levels := levels + [Supported(s[..], v)];
      vs, curs := vs + [v], curs + [cur];
    }
    assert IsMaskPyramid(mask, valid, w, h, n, levels, vs, curs);
  }

  lemma {:induction false} LevelNext(n: nat, l: nat)
    ensures Level(n, l + 1) == Half(Level(n, l))
  {
  }

  // ---------------------------------------------------------------- collapse

  /** `plane` is the collapse of the levels. */
  ghost predicate CollapsesTo(levels: seq<Plane>, w: nat, h: nat, n: nat, plane: Plane) {
    exists cur: seq<Plane> :: IsCollapse(levels, w, h, n, cur) && cur[0] == plane
  }

  /** The planes of a collapse that has come up from level `n` to level `l`, finest first. */
  ghost predicate Rising(levels: seq<Plane>, w: nat, h: nat, n: nat, l: nat, tail: seq<Plane>) {
    && l <= n && |levels| == n + 1 && |tail| == n + 1 - l && tail[n - l] == levels[n]
    && forall j :: 0 <= j < n - l ==> IsSum(levels[l + j], tail[j + 1], tail[j], Level(w, l + j), Level(h, l + j))
  }

  lemma {:induction false} StartRise(levels: seq<Plane>, w: nat, h: nat, n: nat)
    requires |levels| == n + 1
    ensures Rising(levels, w, h, n, n, [levels[n]])
  {
  }

  lemma {:induction false} Rise(levels: seq<Plane>, w: nat, h: nat, n: nat, l: nat, tail: seq<Plane>, fine: Plane)
    requires Rising(levels, w, h, n, l + 1, tail) && IsSum(levels[l], tail[0], fine, Level(w, l), Level(h, l))
    ensures Rising(levels, w, h, n, l, [fine] + tail)
  {
    hide IsSum, Level;
    var t := [fine] + tail;
    forall j | 0 <= j < n - l ensures IsSum(levels[l + j], t[j + 1], t[j], Level(w, l + j), Level(h, l + j)) {
      if j > 0 {
        assert t[j] == tail[j - 1] && t[j + 1] == tail[j];
        assert IsSum(levels[l + 1 + (j - 1)], tail[j - 1 + 1], tail[j - 1], Level(w, l + 1 + (j - 1)),
                     Level(h, l + 1 + (j - 1)));
      }
    }
  }

  lemma {:induction false} Risen(levels: seq<Plane>, w: nat, h: nat, n: nat, tail: seq<Plane>)
    requires Rising(levels, w, h, n, 0, tail)
    ensures IsCollapse(levels, w, h, n, tail) && CollapsesTo(levels, w, h, n, tail[0])
  {
    hide IsSum, Level;
    forall l | 0 <= l < n ensures IsSum(levels[l], tail[l + 1], tail[l], Level(w, l), Level(h, l)) {
      assert IsSum(levels[0 + l], tail[l + 1], tail[l], Level(w, 0 + l), Level(h, 0 + l));
    }
  }

  lemma {:induction false} UpSum(d: Plane, coarse: Plane, up: Plane, w: nat, h: nat)
    requires IsPlane(|d|, w, h) && Interpolates(coarse, up, w, h)
    ensures |up| == |d| && IsSum(d, coarse, Plus(d, up), w, h)
    ensures IsPlane(|Plus(d, up)|, w, h)
  {
    UpPlane(coarse, up, w, h);
  }

  /** Upsample the residual and add the difference levels back, finest last. */
  method Collapse(levels: seq<Plane>, w: nat, h: nat) returns (plane: Plane)
    requires |levels| > 0 && ArePlanes(levels, w, h)
    ensures CollapsesTo(levels, w, h, |levels| - 1, plane)
  {
    hide Interpolates, IsUp, IsSum, IsPlane;
    var n := |levels| - 1;
    plane := levels[n];
    ghost var tail := [plane];
    for l := n downto 0
      invariant IsPlane(|plane|, Level(w, l), Level(h, l))
      invariant Rising(levels, w, h, n, l, tail) && tail[0] == plane
    {
      var lw, lh, cw, ch := Level(w, l), Level(h, l), Level(w, l + 1), Level(h, l + 1);
      assert IsPlane(|levels[l]|, lw, lh) && cw == Half(lw) && ch == Half(lh);
      var up := Upsample(plane, cw, ch, lw, lh);
      UpSum(levels[l], plane, up[..], lw, lh);
      plane := Plus(levels[l], up[..]);
      Rise(levels, w, h, n, l, tail, plane);
      tail := [plane] + tail;
    }
    Risen(levels, w, h, n, tail);
  }
}
