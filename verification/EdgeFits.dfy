/** The clip rounds of an edge fit: sums over the kept cell pairs, a line, and the pairs near it kept for the next
    round (crates/mmm-core/src/photometry.rs, `fit_edge`). */
module EdgeFits {
  import opened Reals

  const FIT_ROUNDS: nat := 3
  /** Square of the clip threshold in units of the mean squared residual: 2.5 standard deviations. */
  const CLIP_SQUARED: real := 6.25
  const CLIP_FLOOR_SQUARED: real := 0.00000000000001
  const FLAT: real := 0.000000000001

  /** Count, sums, sums of squares and sum of products of the kept pairs. */
  datatype Sums = Sums(n: real, x: real, y: real, xx: real, yy: real, xy: real)

  const NOTHING: Sums := Sums(0.0, 0.0, 0.0, 0.0, 0.0, 0.0)

  datatype Line = Line(gain: real, offset: real)

  // ---------------------------------------------------------------- specification

  function SumsOver(xs: seq<real>, ys: seq<real>, keep: seq<bool>, hi: nat): Sums
    requires hi <= |xs| == |ys| == |keep|
  {
    if hi == 0 then NOTHING
    else
      var s := SumsOver(xs, ys, keep, hi - 1);
      if keep[hi - 1] then Plus(s, xs[hi - 1], ys[hi - 1]) else s
  }

  function Plus(s: Sums, x: real, y: real): Sums {
    Sums(s.n + 1.0, s.x + x, s.y + y, s.xx + Mul(x, x), s.yy + Mul(y, y), s.xy + Mul(x, y))
  }

  /** The ordinary y-on-x line, or the difference of the means when the x barely vary. */
  function LineOf(s: Sums): Line
    requires s.n != 0.0
  {
    var denom := Mul(s.n, s.xx) - Mul(s.x, s.x);
    if denom > Mul(s.n, s.xx) * FLAT && denom != 0.0 then
      var gain := (Mul(s.n, s.xy) - Mul(s.x, s.y)) / denom;
      Line(gain, (s.y - Mul(gain, s.x)) / s.n)
    else Line(1.0, (s.y - s.x) / s.n)
  }

  function Off(l: Line, x: real, y: real): real {
    y - (Mul(l.gain, x) + l.offset)
  }

  function SquareOff(l: Line, x: real, y: real): (r: real)
    ensures r >= 0.0
  {
    SquareSign(Off(l, x, y));
    Mul(Off(l, x, y), Off(l, x, y))
  }

  function SquaresOver(xs: seq<real>, ys: seq<real>, keep: seq<bool>, l: Line, hi: nat): (r: real)
    requires hi <= |xs| == |ys| == |keep|
    ensures r >= 0.0
  {
    if hi == 0 then 0.0
    else SquaresOver(xs, ys, keep, l, hi - 1) + if keep[hi - 1] then SquareOff(l, xs[hi - 1], ys[hi - 1]) else 0.0
  }

  /** Square of the clip threshold. */
  function Threshold(squares: real, n: real): (t: real)
    requires n > 0.0
    ensures t > 0.0 && Mul(n, t) >= CLIP_SQUARED * squares
  {
    var t := CLIP_SQUARED * (squares / n);
    ThresholdScales(squares, n);
    if t < CLIP_FLOOR_SQUARED then MulGrowsIn(n, t, CLIP_FLOOR_SQUARED); CLIP_FLOOR_SQUARED else t
  }

  lemma {:induction false} ThresholdScales(squares: real, n: real)
    requires n > 0.0
    ensures Mul(n, CLIP_SQUARED * (squares / n)) == CLIP_SQUARED * squares
  {
    var q := squares / n;
    assert q * n == squares;
    assert n * (CLIP_SQUARED * q) == CLIP_SQUARED * (q * n);
  }

  lemma {:induction false} MulGrowsIn(n: real, a: real, b: real)
    requires n > 0.0 && a <= b
    ensures Mul(n, a) <= Mul(n, b)
  {
    Distribute(n, a, b - a);
    hide Mul;
    MulSign(n, b - a);
  }

  ghost predicate AreAll(keep: seq<bool>) {
    forall i :: 0 <= i < |keep| ==> keep[i]
  }

  function All(n: nat): (keep: seq<bool>)
    ensures |keep| == n && AreAll(keep)
  {
    seq(n, _ => true)
  }

  /** Fewer than two kept pairs make no fit. */
  ghost predicate Enough(xs: seq<real>, ys: seq<real>, keep: seq<bool>) {
    |xs| == |ys| == |keep| && SumsOver(xs, ys, keep, |xs|).n >= 2.0
  }

  /** The pairs near the line through the kept ones. */
  ghost function Clip(xs: seq<real>, ys: seq<real>, keep: seq<bool>): (next: seq<bool>)
    requires Enough(xs, ys, keep)
    ensures |next| == |xs|
  {
    var s := SumsOver(xs, ys, keep, |xs|);
    var l := LineOf(s);
    var t := Threshold(SquaresOver(xs, ys, keep, l, |xs|), s.n);
    seq(|xs|, i requires 0 <= i < |xs| && |xs| == |ys| => SquareOff(l, xs[i], ys[i]) <= t)
  }

  // ---------------------------------------------------------------- the line is the least-squares line

  /** Sum of the residuals of the kept pairs. */
  ghost function OffsOver(xs: seq<real>, ys: seq<real>, keep: seq<bool>, l: Line, hi: nat): real
    requires hi <= |xs| == |ys| == |keep|
  {
    if hi == 0 then 0.0
    else OffsOver(xs, ys, keep, l, hi - 1) + if keep[hi - 1] then Off(l, xs[hi - 1], ys[hi - 1]) else 0.0
  }

  /** Sum of the squared distances of the kept values from `m`. */
  ghost function ScatterOver(xs: seq<real>, keep: seq<bool>, m: real, hi: nat): (r: real)
    requires hi <= |xs| == |keep|
    ensures r >= 0.0
  {
    if hi == 0 then 0.0
    else
      SquareSign(xs[hi - 1] - m);
      ScatterOver(xs, keep, m, hi - 1) + if keep[hi - 1] then Mul(xs[hi - 1] - m, xs[hi - 1] - m) else 0.0
  }

  /** The kept x vary: their scatter about some value is everywhere more than the share that counts as flat of
      their squares. */
  ghost predicate Varied(xs: seq<real>, keep: seq<bool>)
    requires |xs| == |keep|
  {
    forall m: real :: ScatterOver(xs, keep, m, |xs|) > FLAT * ScatterOver(xs, keep, 0.0, |xs|)
  }

  /** What a round's line promises: no line has smaller squared residuals over the kept pairs, or, where the x
      hardly vary, it has slope one and evens out the residuals. */
  ghost predicate IsFitted(xs: seq<real>, ys: seq<real>, keep: seq<bool>, l: Line)
    requires |xs| == |ys| == |keep|
  {
    if Varied(xs, keep) then
      forall m: Line :: SquaresOver(xs, ys, keep, l, |xs|) <= SquaresOver(xs, ys, keep, m, |xs|)
    else l.gain == 1.0 && OffsOver(xs, ys, keep, l, |xs|) == 0.0
  }

  lemma {:induction false} OffsFromSums(xs: seq<real>, ys: seq<real>, keep: seq<bool>, l: Line, hi: nat)
    requires hi <= |xs| == |ys| == |keep|
    ensures var s := SumsOver(xs, ys, keep, hi);
            OffsOver(xs, ys, keep, l, hi) == s.y - Mul(l.gain, s.x) - Mul(l.offset, s.n)
  {
    if hi == 0 {
      assert Mul(l.gain, 0.0) == 0.0 && Mul(l.offset, 0.0) == 0.0;
    } else {
      OffsFromSums(xs, ys, keep, l, hi - 1);
      var s := SumsOver(xs, ys, keep, hi - 1);
      Distribute(l.gain, s.x, xs[hi - 1]);
      Distribute(l.offset, s.n, 1.0);
      assert Mul(l.offset, 1.0) == l.offset;
      hide Mul;
    }
  }

  lemma {:induction false} ScatterFromSums(xs: seq<real>, ys: seq<real>, keep: seq<bool>, m: real, hi: nat)
    requires hi <= |xs| == |ys| == |keep|
    ensures var s := SumsOver(xs, ys, keep, hi);
            ScatterOver(xs, keep, m, hi) == s.xx - 2.0 * Mul(m, s.x) + Mul(Mul(m, m), s.n)
  {
    if hi == 0 {
      assert Mul(m, 0.0) == 0.0 && Mul(Mul(m, m), 0.0) == 0.0;
    } else {
      ScatterFromSums(xs, ys, keep, m, hi - 1);
      var s, x := SumsOver(xs, ys, keep, hi - 1), xs[hi - 1];
      Distribute(m, s.x, x);
      Distribute(Mul(m, m), s.n, 1.0);
      SquareOfDifference(x, m);
      assert Mul(Mul(m, m), 1.0) == Mul(m, m);
      hide Mul;
    }
  }

  lemma {:induction false} SquareOfDifference(a: real, b: real)
    ensures Mul(a - b, a - b) == Mul(a, a) - 2.0 * Mul(b, a) + Mul(b, b)
  {
    assert (a - b) * (a - b) == a * a - 2.0 * (b * a) + b * b;
  }

  /** The residuals of another line: a square more for each pair, and a part linear in the change of line. */
  lemma {:induction false} Tangent(xs: seq<real>, ys: seq<real>, keep: seq<bool>, l: Line, m: Line, hi: nat)
    requires hi <= |xs| == |ys| == |keep|
    ensures var s, dg, d := SumsOver(xs, ys, keep, hi), m.gain - l.gain, m.offset - l.offset;
            SquaresOver(xs, ys, keep, m, hi) >=
              SquaresOver(xs, ys, keep, l, hi)
                - 2.0 * (Mul(dg, s.xy - Mul(l.gain, s.xx) - Mul(l.offset, s.x))
                         + Mul(d, s.y - Mul(l.gain, s.x) - Mul(l.offset, s.n)))
  {
    var dg, d := m.gain - l.gain, m.offset - l.offset;
    if hi == 0 {
      assert Mul(dg, 0.0) == 0.0 && Mul(d, 0.0) == 0.0 && Mul(l.gain, 0.0) == 0.0 && Mul(l.offset, 0.0) == 0.0;
    } else {
      Tangent(xs, ys, keep, l, m, hi - 1);
      if keep[hi - 1] {
        var s, x, y := SumsOver(xs, ys, keep, hi - 1), xs[hi - 1], ys[hi - 1];
        TangentAt(l, m, x, y);
        MomentGrows(l.gain, l.offset, s.xy, s.xx, s.x, Mul(x, y), Mul(x, x), x);
        MomentGrows(l.gain, l.offset, s.y, s.x, s.n, y, x, 1.0);
        assert Mul(l.offset, 1.0) == l.offset;
        Distribute(dg, s.xy - Mul(l.gain, s.xx) - Mul(l.offset, s.x),
                   Mul(x, y) - Mul(l.gain, Mul(x, x)) - Mul(l.offset, x));
        Distribute(d, s.y - Mul(l.gain, s.x) - Mul(l.offset, s.n), Off(l, x, y));
        hide Mul, SquareOff;
      }
    }
  }

  lemma {:induction false} MomentGrows(g: real, o: real, a: real, b: real, c: real, a': real, b': real, c': real)
    ensures (a + a') - Mul(g, b + b') - Mul(o, c + c')
         == (a - Mul(g, b) - Mul(o, c)) + (a' - Mul(g, b') - Mul(o, c'))
  {
    Distribute(g, b, b');
    Distribute(o, c, c');
    hide Mul;
  }

  lemma {:induction false} TangentAt(l: Line, m: Line, x: real, y: real)
    ensures var dg, d := m.gain - l.gain, m.offset - l.offset;
            SquareOff(m, x, y) >=
              SquareOff(l, x, y)
                - 2.0 * (Mul(dg, Mul(x, y) - Mul(l.gain, Mul(x, x)) - Mul(l.offset, x)) + Mul(d, Off(l, x, y)))
  {
    var dg, d, r := m.gain - l.gain, m.offset - l.offset, Off(l, x, y);
    var q := Mul(dg, x) + d;
    LineMoved(l, m, x, y);
    SquareOfDifference(r, q);
    SquareSign(q);
    Distribute(r, Mul(dg, x), d);
    CrossMoment(l, dg, x, y);
    Associate(r, d, d);
    hide Mul, Off;
  }

  lemma {:induction false} LineMoved(l: Line, m: Line, x: real, y: real)
    ensures Off(m, x, y) == Off(l, x, y) - (Mul(m.gain - l.gain, x) + (m.offset - l.offset))
  {
    Distribute(x, m.gain - l.gain, l.gain);
  }

  lemma {:induction false} CrossMoment(l: Line, dg: real, x: real, y: real)
    ensures Mul(Mul(dg, x), Off(l, x, y)) == Mul(dg, Mul(x, y) - Mul(l.gain, Mul(x, x)) - Mul(l.offset, x))
  {
    var r := Off(l, x, y);
    Associate(dg, x, r);
    Distribute(x, y, -(Mul(l.gain, x) + l.offset));
    Distribute(x, Mul(l.gain, x), l.offset);
    Associate(l.gain, x, x);
    Associate(l.offset, x, x);
    Associate(x, Mul(l.gain, x), x);
    assert Mul(x, -(Mul(l.gain, x) + l.offset)) == -Mul(x, Mul(l.gain, x) + l.offset);
    hide Mul;
    assert r == y + -(Mul(l.gain, x) + l.offset) by { assert Off(l, x, y) == y - (Mul(l.gain, x) + l.offset); }
  }

  /** The spread the code tests is the scatter about the mean, scaled by the count. */
  lemma {:induction false} SpreadIsScatter(xs: seq<real>, ys: seq<real>, keep: seq<bool>)
    requires Enough(xs, ys, keep)
    ensures var s := SumsOver(xs, ys, keep, |xs|);
            && Mul(s.n, ScatterOver(xs, keep, s.x / s.n, |xs|)) == Mul(s.n, s.xx) - Mul(s.x, s.x)
            && ScatterOver(xs, keep, 0.0, |xs|) == s.xx
  {
    var s := SumsOver(xs, ys, keep, |xs|);
    var m := s.x / s.n;
    ScatterFromSums(xs, ys, keep, m, |xs|);
    ScatterFromSums(xs, ys, keep, 0.0, |xs|);
    MeanScatter(s.n, s.x, s.xx, m);
    assert Mul(0.0, s.x) == 0.0 && Mul(Mul(0.0, 0.0), s.n) == 0.0;
    hide Mul;
  }

  lemma {:induction false} MeanScatter(n: real, x: real, xx: real, m: real)
    requires n > 0.0 && m == x / n
    ensures Mul(n, xx - 2.0 * Mul(m, x) + Mul(Mul(m, m), n)) == Mul(n, xx) - Mul(x, x)
  {
    assert m * n == x;
    assert n * (m * x) == x * x;
    assert (m * m) * n == m * x;
    assert n * (xx - 2.0 * (m * x) + (m * m) * n) == n * xx - 2.0 * (n * (m * x)) + n * ((m * m) * n);
  }

  /** Scatter is least about the mean, so one look at it tells whether the x vary. */
  lemma {:induction false} VariedAtMean(xs: seq<real>, ys: seq<real>, keep: seq<bool>)
    requires Enough(xs, ys, keep)
    ensures var s := SumsOver(xs, ys, keep, |xs|);
            Varied(xs, keep) <==> Mul(s.n, s.xx) - Mul(s.x, s.x) > Mul(s.n, s.xx) * FLAT
  {
    var s := SumsOver(xs, ys, keep, |xs|);
    var mean := s.x / s.n;
    SpreadIsScatter(xs, ys, keep);
    var least, squares := ScatterOver(xs, keep, mean, |xs|), ScatterOver(xs, keep, 0.0, |xs|);
    forall m: real ensures ScatterOver(xs, keep, m, |xs|) >= least {
      ScatterFromSums(xs, ys, keep, m, |xs|);
      ScatterFromSums(xs, ys, keep, mean, |xs|);
      MeanIsLeast(s.n, s.x, s.xx, mean, m);
    }
    assert Varied(xs, keep) <==> least > FLAT * squares;
    ScaledOrder(s.n, least, squares);
    hide Mul, SumsOver, ScatterOver, Varied;
  }

  lemma {:induction false} MeanIsLeast(n: real, x: real, xx: real, mean: real, m: real)
    requires n > 0.0 && mean == x / n
    ensures xx - 2.0 * Mul(m, x) + Mul(Mul(m, m), n) >= xx - 2.0 * Mul(mean, x) + Mul(Mul(mean, mean), n)
  {
    var d := m - mean;
    assert mean * n == x;
    assert m * x == mean * x + d * x;
    assert (m * m) * n == (mean * mean) * n + 2.0 * (d * (mean * n)) + (d * d) * n;
    SquareSign(d);
    MulSign(n, Mul(d, d));
    assert (d * d) * n == Mul(n, Mul(d, d));
  }

  lemma {:induction false} ScaledOrder(n: real, a: real, b: real)
    requires n > 0.0
    ensures a > FLAT * b <==> Mul(n, a) > Mul(n, b) * FLAT
  {
    assert Mul(n, FLAT * b) == Mul(n, b) * FLAT;
    if a > FLAT * b { MulMore(n, FLAT * b, a); } else { MulGrowsIn(n, a, FLAT * b); }
  }

  lemma {:induction false} MulMore(n: real, a: real, b: real)
    requires n > 0.0 && a < b
    ensures Mul(n, a) < Mul(n, b)
  {
    Distribute(n, a, b - a);
    MulPositive(n, b - a);
    hide Mul;
  }

  /** The two normal equations. */
  lemma {:induction false} NormalEquations(s: Sums, denom: real, l: Line)
    requires s.n > 0.0 && denom == Mul(s.n, s.xx) - Mul(s.x, s.x) && denom != 0.0
    requires l.gain == (Mul(s.n, s.xy) - Mul(s.x, s.y)) / denom && l.offset == (s.y - Mul(l.gain, s.x)) / s.n
    ensures s.y - Mul(l.gain, s.x) - Mul(l.offset, s.n) == 0.0
    ensures s.xy - Mul(l.gain, s.xx) - Mul(l.offset, s.x) == 0.0
  {
    var g, o, n := l.gain, l.offset, s.n;
    assert o * n == s.y - g * s.x;
    assert g * denom == n * s.xy - s.x * s.y;
    var e := s.xy - g * s.xx - o * s.x;
    assert n * e == n * s.xy - g * (n * s.xx) - (o * n) * s.x;
    assert (o * n) * s.x == s.y * s.x - g * (s.x * s.x);
    assert g * denom == g * (n * s.xx) - g * (s.x * s.x);
    assert n * e == 0.0;
  }

  /** The line of a round is fitted to the pairs it was computed from. */
  lemma {:induction false} LineIsFitted(xs: seq<real>, ys: seq<real>, keep: seq<bool>)
    requires Enough(xs, ys, keep)
    ensures IsFitted(xs, ys, keep, LineOf(SumsOver(xs, ys, keep, |xs|)))
  {
    var s := SumsOver(xs, ys, keep, |xs|);
    var l := LineOf(s);
    VariedAtMean(xs, ys, keep);
    if Varied(xs, keep) {
      SquaresNonNegative(xs, ys, keep);
      NormalEquations(s, Mul(s.n, s.xx) - Mul(s.x, s.x), l);
      forall m: Line ensures SquaresOver(xs, ys, keep, l, |xs|) <= SquaresOver(xs, ys, keep, m, |xs|) {
        Tangent(xs, ys, keep, l, m, |xs|);
        assert Mul(m.gain - l.gain, 0.0) == 0.0 && Mul(m.offset - l.offset, 0.0) == 0.0;
      }
    } else {
      OffsFromSums(xs, ys, keep, l, |xs|);
      MeanBack(s.y - s.x, s.n);
      assert Mul(1.0, s.x) == s.x;
    }
  }

  lemma {:induction false} MeanBack(a: real, n: real)
    requires n != 0.0
    ensures Mul(a / n, n) == a
  {
  }

  lemma {:induction false} SquaresNonNegative(xs: seq<real>, ys: seq<real>, keep: seq<bool>)
    requires Enough(xs, ys, keep)
    ensures var s := SumsOver(xs, ys, keep, |xs|); s.xx >= 0.0 && Mul(s.n, s.xx) * FLAT >= 0.0
  {
    SpreadIsScatter(xs, ys, keep);
    var s := SumsOver(xs, ys, keep, |xs|);
    MulSign(s.n, s.xx);
    hide Mul, SumsOver, ScatterOver;
  }

  /** Kept next: the pairs whose squared residual is at most 6.25 times the mean one, or whose residual is within
      the floor. */
  ghost predicate IsClip(xs: seq<real>, ys: seq<real>, keep: seq<bool>, l: Line, next: seq<bool>) {
    && |xs| == |ys| == |keep| == |next|
    && forall i :: 0 <= i < |xs| ==>
         (next[i] <==>
            || Mul(SumsOver(xs, ys, keep, |xs|).n, Mul(Off(l, xs[i], ys[i]), Off(l, xs[i], ys[i])))
                 <= 6.25 * SquaresOver(xs, ys, keep, l, |xs|)
            || -0.0000001 <= Off(l, xs[i], ys[i]) <= 0.0000001)
  }

  lemma {:induction false} NearIff(squares: real, n: real, r: real)
    requires n > 0.0
    ensures Mul(r, r) <= Threshold(squares, n) <==>
              Mul(n, Mul(r, r)) <= 6.25 * squares || -0.0000001 <= r <= 0.0000001
  {
    var t := CLIP_SQUARED * (squares / n);
    ThresholdScales(squares, n);
    if Mul(r, r) <= t { MulGrowsIn(n, Mul(r, r), t); } else { MulMore(n, t, Mul(r, r)); }
    WithinFloor(r);
    hide Mul;
  }

  lemma {:induction false} WithinFloor(r: real)
    ensures Mul(r, r) <= CLIP_FLOOR_SQUARED <==> -0.0000001 <= r <= 0.0000001
  {
    var f := 0.0000001;
    assert CLIP_FLOOR_SQUARED == f * f;
    assert f * f - r * r == (f - r) * (f + r);
    if -f <= r <= f {
      MulSign(f - r, f + r);
    } else if r > f {
      MulPositive(r - f, f + r);
      assert (f - r) * (f + r) == -Mul(r - f, f + r);
    } else {
      MulPositive(f - r, -f - r);
      assert (f - r) * (f + r) == -Mul(f - r, -f - r);
    }
  }

  lemma {:induction false} ClipIsClip(xs: seq<real>, ys: seq<real>, keep: seq<bool>)
    requires Enough(xs, ys, keep)
    ensures IsClip(xs, ys, keep, LineOf(SumsOver(xs, ys, keep, |xs|)), Clip(xs, ys, keep))
  {
    var s, next := SumsOver(xs, ys, keep, |xs|), Clip(xs, ys, keep);
    var l := LineOf(s);
    var squares := SquaresOver(xs, ys, keep, l, |xs|);
    forall i | 0 <= i < |xs|
      ensures next[i] <==>
                || Mul(s.n, Mul(Off(l, xs[i], ys[i]), Off(l, xs[i], ys[i]))) <= 6.25 * squares
                || -0.0000001 <= Off(l, xs[i], ys[i]) <= 0.0000001
    {
      NearIff(squares, s.n, Off(l, xs[i], ys[i]));
    }
    hide Threshold, Mul, Off, LineOf, SumsOver, SquaresOver;
  }

  /** The clip rounds as the code promises them: every pair kept at first, then twice a line fitted to the kept pairs
      and the pairs near it kept, far or near before; the sums reported are those of the pairs kept last. */
  ghost predicate AreRounds(xs: seq<real>, ys: seq<real>, keeps: seq<seq<bool>>, lines: seq<Line>, stats: Sums) {
    && |keeps| == FIT_ROUNDS && |lines| == FIT_ROUNDS - 1 && |xs| == |ys|
    && (forall r :: 0 <= r < FIT_ROUNDS ==> |keeps[r]| == |xs|)
    && AreAll(keeps[0])
    && (forall r :: 0 <= r < FIT_ROUNDS - 1 ==>
          IsFitted(xs, ys, keeps[r], lines[r]) && IsClip(xs, ys, keeps[r], lines[r], keeps[r + 1]))
    && stats == SumsOver(xs, ys, keeps[FIT_ROUNDS - 1], |xs|)
  }

  // ---------------------------------------------------------------- a round drops less than a sixth

  /** How many of the first `hi` kept pairs are further from the line than the threshold. */
  ghost function Dropped(xs: seq<real>, ys: seq<real>, keep: seq<bool>, l: Line, t: real, hi: nat): (d: nat)
    requires hi <= |xs| == |ys| == |keep|
  {
    if hi == 0 then 0
    else Dropped(xs, ys, keep, l, t, hi - 1) + if keep[hi - 1] && SquareOff(l, xs[hi - 1], ys[hi - 1]) > t then 1 else 0
  }

  /** The dropped pairs alone account for more than their number times the threshold. */
  lemma {:induction false} DroppedWeigh(xs: seq<real>, ys: seq<real>, keep: seq<bool>, l: Line, t: real, hi: nat)
    requires hi <= |xs| == |ys| == |keep| && t > 0.0
    ensures var d := Dropped(xs, ys, keep, l, t, hi);
            Mul(d as real, t) <= SquaresOver(xs, ys, keep, l, hi)
                && (d > 0 ==> Mul(d as real, t) < SquaresOver(xs, ys, keep, l, hi))
  {
    if hi == 0 {
      assert Mul(0.0, t) == 0.0;
    } else {
      DroppedWeigh(xs, ys, keep, l, t, hi - 1);
      OneMoreTime(Dropped(xs, ys, keep, l, t, hi - 1), t);
      hide Mul, SquareOff;
    }
  }

  lemma {:induction false} OneMoreTime(d: nat, t: real)
    ensures Mul((d + 1) as real, t) == Mul(d as real, t) + t
  {
    var r := d as real;
    assert (r + 1.0) * t == r * t + t;
  }

  /** What is kept next is at least what was kept and not dropped. */
  lemma {:induction false} KeptAfter(xs: seq<real>, ys: seq<real>, keep: seq<bool>, next: seq<bool>, l: Line, t: real,
                                     hi: nat)
    requires hi <= |xs| == |ys| == |keep| == |next|
    requires forall i :: 0 <= i < |xs| ==> next[i] == (SquareOff(l, xs[i], ys[i]) <= t)
    ensures SumsOver(xs, ys, next, hi).n >= SumsOver(xs, ys, keep, hi).n - Dropped(xs, ys, keep, l, t, hi) as real
  {
    hide SquareOff;
    if hi > 0 { KeptAfter(xs, ys, keep, next, l, t, hi - 1); }
  }

  lemma {:induction false} FewDropped(n: real, d: nat, t: real, squares: real)
    requires n > 0.0 && t > 0.0 && Mul(n, t) >= CLIP_SQUARED * squares && d > 0 && Mul(d as real, t) < squares
    ensures CLIP_SQUARED * (d as real) < n
  {
    var r := d as real;
    if n <= CLIP_SQUARED * r { ManyDropped(n, r, t); }
  }

  lemma {:induction false} ManyDropped(n: real, r: real, t: real)
    requires n <= CLIP_SQUARED * r && t > 0.0
    ensures Mul(n, t) <= CLIP_SQUARED * Mul(r, t)
  {
    MulGrowsIn(t, n, CLIP_SQUARED * r);
    Associate(t, n, n);
    Associate(t, CLIP_SQUARED * r, n);
    assert Mul(CLIP_SQUARED * r, t) == CLIP_SQUARED * Mul(r, t);
  }

  /** A round keeps more than 84 hundredths of what it had. */
  lemma {:induction false} ClipKeeps(xs: seq<real>, ys: seq<real>, keep: seq<bool>)
    requires Enough(xs, ys, keep)
    ensures SumsOver(xs, ys, Clip(xs, ys, keep), |xs|).n >= 0.84 * SumsOver(xs, ys, keep, |xs|).n
    ensures Enough(xs, ys, Clip(xs, ys, keep))
  {
    var s, next := SumsOver(xs, ys, keep, |xs|), Clip(xs, ys, keep);
    var l := LineOf(s);
    var squares := SquaresOver(xs, ys, keep, l, |xs|);
    var t := Threshold(squares, s.n);
    var d := Dropped(xs, ys, keep, l, t, |xs|);
    KeptAfter(xs, ys, keep, next, l, t, |xs|);
    DroppedWeigh(xs, ys, keep, l, t, |xs|);
    if d > 0 { FewDropped(s.n, d, t, squares); }
    var whole := WholeCount(xs, ys, next, |xs|);
    hide SumsOver, Clip, LineOf, SquaresOver, Threshold, Dropped;
  }

  lemma {:induction false} WholeCount(xs: seq<real>, ys: seq<real>, keep: seq<bool>, hi: nat) returns (n: nat)
    requires hi <= |xs| == |ys| == |keep|
    ensures SumsOver(xs, ys, keep, hi).n == n as real
  {
    if hi == 0 {
      n := 0;
    } else {
      n := WholeCount(xs, ys, keep, hi - 1);
      if keep[hi - 1] { n := n + 1; }
    }
  }

  lemma {:induction false} AllCount(xs: seq<real>, ys: seq<real>, keep: seq<bool>, hi: nat)
    requires hi <= |xs| == |ys| == |keep| && AreAll(keep)
    ensures SumsOver(xs, ys, keep, hi).n == hi as real
  {
    if hi > 0 { AllCount(xs, ys, keep, hi - 1); }
  }

  /** The pairs kept in round `r`. */
  ghost function Rounds(xs: seq<real>, ys: seq<real>, r: nat): (keep: seq<bool>)
    requires 2 <= |xs| == |ys|
    ensures Enough(xs, ys, keep)
  {
    if r == 0 then AllCount(xs, ys, All(|xs|), |xs|); All(|xs|)
    else ClipKeeps(xs, ys, Rounds(xs, ys, r - 1)); Clip(xs, ys, Rounds(xs, ys, r - 1))
  }

  /** The sums an edge fit reports: those of the last round, nothing for fewer than two pairs. */
  ghost function Reported(xs: seq<real>, ys: seq<real>): Sums
    requires |xs| == |ys|
  {
    if |xs| < 2 then NOTHING else SumsOver(xs, ys, Rounds(xs, ys, FIT_ROUNDS - 1), |xs|)
  }

  /** The over-clipped exit is never taken once two pairs are shared, and more than seven tenths of them are in the
      sums reported. */
  lemma {:induction false} MostSurvive(xs: seq<real>, ys: seq<real>)
    requires 2 <= |xs| == |ys|
    ensures Reported(xs, ys).n >= 2.0 && Reported(xs, ys).n >= 0.7056 * |xs| as real
  {
    AllCount(xs, ys, All(|xs|), |xs|);
    ClipKeeps(xs, ys, Rounds(xs, ys, 0));
    ClipKeeps(xs, ys, Rounds(xs, ys, 1));
    hide Clip, SumsOver;
    assert Rounds(xs, ys, 1) == Clip(xs, ys, Rounds(xs, ys, 0));
    assert Rounds(xs, ys, 2) == Clip(xs, ys, Rounds(xs, ys, 1));
  }

  /** What the rounds report, told without the formula of the line. */
  lemma {:induction false} ReportedRounds(xs: seq<real>, ys: seq<real>)
    returns (keeps: seq<seq<bool>>, lines: seq<Line>)
    requires 2 <= |xs| == |ys|
    ensures AreRounds(xs, ys, keeps, lines, Reported(xs, ys))
  {
    keeps := [Rounds(xs, ys, 0), Rounds(xs, ys, 1), Rounds(xs, ys, 2)];
    lines := [LineOf(SumsOver(xs, ys, keeps[0], |xs|)), LineOf(SumsOver(xs, ys, keeps[1], |xs|))];
    LineIsFitted(xs, ys, keeps[0]);
    LineIsFitted(xs, ys, keeps[1]);
    ClipIsClip(xs, ys, keeps[0]);
    ClipIsClip(xs, ys, keeps[1]);
    hide SumsOver, LineOf, IsFitted, IsClip, Clip;
  }

  /** What a fit reports of its pairs. */
  ghost predicate IsReport(xs: seq<real>, ys: seq<real>, stats: Sums) {
    && |xs| == |ys| && stats == Reported(xs, ys)
    && (|xs| < 2 ==> stats == NOTHING)
    && (|xs| >= 2 ==> exists keeps, lines :: AreRounds(xs, ys, keeps, lines, stats))
  }

  lemma {:induction false} ReportedIsReport(xs: seq<real>, ys: seq<real>)
    requires |xs| == |ys|
    ensures IsReport(xs, ys, Reported(xs, ys))
  {
    hide Reported, AreRounds;
    if |xs| >= 2 {
      var keeps, lines := ReportedRounds(xs, ys);
    } else {
      FewReported(xs, ys);
    }
  }

  lemma {:induction false} FewReported(xs: seq<real>, ys: seq<real>)
    requires |xs| == |ys| < 2
    ensures Reported(xs, ys) == NOTHING
  {
  }

  // ---------------------------------------------------------------- the loops

  method SumUp(xs: seq<real>, ys: seq<real>, keep: array<bool>) returns (s: Sums)
    requires |xs| == |ys| == keep.Length
    ensures s == SumsOver(xs, ys, keep[..], |xs|)
  {
    s := NOTHING;
    for i := 0 to |xs|
      invariant s == SumsOver(xs, ys, keep[..], i)
    {
      if keep[i] {
        s := Plus(s, xs[i], ys[i]);
      }
    }
  }

  method SquareUp(xs: seq<real>, ys: seq<real>, keep: array<bool>, l: Line) returns (sq: real)
    requires |xs| == |ys| == keep.Length
    ensures sq == SquaresOver(xs, ys, keep[..], l, |xs|)
  {
    sq := 0.0;
    for i := 0 to |xs|
      invariant sq == SquaresOver(xs, ys, keep[..], l, i)
    {
      if keep[i] {
        sq := sq + SquareOff(l, xs[i], ys[i]);
      }
    }
  }

  /** Keep the pairs within the threshold of the line, whether kept before or not. */
  method KeepNear(xs: seq<real>, ys: seq<real>, keep: array<bool>, l: Line, t: real)
    requires |xs| == |ys| == keep.Length
    modifies keep
    ensures forall i :: 0 <= i < |xs| ==> keep[i] == (SquareOff(l, xs[i], ys[i]) <= t)
  {
    for i := 0 to |xs|
      invariant forall j :: 0 <= j < i ==> keep[j] == (SquareOff(l, xs[j], ys[j]) <= t)
    {
      keep[i] := SquareOff(l, xs[i], ys[i]) <= t;
    }
  }

  /** The sums of the last round that had two pairs. */
  method FitSums(xs: seq<real>, ys: seq<real>) returns (stats: Sums)
    requires |xs| == |ys|
    ensures IsReport(xs, ys, stats)
  {
    ReportedIsReport(xs, ys);
    hide IsReport, SumsOver, SquaresOver, LineOf, SquareOff, Threshold, AreAll;
    var keep := new bool[|xs|](_ => true);
    assert keep[..] == All(|xs|);
    stats := NOTHING;
    var round, done := 0, false;
    AllCount(xs, ys, keep[..], |xs|);
    while round < FIT_ROUNDS && !done
      invariant round <= FIT_ROUNDS
      invariant |xs| < 2 ==> round == 0 && stats == NOTHING && keep[..] == All(|xs|)
      invariant |xs| >= 2 ==> !done
      invariant |xs| >= 2 && round < FIT_ROUNDS ==> keep[..] == Rounds(xs, ys, round)
      invariant |xs| >= 2 && round > 0 ==> stats == SumsOver(xs, ys, Rounds(xs, ys, round - 1), |xs|)
      decreases FIT_ROUNDS - round, !done
    {
      var s := SumUp(xs, ys, keep);
      if s.n < 2.0 {
        done := true;
      } else {
        var l := LineOf(s);
        var sq := SquareUp(xs, ys, keep, l);
        stats := s;
        if round + 1 < FIT_ROUNDS {
          ghost var K := keep[..];
          KeepNear(xs, ys, keep, l, Threshold(sq, s.n));
          assert keep[..] == Clip(xs, ys, K);
        }
        round := round + 1;
      }
    }
  }
}
