/** What a cell of the scan's summary means: a true share of covered pixels, a mean between the pixels' own values, and
    the mean squared deviation from it (crates/mmm-core/src/analyze.rs, `scan_reader`). */
module BlockLaws {
  import opened Naturals
  import opened Reals
  import opened ScanPanel
  import opened Tally

  // ---------------------------------------------------------------- coverage

  /** Every pixel of columns [a, b) of the row is covered. */
  ghost predicate RowFull(l: Line, a: int, b: int) {
    forall x :: a <= x < b ==> Covered(l, x)
  }

  ghost predicate BlockFull(lines: seq<Line>, ya: nat, yb: nat, a: int, b: int)
    requires yb <= |lines|
  {
    forall y :: ya <= y < yb ==> RowFull(lines[y], a, b)
  }

  lemma {:induction false} RowCount(l: Line, a: int, b: int)
    requires a <= b
    ensures 0.0 <= RowTotal(Count, l, a, b) <= (b - a) as real
    ensures RowTotal(Count, l, a, b) == (b - a) as real <==> RowFull(l, a, b)
    decreases b - a
  {
    hide Covered;
    if a < b {
      RowCount(l, a, b - 1);
      assert RowFull(l, a, b) <==> RowFull(l, a, b - 1) && Covered(l, b - 1);
    }
  }

  lemma {:induction false} BlockCount(lines: seq<Line>, ya: nat, yb: nat, a: int, b: int)
    requires ya <= yb <= |lines| && a < b
    ensures 0.0 <= BlockTotal(Count, lines, ya, yb, a, b) <= Product(b - a, yb - ya) as real
    ensures BlockTotal(Count, lines, ya, yb, a, b) == Product(b - a, yb - ya) as real <==>
              BlockFull(lines, ya, yb, a, b)
    decreases yb
  {
    hide RowTotal, RowFull;
    if ya < yb {
      BlockCount(lines, ya, yb - 1, a, b);
      RowCount(lines[yb - 1], a, b);
      assert (b - a) * (yb - ya) == (b - a) * (yb - 1 - ya) + (b - a);
      assert BlockFull(lines, ya, yb, a, b) <==> BlockFull(lines, ya, yb - 1, a, b) && RowFull(lines[yb - 1], a, b);
    }
  }

  /** Columns past the canvas count nothing. */
  lemma {:induction false} ClippedCount(lines: seq<Line>, ya: nat, yb: nat, a: int, b: int, w: nat, ch: nat)
    requires yb <= |lines| && forall y :: 0 <= y < |lines| ==> LineOk(lines[y], w, ch)
    ensures BlockTotal(Count, lines, ya, yb, a, b) == BlockTotal(Count, lines, ya, yb, a, Min(b, w))
    decreases yb
  {
    hide RowTotal;
    if ya < yb {
      ClippedCount(lines, ya, yb - 1, a, b, w, ch);
      NothingBehind(Count, lines[yb - 1], a, b, w);
    }
  }

  /** A cell's coverage is a share of its pixels on the canvas, and one exactly when all of them are covered: also on
      the last column and row of cells, where fewer than eight pixels are left. */
  lemma {:induction false} CoverageIsShare(lines: seq<Line>, w: nat, ch: nat, x8: nat, y8: nat)
    requires BLOCK * x8 < w && BLOCK * y8 < |lines|
    requires forall y :: 0 <= y < |lines| ==> LineOk(lines[y], w, ch)
    ensures 0.0 <= CoverageOf(lines, w, x8, y8) <= 1.0
    ensures CoverageOf(lines, w, x8, y8) == 1.0 <==>
              forall x: nat, y: nat ::
                8 * x8 <= x < 8 * x8 + 8 && x < w && 8 * y8 <= y < 8 * y8 + 8 && y < |lines| ==> Covered(lines[y], x)
  {
    FullBlock(lines, w, x8, y8);
    var ya, yb, a, b := RowOfBlock(y8, |lines|), RowOfBlock(y8 + 1, |lines|), BLOCK * x8, Min(BLOCK * x8 + BLOCK, w);
    ClippedCount(lines, ya, yb, a, BLOCK * x8 + BLOCK, w, ch);
    ExtentIs(w, x8);
    ExtentIs(|lines|, y8);
    BlockCount(lines, ya, yb, a, b);
    var pixels := Product(b - a, yb - ya);
    PositiveProduct(b - a, yb - ya);
    ShareOfAll(BlockTotal(Count, lines, ya, yb, a, b), pixels);
    hide BlockTotal, BlockFull, Covered, Extent, RowOfBlock, LineOk;
    assert CoverageOf(lines, w, x8, y8) == Share(InBlock(Count, lines, x8, y8), pixels);
  }

  /** The extent of a cell is the number of its columns or rows on the canvas. */
  lemma {:induction false} ExtentIs(n: nat, k: nat)
    requires BLOCK * k < n
    ensures RowOfBlock(k, n) == BLOCK * k && RowOfBlock(k + 1, n) == Min(BLOCK * k + BLOCK, n)
    ensures Extent(n, k) == Min(BLOCK * k + BLOCK, n) - BLOCK * k > 0
  {
  }

  lemma {:induction false} PositiveProduct(a: nat, b: nat)
    requires a > 0 && b > 0
    ensures Product(a, b) > 0
  {
  }

  lemma {:induction false} ShareOfAll(n: real, pixels: nat)
    requires pixels > 0 && 0.0 <= n <= pixels as real
    ensures 0.0 <= Share(n, pixels) <= 1.0 && (Share(n, pixels) == 1.0 <==> n == pixels as real)
  {
    var p, q := pixels as real, Share(n, pixels);
    assert n == q * p;
    if q == 1.0 { assert n == 1.0 * p; }
  }

  lemma {:induction false} FullBlock(lines: seq<Line>, w: nat, x8: nat, y8: nat)
    requires BLOCK * x8 < w && BLOCK * y8 < |lines|
    ensures BlockFull(lines, RowOfBlock(y8, |lines|), RowOfBlock(y8 + 1, |lines|), BLOCK * x8,
                      Min(BLOCK * x8 + BLOCK, w))
       <==> forall x: nat, y: nat ::
              8 * x8 <= x < 8 * x8 + 8 && x < w && 8 * y8 <= y < 8 * y8 + 8 && y < |lines| ==> Covered(lines[y], x)
  {
    hide Covered;
    var ya, yb, a, b := RowOfBlock(y8, |lines|), RowOfBlock(y8 + 1, |lines|), BLOCK * x8, Min(BLOCK * x8 + BLOCK, w);
    if BlockFull(lines, ya, yb, a, b) {
      forall x: nat, y: nat | 8 * x8 <= x < 8 * x8 + 8 && x < w && 8 * y8 <= y < 8 * y8 + 8 && y < |lines|
        ensures Covered(lines[y], x)
      {
        assert RowFull(lines[y], a, b);
      }
    }
  }

  // ---------------------------------------------------------------- mean

  /** Covered samples of channel `c` in columns [a, b) of the row lie between `lo` and `hi`. */
  ghost predicate RowBetween(l: Line, c: nat, a: int, b: int, lo: real, hi: real) {
    forall x :: a <= x < b && Covered(l, x) ==> lo <= Sample(l, c, x) <= hi
  }

  lemma {:induction false} RowSumBetween(l: Line, c: nat, a: int, b: int, lo: real, hi: real)
    requires RowBetween(l, c, a, b, lo, hi)
    ensures Mul(lo, RowTotal(Count, l, a, b)) <= RowTotal(Sum(c), l, a, b) <= Mul(hi, RowTotal(Count, l, a, b))
    decreases b - a
  {
    if a < b {
      RowSumBetween(l, c, a, b - 1, lo, hi);
      var n := RowTotal(Count, l, a, b - 1);
      Distribute(lo, n, At(Count, l, b - 1));
      Distribute(hi, n, At(Count, l, b - 1));
      UnitZero(lo);
      UnitZero(hi);
      hide Mul, Covered, Sample;
    } else {
      UnitZero(lo);
      UnitZero(hi);
    }
  }

  lemma {:induction false} UnitZero(v: real)
    ensures Mul(v, 0.0) == 0.0 && Mul(v, 1.0) == v && Mul(0.0, v) == 0.0
  {
  }

  lemma {:induction false} BlockSumBetween(lines: seq<Line>, c: nat, ya: nat, yb: nat, a: int, b: int, lo: real,
                                           hi: real)
    requires yb <= |lines| && forall y :: ya <= y < yb ==> RowBetween(lines[y], c, a, b, lo, hi)
    ensures var n := BlockTotal(Count, lines, ya, yb, a, b);
            Mul(lo, n) <= BlockTotal(Sum(c), lines, ya, yb, a, b) <= Mul(hi, n)
    decreases yb
  {
    hide RowTotal, RowBetween;
    UnitZero(lo);
    UnitZero(hi);
    if ya < yb {
      BlockSumBetween(lines, c, ya, yb - 1, a, b, lo, hi);
      RowSumBetween(lines[yb - 1], c, a, b, lo, hi);
      var n, m := BlockTotal(Count, lines, ya, yb - 1, a, b), RowTotal(Count, lines[yb - 1], a, b);
      Distribute(lo, n, m);
      Distribute(hi, n, m);
      hide Mul;
    }
  }

  /** The mean of a cell with a covered pixel lies between any bounds of its covered samples. */
  lemma {:induction false} MeanIsBetween(lines: seq<Line>, x8: nat, y8: nat, c: nat, lo: real, hi: real)
    requires InBlock(Count, lines, x8, y8) > 0.0
    requires forall y :: RowOfBlock(y8, |lines|) <= y < RowOfBlock(y8 + 1, |lines|) ==>
               RowBetween(lines[y], c, BLOCK * x8, BLOCK * x8 + BLOCK, lo, hi)
    ensures lo <= MeanOf(lines, x8, y8, c) <= hi
  {
    BlockSumBetween(lines, c, RowOfBlock(y8, |lines|), RowOfBlock(y8 + 1, |lines|), BLOCK * x8, BLOCK * x8 + BLOCK, lo,
                    hi);
    QuotientBetween(InBlock(Sum(c), lines, x8, y8), InBlock(Count, lines, x8, y8), lo, hi);
  }

  lemma {:induction false} QuotientBetween(s: real, n: real, lo: real, hi: real)
    requires n > 0.0 && Mul(lo, n) <= s <= Mul(hi, n)
    ensures lo <= s / n <= hi
  {
    var q := s / n;
    assert q * n == s;
    if q < lo { MulPositive(lo - q, n); }
    if q > hi { MulPositive(q - hi, n); }
  }

  // ---------------------------------------------------------------- detail

  /** Squared deviation from `m` of the covered samples of channel `c`. */
  ghost function RowDeviation(l: Line, c: nat, m: real, a: int, b: int): (d: real)
    ensures d >= 0.0
    decreases b - a
  {
    if b <= a then 0.0
    else
      SquareSign(Sample(l, c, b - 1) - m);
      RowDeviation(l, c, m, a, b - 1)
      + if Covered(l, b - 1) then Mul(Sample(l, c, b - 1) - m, Sample(l, c, b - 1) - m) else 0.0
  }

  ghost function BlockDeviation(lines: seq<Line>, c: nat, m: real, ya: nat, yb: nat, a: int, b: int): (d: real)
    requires yb <= |lines|
    ensures d >= 0.0
    decreases yb
  {
    if yb <= ya then 0.0
    else BlockDeviation(lines, c, m, ya, yb - 1, a, b) + RowDeviation(lines[yb - 1], c, m, a, b)
  }

  /** Deviations from the running sums. */
  ghost function FromSums(n: real, s: real, q: real, m: real): real {
    q - 2.0 * Mul(m, s) + Mul(Mul(m, m), n)
  }

  lemma {:induction false} SumsAdd(n: real, s: real, q: real, n': real, s': real, q': real, m: real)
    ensures FromSums(n + n', s + s', q + q', m) == FromSums(n, s, q, m) + FromSums(n', s', q', m)
  {
    Distribute(m, s, s');
    Distribute(Mul(m, m), n, n');
    hide Mul;
  }

  lemma {:induction false} OneSample(v: real, m: real)
    ensures Mul(v - m, v - m) == FromSums(1.0, v, Mul(v, v), m)
    ensures FromSums(0.0, 0.0, 0.0, m) == 0.0
  {
    assert (v - m) * (v - m) == v * v - 2.0 * (m * v) + (m * m) * 1.0;
  }

  lemma {:induction false} RowDeviationIs(l: Line, c: nat, m: real, a: int, b: int)
    ensures RowDeviation(l, c, m, a, b)
         == FromSums(RowTotal(Count, l, a, b), RowTotal(Sum(c), l, a, b), RowTotal(Squares(c), l, a, b), m)
    decreases b - a
  {
    OneSample(Sample(l, c, b - 1), m);
    if a < b {
      RowDeviationIs(l, c, m, a, b - 1);
      SumsAdd(RowTotal(Count, l, a, b - 1), RowTotal(Sum(c), l, a, b - 1), RowTotal(Squares(c), l, a, b - 1),
              At(Count, l, b - 1), At(Sum(c), l, b - 1), At(Squares(c), l, b - 1), m);
      hide Mul, Covered, Sample, FromSums;
    }
  }

  lemma {:induction false} BlockDeviationIs(lines: seq<Line>, c: nat, m: real, ya: nat, yb: nat, a: int, b: int)
    requires yb <= |lines|
    ensures BlockDeviation(lines, c, m, ya, yb, a, b)
         == FromSums(BlockTotal(Count, lines, ya, yb, a, b), BlockTotal(Sum(c), lines, ya, yb, a, b),
                     BlockTotal(Squares(c), lines, ya, yb, a, b), m)
    decreases yb
  {
    OneSample(0.0, m);
    hide RowTotal, RowDeviation;
    if ya < yb {
      BlockDeviationIs(lines, c, m, ya, yb - 1, a, b);
      var l := lines[yb - 1];
      RowDeviationIs(l, c, m, a, b);
      SumsAdd(BlockTotal(Count, lines, ya, yb - 1, a, b), BlockTotal(Sum(c), lines, ya, yb - 1, a, b),
              BlockTotal(Squares(c), lines, ya, yb - 1, a, b),
              RowTotal(Count, l, a, b), RowTotal(Sum(c), l, a, b), RowTotal(Squares(c), l, a, b), m);
      hide FromSums;
    }
  }

  lemma {:induction false} AboutTheMean(n: real, s: real, q: real)
    requires n > 0.0
    ensures FromSums(n, s, q, s / n) / n == q / n - Mul(s / n, s / n)
  {
    var m := s / n;
    assert m * n == s;
    assert (m * m) * n == m * s;
    assert FromSums(n, s, q, m) == q - m * s;
    assert (m * s) / n == m * m;
  }

  /** Squared deviation of a cell's covered samples from its mean. */
  ghost function DeviationOf(lines: seq<Line>, x8: nat, y8: nat, c: nat): (d: real)
    ensures d >= 0.0
  {
    BlockDeviation(lines, c, MeanOf(lines, x8, y8, c), RowOfBlock(y8, |lines|), RowOfBlock(y8 + 1, |lines|),
                   BLOCK * x8, BLOCK * x8 + BLOCK)
  }

  /** The detail of a cell is the root of the mean squared deviation from its mean; the clamp at zero never acts. */
  lemma {:induction false} DetailIsDeviation(root: real -> real, lines: seq<Line>, x8: nat, y8: nat, c: nat)
    requires InBlock(Count, lines, x8, y8) > 0.0
    ensures DetailOf(root, lines, x8, y8, c) == root(DeviationOf(lines, x8, y8, c) / InBlock(Count, lines, x8, y8))
  {
    var n, s, q := InBlock(Count, lines, x8, y8), InBlock(Sum(c), lines, x8, y8), InBlock(Squares(c), lines, x8, y8);
    BlockDeviationIs(lines, c, s / n, RowOfBlock(y8, |lines|), RowOfBlock(y8 + 1, |lines|), BLOCK * x8,
                     BLOCK * x8 + BLOCK);
    AboutTheMean(n, s, q);
    var d := DeviationOf(lines, x8, y8, c);
    NonNegativeShare(d, n);
    assert d == FromSums(n, s, q, s / n);
    DetailValue(root, n, s, q, d / n);
    hide BlockTotal, BlockDeviation, FromSums, DetailFrom;
  }

  lemma {:induction false} DetailValue(root: real -> real, n: real, s: real, q: real, v: real)
    requires n > 0.0 && v >= 0.0 && v == q / n - Mul(s / n, s / n)
    ensures DetailFrom(root, n, s, q) == root(v)
  {
    hide Mul;
  }

  lemma {:induction false} NonNegativeShare(d: real, n: real)
    requires d >= 0.0 && n > 0.0
    ensures d / n >= 0.0
  {
  }
}
