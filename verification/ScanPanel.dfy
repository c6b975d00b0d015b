/** The scan of a whole panel: flushing cell rows into the summary, and the result against per-block
    definitions (crates/mmm-core/src/analyze.rs, `scan_reader`). */
module ScanPanel {
  import opened Grid
  import opened Naturals
  import opened Options
  import opened Reals
  import opened Scan
  import opened Tally
  import Bands
  import Indexing

  // ---------------------------------------------------------------- per-block definitions

  function Extent(n: nat, k: nat): nat
    requires BLOCK * k < n
  {
    if n - BLOCK * k < BLOCK then n - BLOCK * k else BLOCK
  }

  /** The measure over the pixels of cell (x8, y8). */
  ghost function InBlock(m: Measure, lines: seq<Line>, x8: nat, y8: nat): real {
    BlockTotal(m, lines, RowOfBlock(y8, |lines|), RowOfBlock(y8 + 1, |lines|), BLOCK * x8, BLOCK * x8 + BLOCK)
  }

  function Share(n: real, pixels: nat): real {
    if pixels > 0 then n / pixels as real else 0.0
  }

  function MeanFrom(n: real, s: real): real {
    if n > 0.0 then s / n else 0.0
  }

  function DetailFrom(root: real -> real, n: real, s: real, q: real): real {
    if n > 0.0 then
      var v := q / n - Mul(MeanFrom(n, s), MeanFrom(n, s));
      root(if v > 0.0 then v else 0.0)
    else 0.0
  }

  ghost function CoverageOf(lines: seq<Line>, w: nat, x8: nat, y8: nat): real
    requires BLOCK * x8 < w && BLOCK * y8 < |lines|
  {
    Share(InBlock(Count, lines, x8, y8), Extent(w, x8) * Extent(|lines|, y8))
  }

  ghost function MeanOf(lines: seq<Line>, x8: nat, y8: nat, c: nat): real {
    MeanFrom(InBlock(Count, lines, x8, y8), InBlock(Sum(c), lines, x8, y8))
  }

  ghost function DetailOf(root: real -> real, lines: seq<Line>, x8: nat, y8: nat, c: nat): real {
    DetailFrom(root, InBlock(Count, lines, x8, y8), InBlock(Sum(c), lines, x8, y8), InBlock(Squares(c), lines, x8, y8))
  }

  // ---------------------------------------------------------------- channel planes

  /** Cell (x, y) of channel `c` in a plane that stacks the channels. */
  ghost function Chan(p: seq<real>, w8: nat, h8: nat, ch: nat, x: int, c: int, y: int): real
    requires IsPlane(|p|, w8, Product(ch, h8)) && 0 <= x < w8 && 0 <= c < ch && 0 <= y < h8
  {
    Indexing.InBounds(h8, ch, y, c);
    Cell(p, w8, Product(ch, h8), x, c * h8 + y)
  }

  method WriteChan(p: array<real>, w8: nat, h8: nat, ch: nat, x: nat, c: nat, y: nat, v: real)
    requires IsPlane(p.Length, w8, Product(ch, h8)) && x < w8 && c < ch && y < h8
    modifies p
    ensures forall x', c', y' :: 0 <= x' < w8 && 0 <= c' < ch && 0 <= y' < h8 ==>
              Chan(p[..], w8, h8, ch, x', c', y') == if x' == x && c' == c && y' == y
                    then v else Chan(old(p[..]), w8, h8, ch, x', c', y')
  {
    hide IsPlane, Cell;
    Indexing.InBounds(h8, ch, y, c);
    ghost var P := p[..];
    Write(p, w8, Product(ch, h8), x, c * h8 + y, v);
    forall x', c', y' | 0 <= x' < w8 && 0 <= c' < ch && 0 <= y' < h8
      ensures Chan(p[..], w8, h8, ch, x', c', y') == if x' == x && c' == c && y' == y
                then v else Chan(P, w8, h8, ch, x', c', y')
    {
      Indexing.InBounds(h8, ch, y', c');
      if c' * h8 + y' == c * h8 + y { Indexing.Injective(h8, y, c, y', c'); }
    }
  }

  // ---------------------------------------------------------------- flushing

  /** The summary is done up to block row `j`, and zero from there on. */
  ghost predicate CoverageTo(p: seq<real>, w8: nat, h8: nat, w: nat, lines: seq<Line>, j: nat, k: nat) {
    && IsPlane(|p|, w8, h8) && (forall x8 :: 0 <= x8 < w8 ==> BLOCK * x8 < w)
       && (forall y8 :: 0 <= y8 < h8 ==> BLOCK * y8 < |lines|)
    && forall x8: nat, y8: nat :: x8 < w8 && y8 < h8 ==>
         Cell(p, w8, h8, x8, y8) == if y8 < j || (y8 == j && x8 < k) then CoverageOf(lines, w, x8, y8) else 0.0
  }

  ghost predicate MeansTo(p: seq<real>, w8: nat, h8: nat, ch: nat, lines: seq<Line>, j: nat, k: nat) {
    && IsPlane(|p|, w8, Product(ch, h8))
    && forall x8: nat, c: nat, y8: nat :: x8 < w8 && c < ch && y8 < h8 ==>
         Chan(p, w8, h8, ch, x8, c, y8) == if y8 < j || (y8 == j && x8 < k) then MeanOf(lines, x8, y8, c) else 0.0
  }

  ghost predicate DetailsTo(p: seq<real>, root: real -> real, w8: nat, h8: nat, ch: nat, lines: seq<Line>, j: nat,
                            k: nat) {
    && IsPlane(|p|, w8, Product(ch, h8))
    && forall x8: nat, c: nat, y8: nat :: x8 < w8 && c < ch && y8 < h8 ==>
         Chan(p, w8, h8, ch, x8, c, y8) == if y8 < j || (y8 == j && x8 < k)
               then DetailOf(root, lines, x8, y8, c) else 0.0
  }

  /** At the end of a block row the accumulators hold its blocks. */
  lemma {:induction false} FullBlock(cnt: seq<nat>, sum: seq<real>, sum2: seq<real>, w8: nat, ch: nat, lines: seq<Line>,
                                     y8: nat, k: nat)
    requires BLOCK * y8 < |lines| && k < w8
    requires Tallied(cnt, sum, sum2, w8, ch, lines, BLOCK * y8, RowOfBlock(y8 + 1, |lines|), 0)
    ensures cnt[k] as real == InBlock(Count, lines, k, y8)
    ensures forall c :: 0 <= c < ch ==> Cell(sum, w8, ch, k, c) == InBlock(Sum(c), lines, k, y8)
    ensures forall c :: 0 <= c < ch ==> Cell(sum2, w8, ch, k, c) == InBlock(Squares(c), lines, k, y8)
  {
    var y := RowOfBlock(y8 + 1, |lines|);
    forall m: Measure ensures Progress(m, lines, BLOCK * y8, y, 0, k) == InBlock(m, lines, k, y8) {
      if y < |lines| { NothingBefore(m, lines[y], BLOCK * k, 0); }
      hide BlockTotal, RowTotal;
    }
    hide Progress, InBlock, Cell, IsPlane;
  }

  /** Mean and detail of one covered cell. */
  method FlushMeans(mean: array<real>, detail: array<real>, sum: array<real>, sum2: array<real>, root: real -> real,
                    w8: nat, h8: nat, ch: nat, k: nat, y8: nat, n: nat)
    requires IsPlane(mean.Length, w8, Product(ch, h8)) && IsPlane(detail.Length, w8, Product(ch, h8))
    requires IsPlane(sum.Length, w8, ch) && IsPlane(sum2.Length, w8, ch)
    requires mean != detail && mean != sum && mean != sum2 && detail != sum && detail != sum2
    requires k < w8 && y8 < h8 && n > 0
    modifies mean, detail
    ensures forall x, c, y :: 0 <= x < w8 && 0 <= c < ch && 0 <= y < h8 ==>
              Chan(mean[..], w8, h8, ch, x, c, y) == if x == k && y == y8
                    then MeanFrom(n as real, Cell(sum[..], w8, ch, k, c))
                                                     else Chan(old(mean[..]), w8, h8, ch, x, c, y)
    ensures forall x, c, y :: 0 <= x < w8 && 0 <= c < ch && 0 <= y < h8 ==>
              Chan(detail[..], w8, h8, ch, x, c, y)
                == if x == k && y == y8 then DetailFrom(root, n as real, Cell(sum[..], w8, ch, k, c),
                                                        Cell(sum2[..], w8, ch, k, c))
                   else Chan(old(detail[..]), w8, h8, ch, x, c, y)
  {
    hide IsPlane, Cell, Chan, MeanFrom, DetailFrom;
    ghost var M, D, S, Q := mean[..], detail[..], sum[..], sum2[..];
    for c := 0 to ch
      invariant sum[..] == S && sum2[..] == Q
      invariant forall x, c', y :: 0 <= x < w8 && 0 <= c' < ch && 0 <= y < h8 ==>
                  Chan(mean[..], w8, h8, ch, x, c', y) == if x == k && y == y8 && c' < c
                        then MeanFrom(n as real, Cell(S, w8, ch, k, c'))
                                                          else Chan(M, w8, h8, ch, x, c', y)
      invariant forall x, c', y :: 0 <= x < w8 && 0 <= c' < ch && 0 <= y < h8 ==>
                  Chan(detail[..], w8, h8, ch, x, c', y)
                    == if x == k && y == y8 && c' < c then DetailFrom(root, n as real, Cell(S, w8, ch, k, c'),
                                                                      Cell(Q, w8, ch, k, c'))
                       else Chan(D, w8, h8, ch, x, c', y)
    {
      var s := Read(sum, w8, ch, k, c);
      var q := Read(sum2, w8, ch, k, c);
      ghost var D1 := detail[..];
      WriteChan(mean, w8, h8, ch, k, c, y8, MeanFrom(n as real, s));
      assert detail[..] == D1;
      ghost var M1 := mean[..];
      WriteChan(detail, w8, h8, ch, k, c, y8, DetailFrom(root, n as real, s, q));
      assert mean[..] == M1;
    }
  }

  /** Everything flushed so far is as the per-block definitions have it. */
  ghost predicate SummaryTo(coverage: seq<real>, mean: seq<real>, detail: seq<real>, root: real -> real,
                            w8: nat, h8: nat, w: nat, ch: nat, lines: seq<Line>, j: nat, k: nat) {
    && CoverageTo(coverage, w8, h8, w, lines, j, k)
    && MeansTo(mean, w8, h8, ch, lines, j, k) && DetailsTo(detail, root, w8, h8, ch, lines, j, k)
  }

  lemma {:induction false} Shares(lines: seq<Line>, w: nat, k: nat, y8: nat, n: nat)
    requires BLOCK * k < w && BLOCK * y8 < |lines| && n as real == InBlock(Count, lines, k, y8)
    ensures CoverageOf(lines, w, k, y8) == Share(n as real, Extent(w, k) * Extent(|lines|, y8))
  {
  }

  /** Flush one cell row. */
  method FlushRow(cnt: array<nat>, sum: array<real>, sum2: array<real>, coverage: array<real>, mean: array<real>,
                  detail: array<real>, root: real -> real, w: nat, w8: nat, h8: nat, ch: nat, lines: seq<Line>, y8: nat)
    requires sum != sum2 && coverage != mean && coverage != detail && mean != detail
    requires coverage != sum && coverage != sum2 && mean != sum && mean != sum2 && detail != sum && detail != sum2
    requires y8 < h8 && BLOCK * y8 < |lines|
    requires Tallied(cnt[..], sum[..], sum2[..], w8, ch, lines, BLOCK * y8, RowOfBlock(y8 + 1, |lines|), 0)
    requires SummaryTo(coverage[..], mean[..], detail[..], root, w8, h8, w, ch, lines, y8, 0)
    modifies coverage, mean, detail
    ensures SummaryTo(coverage[..], mean[..], detail[..], root, w8, h8, w, ch, lines, y8, w8)
  {
    hide IsPlane, Cell, Chan, Extent, Share, MeanFrom, DetailFrom, InBlock, Progress, CoverageOf;
    ghost var C, S, Q := cnt[..], sum[..], sum2[..];
    for k := 0 to w8
      invariant cnt[..] == C && sum[..] == S && sum2[..] == Q
      invariant SummaryTo(coverage[..], mean[..], detail[..], root, w8, h8, w, ch, lines, y8, k)
    {
      FullBlock(C, S, Q, w8, ch, lines, y8, k);
      var n := cnt[k];
      ghost var M, D := mean[..], detail[..];
      Shares(lines, w, k, y8, n);
      Write(coverage, w8, h8, k, y8, Share(n as real, Extent(w, k) * Extent(|lines|, y8)));
      ghost var P := coverage[..];
      assert mean[..] == M && detail[..] == D && sum[..] == S && sum2[..] == Q;
      if n > 0 {
        FlushMeans(mean, detail, sum, sum2, root, w8, h8, ch, k, y8, n);
        assert coverage[..] == P && sum[..] == S && sum2[..] == Q;
      } else {
        NothingCovered(root);
      }
    }
  }

  lemma {:induction false} NothingCovered(root: real -> real)
    ensures forall s :: MeanFrom(0.0, s) == 0.0
    ensures forall s, q :: DetailFrom(root, 0.0, s, q) == 0.0
  {
  }

  lemma {:induction false} SummaryTurns(coverage: seq<real>, mean: seq<real>, detail: seq<real>, root: real -> real,
                                        w8: nat, h8: nat, w: nat, ch: nat, lines: seq<Line>, j: nat)
    requires SummaryTo(coverage, mean, detail, root, w8, h8, w, ch, lines, j, w8)
    ensures SummaryTo(coverage, mean, detail, root, w8, h8, w, ch, lines, j + 1, 0)
  {
    hide IsPlane, Cell, Chan, CoverageOf, MeanOf, DetailOf;
  }

  function Blocks(n: nat): (b: nat)
    ensures n <= BLOCK * b < n + BLOCK
  {
    (n + BLOCK - 1) / BLOCK
  }

  // ---------------------------------------------------------------- the totals

  lemma {:induction false} CountsAreWhole(l: Line, a: int, b: int)
    ensures RowTotal(Count, l, a, b) >= 0.0
    ensures forall u: nat :: a <= u < b && Covered(l, u) ==> RowTotal(Count, l, a, b) >= 1.0
    ensures RowTotal(Count, l, a, b) > 0.0 ==> exists u: int :: a <= u < b && Covered(l, u)
    decreases b - a
  {
    hide Covered;
    if a < b {
      CountsAreWhole(l, a, b - 1);
      if Covered(l, b - 1) { assert a <= b - 1 < b; }
    }
  }

  /** The count is positive exactly when some pixel is covered. */
  lemma {:induction false} BlockCounts(lines: seq<Line>, y: nat, w: nat)
    requires y <= |lines|
    ensures BlockTotal(Count, lines, 0, y, 0, w) >= 0.0
    ensures forall u: nat, v: nat :: v < y && u < w && Covered(lines[v], u) ==>
              BlockTotal(Count, lines, 0, y, 0, w) >= 1.0
    ensures BlockTotal(Count, lines, 0, y, 0, w) > 0.0 ==>
              exists u: nat, v: nat :: v < y && u < w && Covered(lines[v], u)
    decreases y
  {
    hide Covered, RowTotal;
    if y > 0 {
      BlockCounts(lines, y - 1, w);
      CountsAreWhole(lines[y - 1], 0, w);
      if RowTotal(Count, lines[y - 1], 0, w) > 0.0 {
        var u: int :| 0 <= u < w && Covered(lines[y - 1], u);
        var u': nat := u;
        assert Covered(lines[y - 1], u');
      }
    }
  }

  /** The box of the covered pixels: nothing outside it, something on each of its sides. */
  ghost predicate TightBox(lines: seq<Line>, b: Box) {
    && ColumnsTight(lines, |lines|, 0, b.x0, b.x1) && RowsTight(lines, |lines|, b.y0, b.y1)
    && b.x1 > 0 && b.y1 > 0
  }

  lemma {:induction false} BoxFound(lines: seq<Line>, w: nat, b: Box)
    requires ColumnsTight(lines, |lines|, 0, b.x0, b.x1) && RowsTight(lines, |lines|, b.y0, b.y1)
    requires BlockTotal(Count, lines, 0, |lines|, 0, w) > 0.0
    ensures TightBox(lines, b)
  {
    hide Covered;
    BlockCounts(lines, |lines|, w);
    var u: nat, v: nat :| v < |lines| && u < w && Covered(lines[v], u);
    assert Seen(lines, |lines|, 0, u, v);
  }

  // ---------------------------------------------------------------- the scan

  datatype Result =
    | Scanned(coverage: seq<real>, mean: seq<real>, detail: seq<real>, box: Box, total: nat,
              fraction: Option<real>, lows: seq<real>, highs: seq<real>, means: seq<real>)
    | BackingFailed(message: string)

  /** Covered pixels by canvas pixels, whose number is kept in 64 bits; none of none is not a number. */
  function FractionFrom(total: nat, w: nat, h: nat): Option<real> {
    var n := Product(w, h) % (FAR + 1);
    if n == 0 then None else Some(total as real / n as real)
  }

  ghost predicate HasSample(lines: seq<Line>, c: nat, u: nat, v: nat) {
    v < |lines| && Covered(lines[v], u) && c < |lines[v].rows|
  }

  /** `value` is the highest or lowest covered sample of channel `c`, and zero where there is none. */
  ghost predicate Attained(top: bool, value: real, lines: seq<Line>, c: nat) {
    && (forall u: nat, v: nat :: HasSample(lines, c, u, v) ==>
          if top then Sample(lines[v], c, u) <= value else value <= Sample(lines[v], c, u))
    && ((exists u: nat, v: nat :: HasSample(lines, c, u, v) && Sample(lines[v], c, u) == value)
        || (value == 0.0 && forall u: nat, v: nat :: !HasSample(lines, c, u, v)))
  }

  /** A bound no sample reached is reported as zero. */
  function Finite(b: Bound): real {
    if b.Reached? then b.value else 0.0
  }

  function Finites(bounds: seq<Bound>): (r: seq<real>)
    ensures |r| == |bounds| && forall c :: 0 <= c < |r| ==> r[c] == Finite(bounds[c])
  {
    seq(|bounds|, c requires 0 <= c < |bounds| => Finite(bounds[c]))
  }

  lemma {:induction false} ExtremeDone(top: bool, b: Bound, lines: seq<Line>, c: nat)
    requires IsExtreme(top, b, lines, c, |lines|, 0)
    ensures Attained(top, Finite(b), lines, c)
  {
    var h := |lines|;
    forall u: nat, v: nat ensures SampleSeen(lines, c, h, 0, u, v) == HasSample(lines, c, u, v) {}
    if b.Reached? {
      var u: nat, v: nat :| SampleSeen(lines, c, h, 0, u, v) && Sample(lines[v], c, u) == b.value;
      assert HasSample(lines, c, u, v);
    }
    hide Sample, Covered, Seen;
  }

  /** What a successful scan returns, in terms of the rows it read. */
  ghost predicate ScanIs(r: Result, root: real -> real, lines: seq<Line>, w: nat, ch: nat)
    requires r.Scanned?
  {
    && SummaryTo(r.coverage, r.mean, r.detail, root, Blocks(w), Blocks(|lines|), w, ch, lines, Blocks(|lines|), 0)
    && r.total as real == BlockTotal(Count, lines, 0, |lines|, 0, w)
         == AllBlocks(Count, lines, Blocks(w), Blocks(|lines|))
    && |r.means| == ch
       && (forall c :: 0 <= c < ch ==>
             r.means[c] == MeanFrom(r.total as real, BlockTotal(Sum(c), lines, 0, |lines|, 0, w)))
    && (if r.total == 0 then r.box == Box(0, 0, 0, 0) else TightBox(lines, r.box))
    && r.fraction == FractionFrom(r.total, w, |lines|)
    && |r.lows| == ch && (forall c :: 0 <= c < ch ==> Attained(false, r.lows[c], lines, c))
    && |r.highs| == ch && (forall c :: 0 <= c < ch ==> Attained(true, r.highs[c], lines, c))
  }

  lemma {:induction false} CountInRow(l: Line, b: int)
    requires b >= 0
    ensures 0.0 <= RowTotal(Count, l, 0, b) <= b as real
    decreases b
  {
    if b > 0 { CountInRow(l, b - 1); }
  }

  lemma {:induction false} CountInRows(lines: seq<Line>, y: nat, w: nat)
    requires y <= |lines|
    ensures 0.0 <= BlockTotal(Count, lines, 0, y, 0, w) <= Product(w, y) as real
    decreases y
  {
    if y > 0 {
      CountInRows(lines, y - 1, w);
      CountInRow(lines[y - 1], w);
      assert w * y == w * (y - 1) + w;
      hide RowTotal;
    }
  }

  /** On a canvas whose pixels number less than 2^64 the fraction is a true one. */
  lemma {:induction false} FractionIsTrue(r: Result, root: real -> real, lines: seq<Line>, w: nat, ch: nat)
    requires r.Scanned? && ScanIs(r, root, lines, w, ch) && 0 < Product(w, |lines|) <= FAR
    ensures r.fraction.Some? && 0.0 <= r.fraction.value <= 1.0
    ensures Mul(r.fraction.value, Product(w, |lines|) as real) == r.total as real
  {
    CountInRows(lines, |lines|, w);
    var n := Product(w, |lines|);
    hide SummaryTo, Attained, TightBox, BlockTotal;
    assert n % (FAR + 1) == n;
    Ratio(r.total, n);
  }

  lemma {:induction false} Ratio(a: nat, n: nat)
    requires a <= n && n > 0
    ensures 0.0 <= a as real / n as real <= 1.0 && Mul(a as real / n as real, n as real) == a as real
  {
  }

  method Clear(cnt: array<nat>, sum: array<real>, sum2: array<real>)
    requires sum != sum2
    modifies cnt, sum, sum2
    ensures forall k :: 0 <= k < cnt.Length ==> cnt[k] == 0
    ensures forall i :: 0 <= i < sum.Length ==> sum[i] == 0.0
    ensures forall i :: 0 <= i < sum2.Length ==> sum2[i] == 0.0
  {
    for k := 0 to cnt.Length
      invariant forall j :: 0 <= j < k ==> cnt[j] == 0
    {
      cnt[k] := 0;
    }
    for i := 0 to sum.Length
      invariant forall j :: 0 <= j < cnt.Length ==> cnt[j] == 0
      invariant forall j :: 0 <= j < i ==> sum[j] == 0.0
    {
      sum[i] := 0.0;
    }
    for i := 0 to sum2.Length
      invariant forall j :: 0 <= j < cnt.Length ==> cnt[j] == 0
      invariant forall j :: 0 <= j < sum.Length ==> sum[j] == 0.0
      invariant forall j :: 0 <= j < i ==> sum2[j] == 0.0
    {
      sum2[i] := 0.0;
    }
  }

  /** Nothing flushed yet: a zeroed summary. */
  lemma {:induction false} SummaryStarts(coverage: seq<real>, mean: seq<real>, detail: seq<real>, root: real -> real,
                                         w8: nat, h8: nat, w: nat, ch: nat, lines: seq<Line>)
    requires w8 == Blocks(w) && h8 == Blocks(|lines|)
    requires IsPlane(|coverage|, w8, h8) && IsPlane(|mean|, w8, Product(ch, h8))
             && IsPlane(|detail|, w8, Product(ch, h8))
    requires forall i :: 0 <= i < |coverage| ==> coverage[i] == 0.0
    requires forall i :: 0 <= i < |mean| ==> mean[i] == 0.0
    requires forall i :: 0 <= i < |detail| ==> detail[i] == 0.0
    ensures SummaryTo(coverage, mean, detail, root, w8, h8, w, ch, lines, 0, 0)
  {
    forall x8: nat, y8: nat | x8 < w8 && y8 < h8
      ensures Cell(coverage, w8, h8, x8, y8) == 0.0
    {
      CellAt(coverage, w8, h8, x8, y8);
    }
    forall x8: nat, c: nat, y8: nat | x8 < w8 && c < ch && y8 < h8
      ensures Chan(mean, w8, h8, ch, x8, c, y8) == 0.0 && Chan(detail, w8, h8, ch, x8, c, y8) == 0.0
    {
      Indexing.InBounds(h8, ch, y8, c);
      CellAt(mean, w8, Product(ch, h8), x8, c * h8 + y8);
      CellAt(detail, w8, Product(ch, h8), x8, c * h8 + y8);
    }
    hide Cell, Chan, IsPlane, CoverageOf, MeanOf, DetailOf;
  }

  lemma {:induction false} StatsBegin(chSum: seq<real>, w: nat, ch: nat, lines: seq<Line>)
    requires |chSum| == ch && forall c :: 0 <= c < ch ==> chSum[c] == 0.0
    ensures StatsOk(0, chSum, Box(FAR, FAR, 0, 0), w, ch, lines, 0, 0)
  {
    forall m: Measure ensures TotalTo(m, lines, w, 0, 0) == 0.0 {}
    hide TotalTo, Covered;
  }

  /** Where the block row of image row `y` ends. */
  lemma {:induction false} RowEnds(y: nat, h: nat)
    requires y < h
    ensures var j := y / BLOCK;
            && BLOCK * j <= y && j < Blocks(h) && BLOCK * j < h
            && (y % BLOCK == BLOCK - 1 || y == h - 1 ==> RowOfBlock(j + 1, h) == y + 1)
            && (y % BLOCK == BLOCK - 1 && y + 1 < h ==> BLOCK * (j + 1) == y + 1 && (y + 1) / BLOCK == j + 1)
            && (y % BLOCK != BLOCK - 1 ==> (y + 1) / BLOCK == j)
            && (y == h - 1 ==> j + 1 == Blocks(h))
  {
  }

  /** Flush a cell row and start the next one from nothing. */
  method FlushAndClear(cnt: array<nat>, sum: array<real>, sum2: array<real>, coverage: array<real>, mean: array<real>,
                       detail: array<real>, root: real -> real, w: nat, w8: nat, h8: nat, ch: nat, lines: seq<Line>,
                       y: nat)
    requires sum != sum2 && coverage != mean && coverage != detail && mean != detail
    requires coverage != sum && coverage != sum2 && mean != sum && mean != sum2 && detail != sum && detail != sum2
    requires y < |lines| && h8 == Blocks(|lines|) && (y % BLOCK == BLOCK - 1 || y == |lines| - 1)
    requires Tallied(cnt[..], sum[..], sum2[..], w8, ch, lines, BLOCK * (y / BLOCK), y + 1, 0)
    requires SummaryTo(coverage[..], mean[..], detail[..], root, w8, h8, w, ch, lines, y / BLOCK, 0)
    modifies cnt, sum, sum2, coverage, mean, detail
    ensures Tallied(cnt[..], sum[..], sum2[..], w8, ch, lines, y + 1, y + 1, 0)
    ensures SummaryTo(coverage[..], mean[..], detail[..], root, w8, h8, w, ch, lines, y / BLOCK + 1, 0)
  {
    RowEnds(y, |lines|);
    TallySizes(cnt[..], sum[..], sum2[..], w8, ch, lines, BLOCK * (y / BLOCK), y + 1, 0);
    hide Tallied, SummaryTo, IsPlane, RowOfBlock, Blocks;
    FlushRow(cnt, sum, sum2, coverage, mean, detail, root, w, w8, h8, ch, lines, y / BLOCK);
    SummaryTurns(coverage[..], mean[..], detail[..], root, w8, h8, w, ch, lines, y / BLOCK);
    ghost var P, M, D := coverage[..], mean[..], detail[..];
    Clear(cnt, sum, sum2);
    assert coverage[..] == P && mean[..] == M && detail[..] == D;
    TallyFresh(cnt[..], sum[..], sum2[..], w8, ch, lines, y + 1);
  }

  lemma {:induction false} TallySizes(cnt: seq<nat>, sum: seq<real>, sum2: seq<real>, w8: nat, ch: nat,
                                      lines: seq<Line>, ya: nat, y: nat, x: int)
    requires Tallied(cnt, sum, sum2, w8, ch, lines, ya, y, x)
    ensures |cnt| == w8 && IsPlane(|sum|, w8, ch) && IsPlane(|sum2|, w8, ch)
  {
  }

  /** Every row in turn, flushing on the last image row of each cell row. */
  method ScanRows(cnt: array<nat>, sum: array<real>, sum2: array<real>, chMin: array<Bound>, chMax: array<Bound>,
                  chSum: array<real>, coverage: array<real>, mean: array<real>, detail: array<real>,
                  root: real -> real, w: nat, w8: nat, h8: nat, ch: nat, lines: seq<Line>)
    returns (total: nat, b: Box)
    requires sum != sum2 && sum != chSum && sum2 != chSum && chMin != chMax
    requires coverage != mean && coverage != detail && mean != detail
    requires coverage != sum && coverage != sum2 && coverage != chSum
    requires mean != sum && mean != sum2 && mean != chSum && detail != sum && detail != sum2 && detail != chSum
    requires w8 == Blocks(w) && h8 == Blocks(|lines|)
    requires w <= FAR && |lines| <= FAR && forall y :: 0 <= y < |lines| ==> LineOk(lines[y], w, ch)
    requires Tallied(cnt[..], sum[..], sum2[..], w8, ch, lines, 0, 0, 0)
    requires StatsOk(0, chSum[..], Box(FAR, FAR, 0, 0), w, ch, lines, 0, 0)
             && Ranged(chMin[..], chMax[..], ch, lines, 0, 0)
    requires SummaryTo(coverage[..], mean[..], detail[..], root, w8, h8, w, ch, lines, 0, 0)
    modifies cnt, sum, sum2, chMin, chMax, chSum, coverage, mean, detail
    ensures StatsOk(total, chSum[..], b, w, ch, lines, |lines|, 0)
            && Ranged(chMin[..], chMax[..], ch, lines, |lines|, 0)
    ensures SummaryTo(coverage[..], mean[..], detail[..], root, w8, h8, w, ch, lines, h8, 0)
  {
    hide Tallied, StatsOk, Ranged, SummaryTo, LineOk, RowOfBlock, Blocks;
    var h := |lines|;
    NoRowBlocks();
    total, b := 0, Box(FAR, FAR, 0, 0);
    for y := 0 to h
      invariant y < h ==> Tallied(cnt[..], sum[..], sum2[..], w8, ch, lines, BLOCK * (y / BLOCK), y, 0)
      invariant StatsOk(total, chSum[..], b, w, ch, lines, y, 0) && Ranged(chMin[..], chMax[..], ch, lines, y, 0)
      invariant SummaryTo(coverage[..], mean[..], detail[..], root, w8, h8, w, ch, lines,
                          if y < h then y / BLOCK else h8, 0)
    {
      RowEnds(y, h);
      ghost var P, M, D := coverage[..], mean[..], detail[..];
      total, b := ScanRow(cnt, sum, sum2, chMin, chMax, chSum, w, w8, ch, lines, BLOCK * (y / BLOCK), y, total, b);
      assert coverage[..] == P && mean[..] == M && detail[..] == D;
      if y % BLOCK == BLOCK - 1 || y == h - 1 {
        ghost var T, L, U := chSum[..], chMin[..], chMax[..];
        FlushAndClear(cnt, sum, sum2, coverage, mean, detail, root, w, w8, h8, ch, lines, y);
        assert chSum[..] == T && chMin[..] == L && chMax[..] == U;
      }
    }
  }

  lemma {:induction false} NoRowBlocks()
    ensures Blocks(0) == 0
  {
  }

  /** One streaming pass over the panel's rows. */
  method ScanLines(lines: seq<Line>, w: nat, ch: nat, root: real -> real, backing: Option<string>) returns (r: Result)
    requires w <= FAR && |lines| <= FAR && forall y :: 0 <= y < |lines| ==> LineOk(lines[y], w, ch)
    ensures r.BackingFailed? <==> backing.Some?
    ensures r.Scanned? ==> ScanIs(r, root, lines, w, ch)
  {
    hide Tallied, StatsOk, Ranged, SummaryTo, LineOk, IsPlane, Blocks, ScanIs;
    var w8, h8 := Blocks(w), Blocks(|lines|);
    var coverage := NewPlane(w8, h8, 0.0);
    var mean := NewPlane(w8, Product(ch, h8), 0.0);
    var detail := NewPlane(w8, Product(ch, h8), 0.0);
    var cnt := new nat[w8](_ => 0);
    var sum := NewPlane(w8, ch, 0.0);
    var sum2 := NewPlane(w8, ch, 0.0);
    var chMin, chMax := new Bound[ch](_ => Unset), new Bound[ch](_ => Unset);
    var chSum := new real[ch](_ => 0.0);
    SummaryStarts(coverage[..], mean[..], detail[..], root, w8, h8, w, ch, lines);
    TallyFresh(cnt[..], sum[..], sum2[..], w8, ch, lines, 0);
    StatsBegin(chSum[..], w, ch, lines);
    RangeStarts(chMin[..], chMax[..], ch, lines);
    var total, b := ScanRows(cnt, sum, sum2, chMin, chMax, chSum, coverage, mean, detail, root, w, w8, h8, ch, lines);
    if backing.Some? {
      return BackingFailed(backing.value);
    }
    var box := if total == 0 then Box(0, 0, 0, 0) else b;
    r := Scanned(coverage[..], mean[..], detail[..], box, total, FractionFrom(total, w, |lines|),
                 Finites(chMin[..]), Finites(chMax[..]), Means(total, chSum[..]));
    ScanDone(r, root, lines, w, ch, chSum[..], b, chMin[..], chMax[..]);
  }

  function Means(total: nat, sums: seq<real>): (m: seq<real>)
    ensures |m| == |sums| && forall c :: 0 <= c < |m| ==> m[c] == MeanFrom(total as real, sums[c])
  {
    seq(|sums|, c requires 0 <= c < |sums| => MeanFrom(total as real, sums[c]))
  }

  lemma {:induction false} ScanDone(r: Result, root: real -> real, lines: seq<Line>, w: nat, ch: nat, chSum: seq<real>,
                                    b: Box, lows: seq<Bound>, highs: seq<Bound>)
    requires r.Scanned? && StatsOk(r.total, chSum, b, w, ch, lines, |lines|, 0)
    requires SummaryTo(r.coverage, r.mean, r.detail, root, Blocks(w), Blocks(|lines|), w, ch, lines, Blocks(|lines|), 0)
    requires |r.means| == ch && forall c :: 0 <= c < ch ==> r.means[c] == MeanFrom(r.total as real, chSum[c])
    requires r.box == if r.total == 0 then Box(0, 0, 0, 0) else b
    requires Ranged(lows, highs, ch, lines, |lines|, 0) && r.lows == Finites(lows) && r.highs == Finites(highs)
    requires r.fraction == FractionFrom(r.total, w, |lines|)
    requires forall y :: 0 <= y < |lines| ==> LineOk(lines[y], w, ch)
    ensures ScanIs(r, root, lines, w, ch)
  {
    BlocksAddUp(Count, lines, Blocks(w), Blocks(|lines|));
    BlocksWide(lines, |lines|, w, ch);
    if r.total > 0 { BoxFound(lines, w, b); }
    forall c | 0 <= c < ch ensures Attained(false, r.lows[c], lines, c) && Attained(true, r.highs[c], lines, c) {
      ExtremeDone(false, lows[c], lines, c);
      ExtremeDone(true, highs[c], lines, c);
    }
    hide Attained, Finite, FractionFrom, IsExtreme, SummaryTo, ColumnsTight, RowsTight, TightBox, BlockTotal, RowTotal,
         MeanFrom;
  }

  /** Columns past the canvas add nothing. */
  lemma {:induction false} BlocksWide(lines: seq<Line>, y: nat, w: nat, ch: nat)
    requires y <= |lines| && forall v :: 0 <= v < |lines| ==> LineOk(lines[v], w, ch)
    ensures BlockTotal(Count, lines, 0, y, 0, BLOCK * Blocks(w)) == BlockTotal(Count, lines, 0, y, 0, w)
    decreases y
  {
    if y > 0 {
      BlocksWide(lines, y - 1, w, ch);
      var l := lines[y - 1];
      NothingBehind(Count, l, 0, BLOCK * Blocks(w), w);
      hide RowTotal;
    }
  }

  // ---------------------------------------------------------------- over a band cache

  /** The panel's own rows, whole. */
  function PanelLine(panel: Bands.Panel, w: nat, ch: nat, y: nat): Line {
    Line(0, seq(ch, c requires 0 <= c => seq(w, x requires 0 <= x => panel(c, y, x))))
  }

  function PanelLines(panel: Bands.Panel, w: nat, h: nat, ch: nat): (lines: seq<Line>)
    ensures |lines| == h && forall y :: 0 <= y < h ==> lines[y] == PanelLine(panel, w, ch, y)
  {
    seq(h, y requires 0 <= y => PanelLine(panel, w, ch, y))
  }

  /** What the producer answers, by the row and channel of the call that asks it: a fetch that fails may
      succeed when it is made again. */
  type Producer = (nat, nat) -> ((nat, nat) -> Bands.Fetched)

  /** A producer of the panel's bands and of failures. */
  ghost predicate Produces(cache: Bands.BandCache, panel: Bands.Panel, producer: Producer) {
    forall y: nat, c: nat :: cache.Honest(panel, producer(y, c))
  }

  /** Asked for row `y` on behalf of channel `c`, the producer fills the band. */
  predicate Fills(cache: Bands.BandCache, producer: Producer, y: nat, c: nat)
    requires cache.bandRows > 0
  {
    producer(y, c)(cache.BandOf(y), cache.End(cache.BandOf(y))).Filled?
  }

  /** All channels of one row out of the cache, up to the first that fails. */
  method ReadLine(cache: Bands.BandCache, ghost panel: Bands.Panel, y: nat, idx: nat, producer: Producer)
    returns (l: Line)
    requires cache.Valid(panel) && idx < |cache.cells| && Produces(cache, panel, producer) && y < cache.h
    modifies cache.cells[idx], cache`error
    ensures cache.Valid(panel) && LineOk(l, cache.w, cache.ch)
    ensures old(cache.error).Some? ==> cache.error == old(cache.error)
    ensures cache.error.None? ==> l == PanelLine(panel, cache.w, cache.ch, y) && (cache.ch > 0 ==> cache.Hit(idx, y))
    ensures cache.error.None? <==>
              old(cache.error).None? && (cache.ch == 0 || old(cache.Hit(idx, y)) || Fills(cache, producer, y, 0))
  {
    var rows: seq<seq<real>> := [];
    var c := 0;
    while c < cache.ch
      invariant c <= cache.ch && cache.Valid(panel) && |rows| == c
      invariant forall k :: 0 <= k < c ==> Bands.IsRow(panel, k, y, cache.w, rows[k])
      invariant cache.error == old(cache.error)
      invariant c == 0 ==> cache.Hit(idx, y) == old(cache.Hit(idx, y))
      invariant c > 0 ==> cache.Hit(idx, y) && (old(cache.Hit(idx, y)) || Fills(cache, producer, y, 0))
    {
      var r := cache.Row(panel, c, y, idx, producer(y, c));
      if r.None? {
        break;
      }
      rows := rows + [r.value];
      c := c + 1;
    }
    l := Line(0, rows);
    if c == cache.ch { RowsArePanel(panel, cache.w, cache.ch, y, rows); }
  }

  lemma {:induction false} RowsArePanel(panel: Bands.Panel, w: nat, ch: nat, y: nat, rows: seq<seq<real>>)
    requires |rows| == ch && forall k :: 0 <= k < ch ==> Bands.IsRow(panel, k, y, w, rows[k])
    ensures Line(0, rows) == PanelLine(panel, w, ch, y)
  {
    forall k | 0 <= k < ch ensures rows[k] == PanelLine(panel, w, ch, y).rows[k] {}
  }

  /** Row `y` begins a band, so reading it in order needs a fetch. */
  predicate Begins(cache: Bands.BandCache, y: nat)
    requires cache.bandRows > 0
  {
    cache.BandOf(y) == y
  }

  /** Rows of one band follow one another until the next band begins. */
  lemma {:induction false} SameBand(cache: Bands.BandCache, y: nat)
    requires cache.bandRows > 0 && y > 0
    ensures cache.BandOf(y) == cache.BandOf(y - 1) <==> !Begins(cache, y)
  {
    var n := cache.bandRows;
    var a, b := (y - 1) / n, y / n;
    Bands.BandStart(y - 1, n);
    Bands.BandStart(y, n);
    if b * n != y {
      if a < b { Apart(a, b, n); } else if b < a { Apart(b, a, n); }
    }
  }

  lemma {:induction false} Apart(a: nat, b: nat, n: nat)
    requires a < b
    ensures a * n + n <= b * n
  {
    assert b * n == a * n + n + (b - a - 1) * n;
  }

  /** Row `y` needs no fetch, or its first channel gets one that fills the band. */
  predicate InTime(cache: Bands.BandCache, producer: Producer, y: nat, held: bool)
    requires cache.bandRows > 0
  {
    (if y == 0 then held else !Begins(cache, y)) || Fills(cache, producer, y, 0)
  }

  /** A scan through the band cache. It succeeds exactly when the producer filled every band the first time
      it was asked for; one failed fetch fails the scan even if a later one succeeds. The result is then
      that of the panel itself. */
  method ScanCached(cache: Bands.BandCache, panel: Bands.Panel, idx: nat, producer: Producer, root: real -> real)
    returns (r: Result)
    requires cache.Valid(panel) && idx < |cache.cells| && Produces(cache, panel, producer) && cache.w <= FAR
             && cache.h <= FAR
    modifies cache.cells[idx], cache`error
    ensures cache.Valid(panel)
    ensures r.Scanned? ==> ScanIs(r, root, PanelLines(panel, cache.w, cache.h, cache.ch), cache.w, cache.ch)
    ensures r.BackingFailed? <==> cache.error.Some?
    ensures r.Scanned? <==>
              old(cache.error).None?
              && (cache.ch == 0 || forall y :: 0 <= y < cache.h ==> InTime(cache, producer, y, old(cache.Hit(idx, 0))))
  {
    hide ScanIs, PanelLine, LineOk, Fills, Begins;
    var lines: seq<Line> := [];
    ghost var held := cache.Hit(idx, 0);
    for y := 0 to cache.h
      invariant cache.Valid(panel) && |lines| == y
      invariant cache.error.None? <==>
                  old(cache.error).None?
                  && (cache.ch == 0 || forall v :: 0 <= v < y ==> InTime(cache, producer, v, held))
      invariant y == 0 ==> cache.Hit(idx, 0) == held
      invariant y > 0 && cache.ch > 0 && cache.error.None? ==> cache.Hit(idx, y - 1)
      invariant forall v :: 0 <= v < y ==> LineOk(lines[v], cache.w, cache.ch)
      invariant cache.error.None? ==> forall v :: 0 <= v < y ==> lines[v] == PanelLine(panel, cache.w, cache.ch, v)
    {
      if y > 0 { SameBand(cache, y); }
      ghost var sound, kept := cache.error.None?, cache.Hit(idx, y);
      assert sound && cache.ch > 0 ==> (kept <==> if y == 0 then held else !Begins(cache, y));
      var l := ReadLine(cache, panel, y, idx, producer);
      assert sound && cache.ch > 0 ==> (cache.error.None? <==> InTime(cache, producer, y, held));
      lines := lines + [l];
    }
    r := ScanLines(lines, cache.w, cache.ch, root, cache.error);
    if cache.error.None? {
      assert lines == PanelLines(panel, cache.w, cache.h, cache.ch);
    }
  }
}
