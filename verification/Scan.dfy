/** The streaming scan of one panel: cell-row accumulators flushed every eight image rows
    (crates/mmm-core/src/analyze.rs, `scan_reader`). */
module Scan {
  import opened Grid
  import opened Naturals
  import opened Reals
  import opened Tally

  // ---------------------------------------------------------------- accumulators

  /** The measure of cell column `k` since row `ya`, with row `y` read up to column `x`. */
  ghost function Progress(m: Measure, lines: seq<Line>, ya: nat, y: nat, x: int, k: nat): real
    requires y <= |lines|
  {
    BlockTotal(m, lines, ya, y, BLOCK * k, BLOCK * k + BLOCK)
    + if y < |lines| then RowTotal(m, lines[y], BLOCK * k, Min(BLOCK * k + BLOCK, x)) else 0.0
  }

  ghost predicate Counted(cnt: seq<nat>, w8: nat, lines: seq<Line>, ya: nat, y: nat, x: int) {
    y <= |lines| && |cnt| == w8 && forall k :: 0 <= k < w8 ==> cnt[k] as real == Progress(Count, lines, ya, y, x, k)
  }

  /** A plane with one row per channel holds the measure of each cell column. */
  ghost predicate Summed(sum: seq<real>, w8: nat, ch: nat, squares: bool, lines: seq<Line>, ya: nat, y: nat, x: int) {
    && y <= |lines| && IsPlane(|sum|, w8, ch)
    && forall k, c :: 0 <= k < w8 && 0 <= c < ch ==>
         Cell(sum, w8, ch, k, c) == Progress(MeasureOf(squares, c), lines, ya, y, x, k)
  }

  function MeasureOf(squares: bool, c: nat): Measure {
    if squares then Squares(c) else Sum(c)
  }

  /** Reading one more pixel moves only its own cell column. */
  lemma {:induction false} ProgressStep(m: Measure, lines: seq<Line>, ya: nat, y: nat, x: int, k: nat)
    requires y < |lines| && x >= 0
    ensures Progress(m, lines, ya, y, x + 1, k)
         == Progress(m, lines, ya, y, x, k) + if x / BLOCK == k then At(m, lines[y], x) else 0.0
  {
    hide BlockTotal, At;
    var a, b := BLOCK * k, BLOCK * k + BLOCK;
    if x / BLOCK == k {
      assert a <= x < b;
    } else if x < a {
    } else {
      assert b <= x;
    }
  }

  lemma {:induction false} ProgressStarts(m: Measure, lines: seq<Line>, ya: nat, y: nat, k: nat)
    requires y < |lines|
    ensures Progress(m, lines, ya, y, lines[y].x0, k) == Progress(m, lines, ya, y, 0, k)
  {
    NothingBefore(m, lines[y], BLOCK * k, Min(BLOCK * k + BLOCK, lines[y].x0));
    NothingBefore(m, lines[y], BLOCK * k, Min(BLOCK * k + BLOCK, 0));
  }

  lemma {:induction false} ProgressEnds(m: Measure, lines: seq<Line>, ya: nat, y: nat, k: nat)
    requires ya <= y < |lines|
    ensures Progress(m, lines, ya, y, lines[y].x0 + Length(lines[y]), k) == Progress(m, lines, ya, y + 1, 0, k)
  {
    var l, a, b := lines[y], BLOCK * k, BLOCK * k + BLOCK;
    NothingBehind(m, l, a, b, l.x0 + Length(l));
    if y + 1 < |lines| { NothingBefore(m, lines[y + 1], a, Min(b, 0)); }
    hide RowTotal;
  }

  lemma {:induction false} ProgressFresh(m: Measure, lines: seq<Line>, y: nat, k: nat)
    requires y <= |lines|
    ensures Progress(m, lines, y, y, 0, k) == 0.0
  {
    if y < |lines| { NothingBefore(m, lines[y], BLOCK * k, Min(BLOCK * k + BLOCK, 0)); }
  }

  /** One channel of a covered pixel joins its cell column's sums. */
  method AddSample(sum: array<real>, w8: nat, ch: nat, k: nat, c: nat, v: real)
    requires IsPlane(sum.Length, w8, ch) && k < w8 && c < ch
    modifies sum
    ensures forall k', c' :: 0 <= k' < w8 && 0 <= c' < ch ==>
              Cell(sum[..], w8, ch, k', c') == Cell(old(sum[..]), w8, ch, k', c')
                    + if k' == k && c' == c then v else 0.0
  {
    var s := Read(sum, w8, ch, k, c);
    Write(sum, w8, ch, k, c, s + v);
  }

  /** A running extreme of one channel; unset while no covered sample has been read, as an infinity. */
  datatype Bound = Unset | Reached(value: real)

  /** `a` is as extreme as `b`: as large for the highest, as small for the lowest. */
  predicate Beats(top: bool, a: real, b: real) {
    if top then a >= b else a <= b
  }

  /** The extreme after one more sample. */
  function Stretch(top: bool, b: Bound, v: real): (r: Bound)
    ensures r.Reached? && Beats(top, r.value, v) && (b.Reached? ==> Beats(top, r.value, b.value))
    ensures r == b || r == Reached(v)
  {
    if b.Unset? || !Beats(top, b.value, v) then Reached(v) else b
  }

  /** All channels of a covered pixel. */
  method AddPixel(sum: array<real>, sum2: array<real>, chMin: array<Bound>, chMax: array<Bound>, chSum: array<real>,
                  w8: nat, ch: nat, l: Line, k: nat, x: nat)
    requires IsPlane(sum.Length, w8, ch) && IsPlane(sum2.Length, w8, ch) && chSum.Length == ch
    requires sum != sum2 && sum != chSum && sum2 != chSum
    requires chMin != chMax && chMin.Length == ch && chMax.Length == ch
    requires k < w8 && |l.rows| <= ch && Covered(l, x)
    modifies sum, sum2, chMin, chMax, chSum
    ensures forall c :: 0 <= c < |l.rows| ==> chMin[c] == Stretch(false, old(chMin[c]), Sample(l, c, x))
    ensures forall c :: 0 <= c < |l.rows| ==> chMax[c] == Stretch(true, old(chMax[c]), Sample(l, c, x))
    ensures forall c :: |l.rows| <= c < ch ==> chMin[c] == old(chMin[c]) && chMax[c] == old(chMax[c])
    ensures forall k', c :: 0 <= k' < w8 && 0 <= c < ch ==>
              Cell(sum[..], w8, ch, k', c) == Cell(old(sum[..]), w8, ch, k', c)
                    + if k' == k then At(Sum(c), l, x) else 0.0
    ensures forall k', c :: 0 <= k' < w8 && 0 <= c < ch ==>
              Cell(sum2[..], w8, ch, k', c) == Cell(old(sum2[..]), w8, ch, k', c)
                    + if k' == k then At(Squares(c), l, x) else 0.0
    ensures forall c :: 0 <= c < ch ==> chSum[c] == old(chSum[c]) + At(Sum(c), l, x)
  {
    assert Inside(l, x);
    hide IsPlane, Cell, Inside, Covered, Mul, Stretch;
    ghost var S, Q, T := sum[..], sum2[..], chSum[..];
    for c := 0 to |l.rows|
      invariant forall k', c' :: 0 <= k' < w8 && 0 <= c' < ch ==>
                  Cell(sum[..], w8, ch, k', c') == Cell(S, w8, ch, k', c')
                        + if k' == k && c' < c then Sample(l, c', x) else 0.0
      invariant forall k', c' :: 0 <= k' < w8 && 0 <= c' < ch ==>
                  Cell(sum2[..], w8, ch, k', c') == Cell(Q, w8, ch, k', c')
                    + if k' == k && c' < c then Mul(Sample(l, c', x), Sample(l, c', x)) else 0.0
      invariant forall c' :: 0 <= c' < ch ==> chSum[c'] == T[c'] + if c' < c then Sample(l, c', x) else 0.0
      invariant forall c' :: 0 <= c' < c ==> chMin[c'] == Stretch(false, old(chMin[c']), Sample(l, c', x))
      invariant forall c' :: 0 <= c' < c ==> chMax[c'] == Stretch(true, old(chMax[c']), Sample(l, c', x))
      invariant forall c' :: c <= c' < ch ==> chMin[c'] == old(chMin[c']) && chMax[c'] == old(chMax[c'])
    {
      var v := Sample(l, c, x);
      chMin[c] := Stretch(false, chMin[c], v);
      chMax[c] := Stretch(true, chMax[c], v);
      ghost var Q1 := sum2[..];
      chSum[c] := chSum[c] + v;
      ghost var S1, T1 := sum[..], chSum[..];
      assert sum2[..] == Q1;
      AddSample(sum, w8, ch, k, c, v);
      assert sum2[..] == Q1 && chSum[..] == T1;
      ghost var S2 := sum[..];
      AddSample(sum2, w8, ch, k, c, Mul(v, v));
      assert sum[..] == S2 && chSum[..] == T1;
    }
    NoSquare();
  }

  lemma {:induction false} NoSquare()
    ensures Mul(0.0, 0.0) == 0.0
  {
  }

  // ---------------------------------------------------------------- bounding box

  const FAR: nat := 0xFFFF_FFFF_FFFF_FFFF

  datatype Box = Box(x0: nat, y0: nat, x1: nat, y1: nat)

  /** Pixel (u, v) is covered and has been read, with rows before `y` and columns before `x` of it read. */
  ghost predicate Seen(lines: seq<Line>, y: nat, x: int, u: nat, v: nat) {
    v < |lines| && Covered(lines[v], u) && (v < y || (v == y && u < x))
  }

  ghost predicate ColumnSeen(lines: seq<Line>, y: nat, x: int, u: int) {
    u >= 0 && exists v: nat :: Seen(lines, y, x, u, v)
  }

  ghost predicate RowSeen(lines: seq<Line>, y: nat, v: int) {
    v >= 0 && exists u: nat :: Seen(lines, y, 0, u, v)
  }

  /** The columns from `x0` up to `x1` are exactly the span of the covered pixels read. */
  ghost predicate ColumnsTight(lines: seq<Line>, y: nat, x: int, x0: nat, x1: nat) {
    && (forall u: nat, v: nat :: Seen(lines, y, x, u, v) ==> x0 <= u < x1)
    && if x1 == 0 then x0 == FAR else ColumnSeen(lines, y, x, x0) && ColumnSeen(lines, y, x, x1 - 1)
  }

  ghost predicate RowsTight(lines: seq<Line>, y: nat, y0: nat, y1: nat) {
    && (forall u: nat, v: nat :: Seen(lines, y, 0, u, v) ==> y0 <= v < y1)
    && if y1 == 0 then y0 == FAR else RowSeen(lines, y, y0) && RowSeen(lines, y, y1 - 1)
  }

  /** What was seen stays seen. */
  lemma {:induction false} ColumnStill(lines: seq<Line>, y: nat, x: int, y': nat, x': int, u: int)
    requires ColumnSeen(lines, y, x, u) && (y < y' || (y == y' && x <= x'))
    ensures ColumnSeen(lines, y', x', u)
  {
    var v: nat :| Seen(lines, y, x, u, v);
    assert Seen(lines, y', x', u, v);
  }

  lemma {:induction false} RowStill(lines: seq<Line>, y: nat, v: int)
    requires RowSeen(lines, y, v)
    ensures RowSeen(lines, y + 1, v)
  {
    var u: nat :| Seen(lines, y, 0, u, v);
    assert Seen(lines, y + 1, 0, u, v);
  }

  lemma {:induction false} ColumnsSkip(lines: seq<Line>, y: nat, x: nat, x0: nat, x1: nat)
    requires y < |lines| && ColumnsTight(lines, y, x, x0, x1) && !Covered(lines[y], x)
    ensures ColumnsTight(lines, y, x + 1, x0, x1)
  {
    var x' := x + 1;
    forall u: nat, v: nat | Seen(lines, y, x', u, v) ensures x0 <= u < x1 { assert Seen(lines, y, x, u, v); }
    hide ColumnSeen, Seen;
    if x1 > 0 {
      ColumnStill(lines, y, x, y, x + 1, x0);
      ColumnStill(lines, y, x, y, x + 1, x1 - 1);
    }
  }

  lemma {:induction false} ColumnsGrow(lines: seq<Line>, y: nat, x: nat, x0: nat, x1: nat)
    requires y < |lines| && ColumnsTight(lines, y, x, x0, x1) && Covered(lines[y], x) && x < FAR
    ensures ColumnsTight(lines, y, x + 1, if x < x0 then x else x0, if x >= x1 then x + 1 else x1)
  {
    assert Seen(lines, y, x + 1, x, y);
    assert ColumnSeen(lines, y, x + 1, x);
    var x' := x + 1;
    forall u: nat, v: nat | Seen(lines, y, x', u, v) ensures u == x || x0 <= u < x1 {
      assert Seen(lines, y, x, u, v) || u == x;
    }
    hide ColumnSeen, Seen;
    if x1 > 0 {
      ColumnStill(lines, y, x, y, x + 1, x0);
      ColumnStill(lines, y, x, y, x + 1, x1 - 1);
    }
  }

  /** Nothing covered before or behind the slices: a row read to its end starts the next one. */
  lemma {:induction false} ColumnsStart(lines: seq<Line>, y: nat, x0: nat, x1: nat)
    requires y < |lines| && ColumnsTight(lines, y, 0, x0, x1)
    ensures ColumnsTight(lines, y, lines[y].x0, x0, x1)
  {
    var s := lines[y].x0;
    forall u: nat, v: nat | Seen(lines, y, s, u, v) ensures x0 <= u < x1 {
      if v == y { InsideBounds(lines[y], u); }
      assert Seen(lines, y, 0, u, v);
    }
    hide ColumnSeen, Seen;
    if x1 > 0 {
      ColumnStill(lines, y, 0, y, s, x0);
      ColumnStill(lines, y, 0, y, s, x1 - 1);
    }
  }

  lemma {:induction false} ColumnsTurn(lines: seq<Line>, y: nat, x0: nat, x1: nat)
    requires y < |lines| && ColumnsTight(lines, y, lines[y].x0 + Length(lines[y]), x0, x1)
    ensures ColumnsTight(lines, y + 1, 0, x0, x1)
  {
    var e := lines[y].x0 + Length(lines[y]);
    var y' := y + 1;
    forall u: nat, v: nat | Seen(lines, y', 0, u, v) ensures x0 <= u < x1 {
      if v == y { InsideBounds(lines[y], u); }
      assert Seen(lines, y, e, u, v);
    }
    hide ColumnSeen, Seen, Length;
    if x1 > 0 {
      ColumnStill(lines, y, e, y + 1, 0, x0);
      ColumnStill(lines, y, e, y + 1, 0, x1 - 1);
    }
  }

  /** A covered pixel somewhere in the row. */
  ghost predicate AnyCovered(l: Line) {
    exists u: nat :: Covered(l, u)
  }

  lemma {:induction false} RowsTurn(lines: seq<Line>, y: nat, y0: nat, y1: nat, covered: bool)
    requires y < |lines| && y < FAR && RowsTight(lines, y, y0, y1) && covered == AnyCovered(lines[y])
    ensures covered ==> RowsTight(lines, y + 1, if y < y0 then y else y0, y + 1)
    ensures !covered ==> RowsTight(lines, y + 1, y0, y1)
  {
    var y' := y + 1;
    forall u: nat, v: nat | Seen(lines, y', 0, u, v) ensures y0 <= v < y1 || (covered && v == y) {
      assert v != y ==> Seen(lines, y, 0, u, v);
    }
    if covered {
      var u: nat :| Covered(lines[y], u);
      assert Seen(lines, y + 1, 0, u, y);
      assert RowSeen(lines, y + 1, y);
    }
    RowsBelow(lines, y, y0, y1);
    hide RowSeen, Seen, AnyCovered;
    if y1 > 0 {
      RowStill(lines, y, y0);
      RowStill(lines, y, y1 - 1);
    }
  }

  /** Rows seen so far lie before `y`. */
  lemma {:induction false} RowsBelow(lines: seq<Line>, y: nat, y0: nat, y1: nat)
    requires RowsTight(lines, y, y0, y1)
    ensures y1 <= y
  {
    if y1 > 0 { var u: nat :| Seen(lines, y, 0, u, y1 - 1); }
  }

  // ---------------------------------------------------------------- rows

  /** What is known of the accumulators with row `y` read up to column `x`. */
  ghost predicate Tallied(cnt: seq<nat>, sum: seq<real>, sum2: seq<real>, w8: nat, ch: nat, lines: seq<Line>, ya: nat,
                          y: nat, x: int) {
    && Counted(cnt, w8, lines, ya, y, x)
    && Summed(sum, w8, ch, false, lines, ya, y, x) && Summed(sum2, w8, ch, true, lines, ya, y, x)
  }

  lemma {:induction false} TallySkips(cnt: seq<nat>, sum: seq<real>, sum2: seq<real>, w8: nat, ch: nat,
                                      lines: seq<Line>, ya: nat, y: nat, x: nat)
    requires Tallied(cnt, sum, sum2, w8, ch, lines, ya, y, x) && y < |lines| && !Covered(lines[y], x)
    ensures Tallied(cnt, sum, sum2, w8, ch, lines, ya, y, x + 1)
  {
    forall m: Measure, k: nat ensures Progress(m, lines, ya, y, x + 1, k) == Progress(m, lines, ya, y, x, k) {
      ProgressStep(m, lines, ya, y, x, k);
    }
    hide Progress, Cell, IsPlane;
  }

  /** One covered pixel added in its cell column. */
  lemma {:induction false} TallyGrows(cnt: seq<nat>, sum: seq<real>, sum2: seq<real>, cnt': seq<nat>, sum': seq<real>,
                                      sum2': seq<real>, w8: nat, ch: nat, lines: seq<Line>, ya: nat, y: nat, x: nat)
    requires Tallied(cnt, sum, sum2, w8, ch, lines, ya, y, x) && y < |lines| && Covered(lines[y], x) && x / BLOCK < w8
    requires cnt' == cnt[x / BLOCK := cnt[x / BLOCK] + 1]
    requires IsPlane(|sum'|, w8, ch) && IsPlane(|sum2'|, w8, ch)
    requires forall k, c :: 0 <= k < w8 && 0 <= c < ch ==>
               Cell(sum', w8, ch, k, c) == Cell(sum, w8, ch, k, c)
                     + if k == x / BLOCK then At(Sum(c), lines[y], x) else 0.0
    requires forall k, c :: 0 <= k < w8 && 0 <= c < ch ==>
               Cell(sum2', w8, ch, k, c) == Cell(sum2, w8, ch, k, c)
                     + if k == x / BLOCK then At(Squares(c), lines[y], x) else 0.0
    ensures Tallied(cnt', sum', sum2', w8, ch, lines, ya, y, x + 1)
  {
    assert At(Count, lines[y], x) == 1.0;
    forall m: Measure, k: nat
      ensures Progress(m, lines, ya, y, x + 1, k) == Progress(m, lines, ya, y, x, k)
                + if x / BLOCK == k then At(m, lines[y], x) else 0.0
    {
      ProgressStep(m, lines, ya, y, x, k);
    }
    hide Progress, Cell, IsPlane, At, Covered;
  }

  lemma {:induction false} TallyStarts(cnt: seq<nat>, sum: seq<real>, sum2: seq<real>, w8: nat, ch: nat,
                                       lines: seq<Line>, ya: nat, y: nat)
    requires y < |lines| && Tallied(cnt, sum, sum2, w8, ch, lines, ya, y, 0)
    ensures Tallied(cnt, sum, sum2, w8, ch, lines, ya, y, lines[y].x0)
  {
    var s := lines[y].x0;
    forall m: Measure, k: nat ensures Progress(m, lines, ya, y, s, k) == Progress(m, lines, ya, y, 0, k) {
      ProgressStarts(m, lines, ya, y, k);
    }
    hide Progress, Cell, IsPlane;
  }

  lemma {:induction false} TallyTurns(cnt: seq<nat>, sum: seq<real>, sum2: seq<real>, w8: nat, ch: nat,
                                      lines: seq<Line>, ya: nat, y: nat)
    requires ya <= y < |lines| && Tallied(cnt, sum, sum2, w8, ch, lines, ya, y, lines[y].x0 + Length(lines[y]))
    ensures Tallied(cnt, sum, sum2, w8, ch, lines, ya, y + 1, 0)
  {
    var e, y' := lines[y].x0 + Length(lines[y]), y + 1;
    forall m: Measure, k: nat ensures Progress(m, lines, ya, y', 0, k) == Progress(m, lines, ya, y, e, k) {
      ProgressEnds(m, lines, ya, y, k);
    }
    hide Progress, Cell, IsPlane, Length;
  }

  /** Cleared accumulators are right for a block row just begun. */
  lemma {:induction false} TallyFresh(cnt: seq<nat>, sum: seq<real>, sum2: seq<real>, w8: nat, ch: nat,
                                      lines: seq<Line>, y: nat)
    requires y <= |lines| && |cnt| == w8 && IsPlane(|sum|, w8, ch) && IsPlane(|sum2|, w8, ch)
    requires forall k :: 0 <= k < |cnt| ==> cnt[k] == 0
    requires forall i :: 0 <= i < |sum| ==> sum[i] == 0.0
    requires forall i :: 0 <= i < |sum2| ==> sum2[i] == 0.0
    ensures Tallied(cnt, sum, sum2, w8, ch, lines, y, y, 0)
  {
    forall m: Measure, k: nat ensures Progress(m, lines, y, y, 0, k) == 0.0 { ProgressFresh(m, lines, y, k); }
    forall k, c | 0 <= k < w8 && 0 <= c < ch ensures Cell(sum, w8, ch, k, c) == 0.0 && Cell(sum2, w8, ch, k, c) == 0.0 {
      CellAt(sum, w8, ch, k, c);
      CellAt(sum2, w8, ch, k, c);
    }
    hide Progress, Cell, IsPlane;
  }

  /** Totals over everything read. */
  ghost predicate Totalled(total: nat, chSum: seq<real>, w: nat, ch: nat, lines: seq<Line>, y: nat, x: int) {
    && y <= |lines| && |chSum| == ch
    && total as real == TotalTo(Count, lines, w, y, x)
    && forall c :: 0 <= c < ch ==> chSum[c] == TotalTo(Sum(c), lines, w, y, x)
  }

  ghost function TotalTo(m: Measure, lines: seq<Line>, w: nat, y: nat, x: int): real
    requires y <= |lines|
  {
    BlockTotal(m, lines, 0, y, 0, w) + if y < |lines| then RowTotal(m, lines[y], 0, x) else 0.0
  }

  lemma {:induction false} TotalStep(m: Measure, lines: seq<Line>, w: nat, y: nat, x: nat)
    requires y < |lines|
    ensures TotalTo(m, lines, w, y, x + 1) == TotalTo(m, lines, w, y, x) + At(m, lines[y], x)
  {
    hide BlockTotal, At;
  }

  lemma {:induction false} TotalStarts(m: Measure, lines: seq<Line>, w: nat, y: nat)
    requires y < |lines|
    ensures TotalTo(m, lines, w, y, lines[y].x0) == TotalTo(m, lines, w, y, 0)
  {
    NothingBefore(m, lines[y], 0, lines[y].x0);
  }

  lemma {:induction false} TotalTurns(m: Measure, lines: seq<Line>, w: nat, ch: nat, y: nat)
    requires y < |lines| && LineOk(lines[y], w, ch)
    ensures TotalTo(m, lines, w, y, lines[y].x0 + Length(lines[y])) == TotalTo(m, lines, w, y + 1, 0)
  {
    NothingBehind(m, lines[y], 0, w, lines[y].x0 + Length(lines[y]));
    hide RowTotal;
    if y + 1 < |lines| { NothingBefore(m, lines[y + 1], 0, 0); }
  }

  /** The scan's running state apart from the cell-row accumulators. */
  ghost predicate StatsOk(total: nat, chSum: seq<real>, b: Box, w: nat, ch: nat, lines: seq<Line>, y: nat, x: int) {
    && Totalled(total, chSum, w, ch, lines, y, x)
    && ColumnsTight(lines, y, x, b.x0, b.x1) && RowsTight(lines, y, b.y0, b.y1)
  }

  lemma {:induction false} StatsSkip(total: nat, chSum: seq<real>, b: Box, w: nat, ch: nat, lines: seq<Line>, y: nat,
                                     x: nat)
    requires StatsOk(total, chSum, b, w, ch, lines, y, x) && y < |lines| && !Covered(lines[y], x)
    ensures StatsOk(total, chSum, b, w, ch, lines, y, x + 1)
  {
    forall m: Measure
      ensures TotalTo(m, lines, w, y, x + 1) == TotalTo(m, lines, w, y, x)
    {
      TotalStep(m, lines, w, y, x);
    }
    ColumnsSkip(lines, y, x, b.x0, b.x1);
    hide TotalTo, ColumnsTight, RowsTight;
  }

  function Widen(b: Box, x: nat): Box {
    b.(x0 := if x < b.x0 then x else b.x0, x1 := if x >= b.x1 then x + 1 else b.x1)
  }

  lemma {:induction false} StatsGrow(total: nat, chSum: seq<real>, chSum': seq<real>, b: Box, w: nat, ch: nat,
                                     lines: seq<Line>, y: nat, x: nat)
    requires StatsOk(total, chSum, b, w, ch, lines, y, x) && y < |lines| && Covered(lines[y], x) && x < FAR
    requires |chSum'| == ch && forall c :: 0 <= c < ch ==> chSum'[c] == chSum[c] + At(Sum(c), lines[y], x)
    ensures StatsOk(total + 1, chSum', Widen(b, x), w, ch, lines, y, x + 1)
  {
    assert At(Count, lines[y], x) == 1.0;
    forall m: Measure
      ensures TotalTo(m, lines, w, y, x + 1) == TotalTo(m, lines, w, y, x) + At(m, lines[y], x)
    {
      TotalStep(m, lines, w, y, x);
    }
    ColumnsGrow(lines, y, x, b.x0, b.x1);
    hide TotalTo, ColumnsTight, RowsTight, At, Covered;
  }

  lemma {:induction false} StatsStart(total: nat, chSum: seq<real>, b: Box, w: nat, ch: nat, lines: seq<Line>, y: nat)
    requires StatsOk(total, chSum, b, w, ch, lines, y, 0) && y < |lines|
    ensures StatsOk(total, chSum, b, w, ch, lines, y, lines[y].x0)
  {
    forall m: Measure
      ensures TotalTo(m, lines, w, y, lines[y].x0) == TotalTo(m, lines, w, y, 0)
    {
      TotalStarts(m, lines, w, y);
    }
    ColumnsStart(lines, y, b.x0, b.x1);
    hide TotalTo, ColumnsTight, RowsTight;
  }

  lemma {:induction false} StatsTurn(total: nat, chSum: seq<real>, b: Box, w: nat, ch: nat, lines: seq<Line>, y: nat,
                                     covered: bool)
    requires y < |lines| && y < FAR && LineOk(lines[y], w, ch) && covered == AnyCovered(lines[y])
    requires StatsOk(total, chSum, b, w, ch, lines, y, lines[y].x0 + Length(lines[y]))
    ensures StatsOk(total, chSum, if covered then b.(y0 := if y < b.y0 then y else b.y0, y1 := y + 1) else b, w, ch,
                    lines, y + 1, 0)
  {
    var e := lines[y].x0 + Length(lines[y]);
    forall m: Measure
      ensures TotalTo(m, lines, w, y, e) == TotalTo(m, lines, w, y + 1, 0)
    {
      TotalTurns(m, lines, w, ch, y);
    }
    ColumnsTurn(lines, y, b.x0, b.x1);
    RowsTurn(lines, y, b.y0, b.y1, covered);
    hide TotalTo, ColumnsTight, RowsTight, Length, LineOk, AnyCovered;
  }

  // ---------------------------------------------------------------- channel extremes

  ghost predicate SampleSeen(lines: seq<Line>, c: nat, y: nat, x: int, u: nat, v: nat) {
    Seen(lines, y, x, u, v) && c < |lines[v].rows|
  }

  /** The most extreme covered sample of channel `c` read so far, and one that was read. */
  ghost predicate IsExtreme(top: bool, b: Bound, lines: seq<Line>, c: nat, y: nat, x: int) {
    && (forall u: nat, v: nat :: SampleSeen(lines, c, y, x, u, v) ==>
          b.Reached? && Beats(top, b.value, Sample(lines[v], c, u)))
    && (b.Reached? ==> exists u: nat, v: nat :: SampleSeen(lines, c, y, x, u, v) && Sample(lines[v], c, u) == b.value)
  }

  ghost predicate AreExtremes(top: bool, s: seq<Bound>, ch: nat, lines: seq<Line>, y: nat, x: int) {
    |s| == ch && forall c :: 0 <= c < ch ==> IsExtreme(top, s[c], lines, c, y, x)
  }

  ghost predicate Ranged(lows: seq<Bound>, highs: seq<Bound>, ch: nat, lines: seq<Line>, y: nat, x: int) {
    AreExtremes(false, lows, ch, lines, y, x) && AreExtremes(true, highs, ch, lines, y, x)
  }

  lemma {:induction false} RangeStarts(lows: seq<Bound>, highs: seq<Bound>, ch: nat, lines: seq<Line>)
    requires |lows| == ch && |highs| == ch && forall c :: 0 <= c < ch ==> lows[c] == Unset && highs[c] == Unset
    ensures Ranged(lows, highs, ch, lines, 0, 0)
  {
    hide Covered;
  }

  /** Where no further pixel was read the extremes stand. */
  lemma {:induction false} RangeStands(lows: seq<Bound>, highs: seq<Bound>, ch: nat, lines: seq<Line>, y: nat, x: int,
                                       y': nat, x': int)
    requires Ranged(lows, highs, ch, lines, y, x)
    requires forall u: nat, v: nat :: Seen(lines, y, x, u, v) == Seen(lines, y', x', u, v)
    ensures Ranged(lows, highs, ch, lines, y', x')
  {
    forall c: nat, u: nat, v: nat ensures SampleSeen(lines, c, y, x, u, v) == SampleSeen(lines, c, y', x', u, v) {}
    forall c | 0 <= c < ch
      ensures IsExtreme(false, lows[c], lines, c, y', x') && IsExtreme(true, highs[c], lines, c, y', x')
    {
      ExtremeStands(false, lows[c], lines, c, y, x, y', x');
      ExtremeStands(true, highs[c], lines, c, y, x, y', x');
    }
    hide IsExtreme, SampleSeen, Seen;
  }

  lemma {:induction false} ExtremeStands(top: bool, b: Bound, lines: seq<Line>, c: nat, y: nat, x: int, y': nat,
                                         x': int)
    requires IsExtreme(top, b, lines, c, y, x)
    requires forall u: nat, v: nat :: SampleSeen(lines, c, y, x, u, v) == SampleSeen(lines, c, y', x', u, v)
    ensures IsExtreme(top, b, lines, c, y', x')
  {
    if b.Reached? {
      var u: nat, v: nat :| SampleSeen(lines, c, y, x, u, v) && Sample(lines[v], c, u) == b.value;
      assert SampleSeen(lines, c, y', x', u, v);
    }
    hide Sample, Covered;
  }

  lemma {:induction false} RangeSkips(lows: seq<Bound>, highs: seq<Bound>, ch: nat, lines: seq<Line>, y: nat, x: nat)
    requires y < |lines| && !Covered(lines[y], x) && Ranged(lows, highs, ch, lines, y, x)
    ensures Ranged(lows, highs, ch, lines, y, x + 1)
  {
    var x' := x + 1;
    forall u: nat, v: nat ensures Seen(lines, y, x, u, v) == Seen(lines, y, x', u, v) {}
    RangeStands(lows, highs, ch, lines, y, x, y, x');
  }

  /** Nothing covered lies before the slices. */
  lemma {:induction false} RangeEnters(lows: seq<Bound>, highs: seq<Bound>, ch: nat, lines: seq<Line>, y: nat)
    requires y < |lines| && Ranged(lows, highs, ch, lines, y, 0)
    ensures Ranged(lows, highs, ch, lines, y, lines[y].x0)
  {
    var s := lines[y].x0;
    forall u: nat, v: nat
      ensures Seen(lines, y, 0, u, v) == Seen(lines, y, s, u, v)
    {
      if v == y { InsideBounds(lines[y], u); }
    }
    RangeStands(lows, highs, ch, lines, y, 0, y, s);
  }

  /** Nothing covered lies behind them. */
  lemma {:induction false} RangeTurns(lows: seq<Bound>, highs: seq<Bound>, ch: nat, lines: seq<Line>, y: nat)
    requires y < |lines| && Ranged(lows, highs, ch, lines, y, lines[y].x0 + Length(lines[y]))
    ensures Ranged(lows, highs, ch, lines, y + 1, 0)
  {
    var e, y' := lines[y].x0 + Length(lines[y]), y + 1;
    forall u: nat, v: nat
      ensures Seen(lines, y, e, u, v) == Seen(lines, y', 0, u, v)
    {
      if v == y { InsideBounds(lines[y], u); }
    }
    RangeStands(lows, highs, ch, lines, y, e, y', 0);
  }

  lemma {:induction false} ExtremeGrows(top: bool, b: Bound, lines: seq<Line>, c: nat, y: nat, x: nat)
    requires y < |lines| && Covered(lines[y], x) && IsExtreme(top, b, lines, c, y, x)
    ensures IsExtreme(top, if c < |lines[y].rows| then Stretch(top, b, Sample(lines[y], c, x)) else b, lines, c, y,
                      x + 1)
  {
    var x', s := x + 1, Sample(lines[y], c, x);
    var b' := if c < |lines[y].rows| then Stretch(top, b, s) else b;
    forall u: nat, v: nat | SampleSeen(lines, c, y, x', u, v)
      ensures SampleSeen(lines, c, y, x, u, v) || (u == x && v == y && c < |lines[y].rows|)
    {}
    assert c < |lines[y].rows| ==> SampleSeen(lines, c, y, x', x, y);
    if b.Reached? {
      var u: nat, v: nat :| SampleSeen(lines, c, y, x, u, v) && Sample(lines[v], c, u) == b.value;
      assert SampleSeen(lines, c, y, x', u, v);
    }
    hide Sample, Covered, Stretch, SampleSeen;
  }

  lemma {:induction false} RangeGrows(lows: seq<Bound>, highs: seq<Bound>, lows': seq<Bound>, highs': seq<Bound>,
                                      ch: nat, lines: seq<Line>, y: nat, x: nat)
    requires y < |lines| && Covered(lines[y], x) && |lines[y].rows| <= ch && Ranged(lows, highs, ch, lines, y, x)
    requires |lows'| == |highs'| == ch
    requires forall c :: 0 <= c < |lines[y].rows| ==> lows'[c] == Stretch(false, lows[c], Sample(lines[y], c, x))
    requires forall c :: 0 <= c < |lines[y].rows| ==> highs'[c] == Stretch(true, highs[c], Sample(lines[y], c, x))
    requires forall c :: |lines[y].rows| <= c < ch ==> lows'[c] == lows[c] && highs'[c] == highs[c]
    ensures Ranged(lows', highs', ch, lines, y, x + 1)
  {
    var x' := x + 1;
    forall c | 0 <= c < ch
      ensures IsExtreme(false, lows'[c], lines, c, y, x') && IsExtreme(true, highs'[c], lines, c, y, x')
    {
      ExtremeGrows(false, lows[c], lines, c, y, x);
      ExtremeGrows(true, highs[c], lines, c, y, x);
    }
    hide IsExtreme, Sample, Covered, Stretch;
  }

  ghost predicate AnyBefore(l: Line, x: int) {
    exists u: nat :: u < x && Covered(l, u)
  }

  lemma {:induction false} AnyStep(l: Line, x: nat)
    ensures AnyBefore(l, x + 1) == (AnyBefore(l, x) || Covered(l, x))
    ensures !AnyBefore(l, l.x0)
    ensures AnyBefore(l, l.x0 + Length(l)) == AnyCovered(l)
  {
    forall u: nat | Covered(l, u) ensures l.x0 <= u < l.x0 + Length(l) { InsideBounds(l, u); }
    hide Covered, Length;
    if AnyBefore(l, x) {
      var u: nat :| u < x && Covered(l, u);
      assert u < x + 1;
    }
    if Covered(l, x) { assert x < x + 1; }
  }

  lemma {:induction false} ColumnBlock(x: nat, w: nat, w8: nat)
    requires x < w <= BLOCK * w8
    ensures x / BLOCK < w8
  {
  }

  /** A covered pixel joins its cell column, the totals and the box. */
  method ScanPixel(cnt: array<nat>, sum: array<real>, sum2: array<real>, chMin: array<Bound>, chMax: array<Bound>,
                   chSum: array<real>, w: nat, w8: nat, ch: nat,
                   lines: seq<Line>, ghost ya: nat, y: nat, x: nat, total: nat, b: Box) returns (total': nat, b': Box)
    requires sum != sum2 && sum != chSum && sum2 != chSum && chMin != chMax
    requires y < |lines| && x < w <= FAR && w <= BLOCK * w8 && |lines[y].rows| <= ch && Covered(lines[y], x)
    requires Tallied(cnt[..], sum[..], sum2[..], w8, ch, lines, ya, y, x)
    requires StatsOk(total, chSum[..], b, w, ch, lines, y, x) && Ranged(chMin[..], chMax[..], ch, lines, y, x)
    modifies cnt, sum, sum2, chMin, chMax, chSum
    ensures Tallied(cnt[..], sum[..], sum2[..], w8, ch, lines, ya, y, x + 1)
    ensures StatsOk(total', chSum[..], b', w, ch, lines, y, x + 1)
    ensures Ranged(chMin[..], chMax[..], ch, lines, y, x + 1)
  {
    hide IsPlane, Cell, At, Progress, TotalTo, ColumnsTight, RowsTight, Covered, Stretch, IsExtreme;
    ghost var C, S, Q, T, L, U := cnt[..], sum[..], sum2[..], chSum[..], chMin[..], chMax[..];
    ColumnBlock(x, w, w8);
    var k := x / BLOCK;
    cnt[k] := cnt[k] + 1;
    ghost var C' := cnt[..];
    assert C' == C[k := C[k] + 1] && sum[..] == S && sum2[..] == Q && chSum[..] == T;
    AddPixel(sum, sum2, chMin, chMax, chSum, w8, ch, lines[y], k, x);
    assert cnt[..] == C';
    RangeGrows(L, U, chMin[..], chMax[..], ch, lines, y, x);
    TallyGrows(C, S, Q, cnt[..], sum[..], sum2[..], w8, ch, lines, ya, y, x);
    StatsGrow(total, T, chSum[..], b, w, ch, lines, y, x);
    total', b' := total + 1, Widen(b, x);
  }

  /** One image row: every covered pixel, and the row's part of the box. */
  method ScanRow(cnt: array<nat>, sum: array<real>, sum2: array<real>, chMin: array<Bound>, chMax: array<Bound>,
                 chSum: array<real>, w: nat, w8: nat, ch: nat,
                 lines: seq<Line>, ghost ya: nat, y: nat, total: nat, b: Box) returns (total': nat, b': Box)
    requires sum != sum2 && sum != chSum && sum2 != chSum && chMin != chMax
    requires ya <= y < |lines| && y < FAR && w <= FAR && w <= BLOCK * w8 && LineOk(lines[y], w, ch)
    requires Tallied(cnt[..], sum[..], sum2[..], w8, ch, lines, ya, y, 0)
    requires StatsOk(total, chSum[..], b, w, ch, lines, y, 0) && Ranged(chMin[..], chMax[..], ch, lines, y, 0)
    modifies cnt, sum, sum2, chMin, chMax, chSum
    ensures Tallied(cnt[..], sum[..], sum2[..], w8, ch, lines, ya, y + 1, 0)
    ensures StatsOk(total', chSum[..], b', w, ch, lines, y + 1, 0)
    ensures Ranged(chMin[..], chMax[..], ch, lines, y + 1, 0)
  {
    var l := lines[y];
    TallyStarts(cnt[..], sum[..], sum2[..], w8, ch, lines, ya, y);
    StatsStart(total, chSum[..], b, w, ch, lines, y);
    RangeEnters(chMin[..], chMax[..], ch, lines, y);
    AnyStep(l, l.x0);
    total', b' := total, b;
    var covered := false;
    hide Tallied, StatsOk, Ranged, Covered, AnyBefore, AnyCovered;
    for x := l.x0 to l.x0 + Length(l)
      invariant Tallied(cnt[..], sum[..], sum2[..], w8, ch, lines, ya, y, x)
      invariant StatsOk(total', chSum[..], b', w, ch, lines, y, x)
      invariant Ranged(chMin[..], chMax[..], ch, lines, y, x)
      invariant covered == AnyBefore(l, x)
    {
      AnyStep(l, x);
      if Covered(l, x) {
        covered := true;
        total', b' := ScanPixel(cnt, sum, sum2, chMin, chMax, chSum, w, w8, ch, lines, ya, y, x, total', b');
      } else {
        TallySkips(cnt[..], sum[..], sum2[..], w8, ch, lines, ya, y, x);
        StatsSkip(total', chSum[..], b', w, ch, lines, y, x);
        RangeSkips(chMin[..], chMax[..], ch, lines, y, x);
      }
    }
    TallyTurns(cnt[..], sum[..], sum2[..], w8, ch, lines, ya, y);
    StatsTurn(total', chSum[..], b', w, ch, lines, y, covered);
    RangeTurns(chMin[..], chMax[..], ch, lines, y);
    if covered {
      b' := b'.(y0 := if y < b'.y0 then y else b'.y0, y1 := y + 1);
    }
  }
}
