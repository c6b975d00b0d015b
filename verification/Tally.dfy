/** What the streaming scan adds up: covered pixels, their values and squares, over row segments and
    blocks (crates/mmm-core/src/analyze.rs, `scan_reader`). */
module Tally {
  import opened Naturals
  import opened Reals

  const BLOCK: nat := 8

  /** One image row as read: clipped to start at column `x0`, one slice a channel; no slices where the
      storage has no such row. */
  datatype Line = Line(x0: nat, rows: seq<seq<real>>)

  /** What is counted or summed over covered pixels. */
  datatype Measure = Count | Sum(c: nat) | Squares(c: nat)

  predicate InRow(l: Line, c: nat, x: int)
    requires c < |l.rows|
  {
    0 <= x - l.x0 < |l.rows[c]|
  }

  predicate Inside(l: Line, x: int) {
    l.rows != [] && forall c :: 0 <= c < |l.rows| ==> InRow(l, c, x)
  }

  /** Covered: no channel is zero there. */
  predicate Covered(l: Line, x: int) {
    Inside(l, x) && forall c :: 0 <= c < |l.rows| ==> Sample(l, c, x) != 0.0
  }

  function Sample(l: Line, c: nat, x: int): real {
    if c < |l.rows| && InRow(l, c, x) then l.rows[c][x - l.x0] else 0.0
  }

  ghost predicate NonZeroAt(l: Line, k: nat) {
    l.rows != [] && forall c :: 0 <= c < |l.rows| ==> k < |l.rows[c]| && l.rows[c][k] != 0.0
  }

  /** Covered are exactly the pixels stored `k` places into the row with no channel zero; what is read there is what is
      stored. */
  lemma {:induction false} CoveredIff(l: Line, x: int)
    ensures Covered(l, x) <==> exists k: nat :: NonZeroAt(l, k) && x == l.x0 + k
    ensures forall c: nat, k: nat :: c < |l.rows| && k < |l.rows[c]| ==> Sample(l, c, l.x0 + k) == l.rows[c][k]
  {
    if Covered(l, x) {
      assert InRow(l, 0, x);
      var k := x - l.x0;
      forall c | 0 <= c < |l.rows| ensures k < |l.rows[c]| && l.rows[c][k] != 0.0 {
        assert InRow(l, c, x) && Sample(l, c, x) == l.rows[c][k];
      }
      assert NonZeroAt(l, k);
    }
  }

  ghost function At(m: Measure, l: Line, x: int): real {
    if !Covered(l, x) then 0.0
    else
      match m
      case Count => 1.0
      case Sum(c) => Sample(l, c, x)
      case Squares(c) => Mul(Sample(l, c, x), Sample(l, c, x))
  }

  /** The measure over columns [a, b) of a row. */
  ghost function RowTotal(m: Measure, l: Line, a: int, b: int): real
    decreases b - a
  {
    if b <= a then 0.0 else RowTotal(m, l, a, b - 1) + At(m, l, b - 1)
  }

  /** The measure over rows [ya, yb) and columns [a, b). */
  ghost function BlockTotal(m: Measure, lines: seq<Line>, ya: nat, yb: nat, a: int, b: int): real
    requires yb <= |lines|
    decreases yb
  {
    if yb <= ya then 0.0 else BlockTotal(m, lines, ya, yb - 1, a, b) + RowTotal(m, lines[yb - 1], a, b)
  }

  /** All slices equally long, and inside the canvas. */
  predicate LineOk(l: Line, w: nat, ch: nat) {
    |l.rows| <= ch && l.x0 + Length(l) <= w && forall c :: 0 <= c < |l.rows| ==> |l.rows[c]| == Length(l)
  }

  function Length(l: Line): nat {
    if l.rows == [] then 0 else |l.rows[0]|
  }

  // ---------------------------------------------------------------- laws

  lemma {:induction false} InsideBounds(l: Line, x: int)
    ensures Inside(l, x) ==> l.x0 <= x < l.x0 + Length(l)
  {
    if Inside(l, x) { assert InRow(l, 0, x); }
  }

  lemma {:induction false} NothingBefore(m: Measure, l: Line, a: int, b: int)
    requires b <= l.x0
    ensures RowTotal(m, l, a, b) == 0.0
    decreases b - a
  {
    if a < b {
      InsideBounds(l, b - 1);
      NothingBefore(m, l, a, b - 1);
    }
  }

  lemma {:induction false} NothingBehind(m: Measure, l: Line, a: int, b: int, e: int)
    requires l.rows == [] || l.x0 + Length(l) <= e
    ensures RowTotal(m, l, a, b) == RowTotal(m, l, a, Min(b, e))
    decreases b - a
  {
    InsideBounds(l, b - 1);
    if a < b && e < b { NothingBehind(m, l, a, b - 1, e); }
  }

  lemma {:induction false} RowSplit(m: Measure, l: Line, a: int, b: int, c: int)
    requires a <= b <= c
    ensures RowTotal(m, l, a, c) == RowTotal(m, l, a, b) + RowTotal(m, l, b, c)
    decreases c - b
  {
    if b < c { RowSplit(m, l, a, b, c - 1); }
  }

  lemma {:induction false} BlockSplit(m: Measure, lines: seq<Line>, ya: nat, yb: nat, a: int, b: int, c: int)
    requires yb <= |lines| && a <= b <= c
    ensures BlockTotal(m, lines, ya, yb, a, c)
              == BlockTotal(m, lines, ya, yb, a, b) + BlockTotal(m, lines, ya, yb, b, c)
    decreases yb
  {
    hide RowTotal;
    if ya < yb {
      BlockSplit(m, lines, ya, yb - 1, a, b, c);
      RowSplit(m, lines[yb - 1], a, b, c);
    }
  }

  lemma {:induction false} RowsSplit(m: Measure, lines: seq<Line>, ya: nat, yb: nat, yc: nat, a: int, b: int)
    requires ya <= yb <= yc <= |lines|
    ensures BlockTotal(m, lines, ya, yc, a, b)
              == BlockTotal(m, lines, ya, yb, a, b) + BlockTotal(m, lines, yb, yc, a, b)
    decreases yc
  {
    hide RowTotal;
    if yb < yc { RowsSplit(m, lines, ya, yb, yc - 1, a, b); }
  }

  // ---------------------------------------------------------------- blocks add up to the whole

  /** The blocks of one block row, up to block `k`. */
  ghost function BlocksOfRow(m: Measure, lines: seq<Line>, ya: nat, yb: nat, k: nat): real
    requires yb <= |lines|
  {
    if k == 0 then 0.0
    else BlocksOfRow(m, lines, ya, yb, k - 1) + BlockTotal(m, lines, ya, yb, BLOCK * (k - 1), BLOCK * k)
  }

  lemma {:induction false} BlocksOfRowAdd(m: Measure, lines: seq<Line>, ya: nat, yb: nat, k: nat)
    requires yb <= |lines|
    ensures BlocksOfRow(m, lines, ya, yb, k) == BlockTotal(m, lines, ya, yb, 0, BLOCK * k)
  {
    if k == 0 {
      EmptyBlock(m, lines, ya, yb, 0);
    } else {
      BlocksOfRowAdd(m, lines, ya, yb, k - 1);
      BlockSplit(m, lines, ya, yb, 0, BLOCK * (k - 1), BLOCK * k);
      hide BlockTotal;
    }
  }

  lemma {:induction false} EmptyBlock(m: Measure, lines: seq<Line>, ya: nat, yb: nat, a: int)
    requires yb <= |lines|
    ensures BlockTotal(m, lines, ya, yb, a, a) == 0.0
    decreases yb
  {
    if ya < yb { EmptyBlock(m, lines, ya, yb - 1, a); }
  }

  /** Row at which block row `j` starts, the panel's height where it would pass it. */
  function RowOfBlock(j: nat, h: nat): nat {
    if BLOCK * j < h then BLOCK * j else h
  }

  /** All blocks of the first `j` block rows. */
  ghost function AllBlocks(m: Measure, lines: seq<Line>, w8: nat, j: nat): real {
    if j == 0 then 0.0
    else
      AllBlocks(m, lines, w8, j - 1)
      + BlocksOfRow(m, lines, RowOfBlock(j - 1, |lines|), RowOfBlock(j, |lines|), w8)
  }

  /** The block totals add up to the total over the panel. */
  lemma {:induction false} BlocksAddUp(m: Measure, lines: seq<Line>, w8: nat, j: nat)
    ensures AllBlocks(m, lines, w8, j) == BlockTotal(m, lines, 0, RowOfBlock(j, |lines|), 0, BLOCK * w8)
  {
    hide BlockTotal, BlocksOfRow;
    if j == 0 {
      NoRows(m, lines, 0, BLOCK * w8);
    } else {
      BlocksAddUp(m, lines, w8, j - 1);
      BlocksOfRowAdd(m, lines, RowOfBlock(j - 1, |lines|), RowOfBlock(j, |lines|), w8);
      RowsSplit(m, lines, 0, RowOfBlock(j - 1, |lines|), RowOfBlock(j, |lines|), 0, BLOCK * w8);
    }
  }

  lemma {:induction false} NoRows(m: Measure, lines: seq<Line>, a: int, b: int)
    ensures BlockTotal(m, lines, 0, 0, a, b) == 0.0
  {
  }
}
