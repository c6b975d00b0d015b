/** When the pivot threshold of the solver cannot bite in a surface fit: the stabilizer keeps every pivot of a small
    mosaic above it (crates/mmm-core/src/surfaces.rs, `fit_surfaces`, with linalg.rs, `solve_dense`). */
module SurfacePivots {
  import opened Conditioning
  import opened LeastSquares
  import opened Linalg
  import opened Photometry
  import opened PivotSafety
  import opened Reals
  import opened Surfaces

  // ---------------------------------------------------------------- sizes of the rows

  /** How many of the first `hi` positions lie in the block of `len` from `lo`. */
  function Inside(hi: nat, lo: nat, len: nat): nat {
    if hi <= lo then 0 else if hi - lo <= len then hi - lo else len
  }

  /** Entries bounded by `top` on two blocks, and zero elsewhere. */
  ghost predicate OnBlocks(d: Vector, lo: nat, lo': nat, len: nat, len': nat, top: real) {
    forall j :: 0 <= j < |d| ==>
      Abs(d[j]) <= top && (d[j] != 0.0 ==> lo <= j < lo + len || lo' <= j < lo' + len')
  }

  lemma {:induction false} BlockSizes(d: Vector, lo: nat, lo': nat, len: nat, len': nat, top: real, hi: nat)
    requires OnBlocks(d, lo, lo', len, len', top) && hi <= |d| && top >= 0.0
    ensures Size(d, hi) <= Mul((Inside(hi, lo, len) + Inside(hi, lo', len')) as real, top)
  {
    if hi == 0 {
      assert Mul(0.0, top) == 0.0;
    } else {
      var k, k0 := Inside(hi, lo, len) + Inside(hi, lo', len'), Inside(hi - 1, lo, len) + Inside(hi - 1, lo', len');
      BlockSizes(d, lo, lo', len, len', top, hi - 1);
      var j := hi - 1;
      assert Abs(d[j]) <= top && (d[j] != 0.0 ==> k > k0);
      if k == k0 {
      } else {
        OneMore(k0, top);
        MulGrows((k0 + 1) as real, top, k as real, top);
      }
    }
  }

  /** The basis is bounded by `top` at a point. */
  ghost predicate BasisWithin(t: nat, x: real, y: real, top: real)
    requires t == 1 || t == 3 || t == 6
  {
    top >= 0.0 && forall u :: 0 <= u < t ==> Abs(Basis(t, x, y)[u]) <= top
  }

  lemma {:induction false} BlockMax(d: Vector, lo: nat, lo': nat, len: nat, len': nat, top: real)
    requires OnBlocks(d, lo, lo', len, len', top) && top >= 0.0
    ensures MaxAbs(d) <= top && Size(d, |d|) <= Mul((len + len') as real, top)
  {
    TopBound(d, top);
    BlockSizes(d, lo, lo', len, len', top, |d|);
    var k := Inside(|d|, lo, len) + Inside(|d|, lo', len');
    MulGrows(k as real, top, (len + len') as real, top);
  }

  // ---------------------------------------------------------------- what the assembled terms weigh

  /** `more` weighs at most `w` units more than `base`, a unit being a row with `len` entries bounded by `top`. */
  ghost predicate WeighsBy(base: Terms, more: Terms, w: real, len: real, top: real) {
    && (base.Snoc? ==> IsRows(base, |base.last.coef|)) && (more.Snoc? ==> IsRows(more, |more.last.coef|))
    && Peak(more) <= Peak(base) + Mul(w, Mul(top, top))
    && Spread(more) <= Spread(base) + Mul(w, Mul(top, Mul(len, top)))
  }

  lemma {:induction false} WeighsNothing(base: Terms, n: nat, len: real, top: real)
    requires IsRows(base, n)
    ensures WeighsBy(base, base, 0.0, len, top)
  {
    RowsOwn(base, n);
    assert Mul(0.0, Mul(top, top)) == 0.0 && Mul(0.0, Mul(top, Mul(len, top))) == 0.0;
  }

  lemma {:induction false} WeighsTogether(a: Terms, b: Terms, c: Terms, w: real, w': real, len: real, top: real)
    requires WeighsBy(a, b, w, len, top) && WeighsBy(b, c, w', len, top)
    ensures WeighsBy(a, c, w + w', len, top)
  {
    hide Mul, Peak, Spread;
    Distribute(Mul(top, top), w, w');
    Distribute(Mul(top, Mul(len, top)), w, w');
  }

  lemma {:induction false} WeighsMore(a: Terms, b: Terms, w: real, w': real, len: real, top: real)
    requires WeighsBy(a, b, w, len, top) && w <= w' && len >= 0.0 && top >= 0.0 && w >= 0.0
    ensures WeighsBy(a, b, w', len, top)
  {
    hide Mul, Peak, Spread;
    MulSign(top, top);
    MulSign(len, top);
    MulSign(top, Mul(len, top));
    MulGrows(w, Mul(top, top), w', Mul(top, top));
    MulGrows(w, Mul(top, Mul(len, top)), w', Mul(top, Mul(len, top)));
  }

  lemma {:induction false} WeighsRow(rows: Terms, row: Row, n: nat, lo: nat, lo': nat, len: nat, len': nat, top: real)
    requires IsRows(rows, n) && |row.coef| == n && row.weight >= 0.0 && top >= 0.0
    requires OnBlocks(row.coef, lo, lo', len, len', top)
    ensures WeighsBy(rows, Snoc(rows, row), row.weight, (len + len') as real, top)
  {
    hide Mul, Peak, Spread, OnBlocks, Size, MaxAbs;
    BlockMax(row.coef, lo, lo', len, len', top);
    RowWeighs(rows, row, n, top, Mul((len + len') as real, top));
  }

  lemma {:induction false} ZeroTimes(w: real)
    ensures Mul(0.0, w) == 0.0
  {
  }

  lemma {:induction false} PairedOnBlocks(n: nat, bi: nat, bj: nat, t: nat, x: real, y: real, top: real)
    requires (t == 1 || t == 3 || t == 6) && Blocks(n, t, bi, bj) && BasisWithin(t, x, y, top)
    ensures OnBlocks(Paired(n, bi, bj, Basis(t, x, y), t), bi, bj, t, t, top)
  {
    hide Basis;
  }

  lemma {:induction false} BlockOnBlocks(n: nat, bi: nat, t: nat, x: real, y: real, top: real)
    requires (t == 1 || t == 3 || t == 6) && bi + t <= n && BasisWithin(t, x, y, top)
    ensures OnBlocks(Block(n, bi, Basis(t, x, y)), bi, bi, t, t, top)
  {
    hide Basis;
  }

  lemma {:induction false} CellsWeigh(base: Terms, panels: nat, t: nat, n: nat, a: nat, b: nat, cells: seq<Cell>,
                                      w: real, top: real)
    requires Shape(panels, t, n) && a < panels && b < panels && a != b && IsRows(base, n) && w >= 0.0 && top >= 0.0
    requires forall k :: 0 <= k < |cells| ==> BasisWithin(t, cells[k].x, cells[k].y, top)
    ensures WeighsBy(base, CellTerms(base, panels, t, n, a, b, cells, w), Mul(|cells| as real, w), (t + t) as real, top)
  {
    hide WeighsBy, OnBlocks, Paired, Mul, Start, Basis, Blocks, BasisWithin, IsRows;
    if cells == [] {
      WeighsNothing(base, n, (t + t) as real, top);
      ZeroTimes(w);
    } else {
      var init, c := cells[..|cells| - 1], cells[|cells| - 1];
      CellsWeigh(base, panels, t, n, a, b, init, w, top);
      BlocksApart(panels, t, n, a, b);
      var terms, d := CellTerms(base, panels, t, n, a, b, init, w),
          Paired(n, Start(a, t), Start(b, t), Basis(t, c.x, c.y), t);
      PairedOnBlocks(n, Start(a, t), Start(b, t), t, c.x, c.y, top);
      WeighsRow(terms, Row(w, d, -c.r), n, Start(a, t), Start(b, t), t, t, top);
      WeighsTogether(base, terms, Snoc(terms, Row(w, d, -c.r)), Mul(|init| as real, w), w, (t + t) as real, top);
      OneMore(|init|, w);
    }
  }

  lemma {:induction false} PointsWeigh(base: Terms, panels: nat, t: nat, n: nat, p: nat, points: seq<Point>, w: real,
                                       top: real)
    requires Shape(panels, t, n) && p < panels && IsRows(base, n) && w >= 0.0 && top >= 0.0
    requires forall k :: 0 <= k < |points| ==> BasisWithin(t, points[k].x, points[k].y, top)
    ensures WeighsBy(base, PointTerms(base, panels, t, n, p, points, w), Mul(|points| as real, w), (t + t) as real, top)
  {
    hide WeighsBy, OnBlocks, Block, Mul, Start, Basis, BasisWithin, IsRows;
    if points == [] {
      WeighsNothing(base, n, (t + t) as real, top);
      ZeroTimes(w);
    } else {
      var init, c := points[..|points| - 1], points[|points| - 1];
      PointsWeigh(base, panels, t, n, p, init, w, top);
      BlockInside(panels, t, n, p);
      var terms, d := PointTerms(base, panels, t, n, p, init, w), Block(n, Start(p, t), Basis(t, c.x, c.y));
      BlockOnBlocks(n, Start(p, t), t, c.x, c.y, top);
      WeighsRow(terms, Row(w, d, 0.0), n, Start(p, t), Start(p, t), t, t, top);
      WeighsTogether(base, terms, Snoc(terms, Row(w, d, 0.0)), Mul(|init| as real, w), w, (t + t) as real, top);
      OneMore(|init|, w);
    }
  }

  /** Every basis the data evaluate is bounded by `top`. */
  ghost predicate DataWithin(t: nat, overlaps: seq<Overlap>, feet: seq<seq<Point>>, top: real)
    requires t == 1 || t == 3 || t == 6
  {
    && top >= 0.0
    && (forall o, k :: 0 <= o < |overlaps| && 0 <= k < |overlaps[o].cells| ==>
          BasisWithin(t, overlaps[o].cells[k].x, overlaps[o].cells[k].y, top))
    && (forall p, k :: 0 <= p < |feet| && 0 <= k < |feet[p]| ==> BasisWithin(t, feet[p][k].x, feet[p][k].y, top))
  }

  lemma {:induction false} ShareSums(total: real, m: nat)
    requires m > 0 && total >= 0.0
    ensures Mul(m as real, Share(total, m)) == total
  {
  }

  lemma {:induction false} OverlapsWeigh(panels: nat, t: nat, n: nat, overlaps: seq<Overlap>, top: real)
    requires Shape(panels, t, n) && OverlapsIn(overlaps, panels) && DataWithin(t, overlaps, [], top)
    ensures WeighsBy(Nil, OverlapTerms(panels, t, n, overlaps), |overlaps| as real, (t + t) as real, top)
  {
    if overlaps == [] {
      WeighsNothing(Nil, n, (t + t) as real, top);
    } else {
      var init, o := overlaps[..|overlaps| - 1], overlaps[|overlaps| - 1];
      OverlapsWeigh(panels, t, n, init, top);
      var terms := OverlapTerms(panels, t, n, init);
      hide WeighsBy, Shape, BasisWithin;
      if o.cells == [] {
        WeighsMore(Nil, terms, |init| as real, |overlaps| as real, (t + t) as real, top);
      } else {
        var w := Share(1.0, |o.cells|);
        CellsWeigh(terms, panels, t, n, o.a, o.b, o.cells, w, top);
        ShareSums(1.0, |o.cells|);
        WeighsTogether(Nil, terms, OverlapTerms(panels, t, n, overlaps), |init| as real, 1.0, (t + t) as real, top);
      }
    }
  }

  lemma {:induction false} FeetWeigh(base: Terms, panels: nat, t: nat, n: nat, feet: seq<seq<Point>>, hi: nat,
                                     top: real)
    requires Shape(panels, t, n) && hi <= |feet| == panels && IsRows(base, n) && DataWithin(t, [], feet, top)
    ensures WeighsBy(base, FootprintTerms(base, panels, t, n, feet, hi), hi as real * RIDGE_LAMBDA, (t + t) as real,
                     top)
  {
    hide WeighsBy, Shape, BasisWithin, PointTerms, Share, IsRows;
    if hi == 0 {
      WeighsNothing(base, n, (t + t) as real, top);
    } else {
      FeetWeigh(base, panels, t, n, feet, hi - 1, top);
      var terms, p := FootprintTerms(base, panels, t, n, feet, hi - 1), hi - 1;
      if feet[p] == [] {
        WeighsMore(base, terms, p as real * RIDGE_LAMBDA, hi as real * RIDGE_LAMBDA, (t + t) as real, top);
      } else {
        PointsWeigh(terms, panels, t, n, p, feet[p], Share(RIDGE_LAMBDA, |feet[p]|), top);
        ShareSums(RIDGE_LAMBDA, |feet[p]|);
        WeighsTogether(base, terms, FootprintTerms(base, panels, t, n, feet, hi), p as real * RIDGE_LAMBDA,
                       RIDGE_LAMBDA, (t + t) as real, top);
      }
    }
  }

  /** Units of the data: one for each overlap, a ridge for each panel. */
  function DataUnits(panels: nat, overlaps: nat): real {
    overlaps as real + panels as real * RIDGE_LAMBDA
  }

  lemma {:induction false} DataWeighs(panels: nat, t: nat, n: nat, overlaps: seq<Overlap>, feet: seq<seq<Point>>,
                                      top: real)
    requires Shape(panels, t, n) && OverlapsIn(overlaps, panels) && |feet| == panels
             && DataWithin(t, overlaps, feet, top)
    ensures WeighsBy(Nil, DataTerms(panels, t, n, overlaps, feet), DataUnits(panels, |overlaps|), (t + t) as real, top)
  {
    hide WeighsBy, Shape, BasisWithin;
    OverlapsWeigh(panels, t, n, overlaps, top);
    FeetWeigh(OverlapTerms(panels, t, n, overlaps), panels, t, n, feet, panels, top);
    WeighsTogether(Nil, OverlapTerms(panels, t, n, overlaps), DataTerms(panels, t, n, overlaps, feet),
      |overlaps| as real, panels as real * RIDGE_LAMBDA, (t + t) as real, top);
  }

  // ---------------------------------------------------------------- the stabilizer

  /** Curvature along a coordinate is at most the peak. */
  lemma {:induction false} CurvatureBound(rows: Terms, k: nat, n: nat)
    requires IsRows(rows, n) && k < n
    ensures rows.Snoc? ==> IsRows(rows, |rows.last.coef|)
    ensures Quad(rows, Unit(k, n)) <= Peak(rows)
  {
    RowsOwn(rows, n);
    if rows.Snoc? {
      CurvatureBound(rows.init, k, n);
      var w, c := rows.last.weight, rows.last.coef;
      UnitPicks(c, k);
      var top, a := MaxAbs(c), Abs(c[k]);
      AbsSquare(c[k]);
      hide Mul, Dot, Unit;
      MulGrows(a, a, top, top);
      MulGrows(w, Mul(a, a), w, Mul(top, top));
    }
  }

  lemma {:induction false} StabilizerWeighs(base: Terms, n: nat, hi: nat, peak: real)
    requires IsRows(base, n) && hi <= n
    requires (base.Snoc? ==> IsRows(base, |base.last.coef|)) && Peak(base) <= peak
    ensures var terms, extra := StabilizerTerms(base, n, hi), Mul(hi as real, STABILIZER * (1.0 + peak));
            (terms.Snoc? ==> IsRows(terms, |terms.last.coef|))
            && Peak(terms) <= Peak(base) + extra && Spread(terms) <= Spread(base) + extra
  {
    hide Peak, Spread, Unit, Quad;
    if hi == 0 {
      assert Mul(0.0, STABILIZER * (1.0 + peak)) == 0.0;
    } else {
      StabilizerWeighs(base, n, hi - 1, peak);
      CurvatureBound(base, hi - 1, n);
      UnitWeighs(StabilizerTerms(base, n, hi - 1), StabilizerWeight(base, hi - 1, n), hi - 1, n);
      OneMore(hi - 1, STABILIZER * (1.0 + peak));
    }
  }

  lemma {:induction false} StabilizerIsCoercive(base: Terms, z: Vector, hi: nat, k: nat)
    requires IsRows(base, |z|) && k < hi <= |z|
    ensures Mul(STABILIZER, Mul(z[k], z[k])) <= Quad(StabilizerTerms(base, |z|, hi), z)
  {
    var w, x := StabilizerWeight(base, hi - 1, |z|), z[hi - 1];
    DotUnit(hi - 1, z);
    SquareSign(x);
    MulSign(w, Mul(x, x));
    MulGrows(STABILIZER, Mul(x, x), w, Mul(x, x));
    if k < hi - 1 { StabilizerIsCoercive(base, z, hi - 1, k); }
    hide Mul, Dot, Unit;
  }

  /** Few enough panels and overlaps for the pivot threshold against the stabilizer: four panels of order 2 are. */
  predicate SmallFit(panels: nat, t: nat, overlaps: nat, top: real) {
    var n, units := Start(panels, t) as real, DataUnits(panels, overlaps);
    var peak, spread := Mul(units, Mul(top, top)), Mul(units, Mul(top, Mul((t + t) as real, top)));
    var extra := Mul(n, STABILIZER * (1.0 + peak));
    Mul(n, Mul(PIVOT_SHARE * AtLeastOne(peak + extra), 1.0 + (spread + extra))) < STABILIZER
  }

  /** No pivot of a small fit is below the threshold. */
  lemma {:induction false} SmallFitIsSafe(A: Matrix, b: Vector, panels: nat, t: nat, overlaps: seq<Overlap>,
                                          feet: seq<seq<Point>>, gauge: seq<nat>, s: seq<real>, c: Vector, top: real,
                                          col: nat)
    requires Shape(panels, t, Start(panels, t)) && OverlapsIn(overlaps, panels) && |feet| == panels
             && DataWithin(t, overlaps, feet, top)
    requires var n := Start(panels, t);
             && IsSquare(|s|, n) && Encodes(A, b, StabilizerTerms(DataTerms(panels, t, n, overlaps, feet), n, n), n)
             && IsGauged(A, b, gauge, Rows(s, n), c, n)
    requires SmallFit(panels, t, |overlaps|, top)
    ensures !NearlySingular(Rows(s, Start(panels, t)), Start(panels, t), col, Tiny(s))
  {
    hide Encodes, IsGauged, NearlySingular, Tiny, Rows, Peak, Spread, Quad, Mul, DataTerms, Shape, DataWithin, Start;
    var n := Start(panels, t);
    var base := DataTerms(panels, t, n, overlaps, feet);
    var terms := StabilizerTerms(base, n, n);
    forall z: Vector, k: nat | |z| == n && k < n ensures Mul(STABILIZER, Mul(z[k], z[k])) <= Quad(terms, z) {
      StabilizerIsCoercive(base, z, n, k);
    }
    DataWeighs(panels, t, n, overlaps, feet, top);
    NilWeighs();
    var units := DataUnits(panels, |overlaps|);
    var peak, spread := Mul(units, Mul(top, top)), Mul(units, Mul(top, Mul((t + t) as real, top)));
    StabilizerWeighs(base, n, n, peak);
    var extra := Mul(n as real, STABILIZER * (1.0 + peak));
    MildFromBounds(terms, n, STABILIZER, peak + extra, spread + extra);
    MildIsSolved(A, b, terms, gauge, s, c, n, STABILIZER, col);
  }

  /** A small fit always succeeds. */
  lemma {:induction false} SmallFitSolved(panels: nat, t: nat, overlaps: seq<Overlap>, feet: seq<seq<Point>>,
                                          refs: seq<nat>, gauged: seq<real>, res: SolveResult, top: real)
    requires IsFitVerdict(panels, t, overlaps, feet, refs, gauged, res) && DataWithin(t, overlaps, feet, top)
    requires SmallFit(panels, t, |overlaps|, top)
    ensures res.Ok?
  {
    hide Encodes, IsGauged, NearlySingular, Tiny, Rows, DataTerms, StabilizerTerms, Shape, DataWithin, SmallFit, Start,
         GivesUp, IsSingular;
    var n := Start(panels, t);
    var terms, G := StabilizerTerms(DataTerms(panels, t, n, overlaps, feet), n, n), Rows(gauged, n);
    assert IsGaugedMatrix(terms, Gauge(refs, t), G, n);
    var A: Matrix, b: Vector, c: Vector :| Encodes(A, b, terms, n) && IsGauged(A, b, Gauge(refs, t), G, c, n);
    if res.Singular? {
      SmallFitIsSafe(A, b, panels, t, overlaps, feet, Gauge(refs, t), gauged, c, top, res.column);
    }
  }

  lemma {:induction false} NilWeighs()
    ensures Peak(Nil) == 0.0 && Spread(Nil) == 0.0
  {
  }
}
