/** From panel summaries to offsets: the overlap graph, a fit of every edge in every channel, and one solve a
    channel (crates/mmm-core/src/photometry.rs, `solve` and `fit_edge`). */
module PanelSolve {
  import opened Components
  import opened EdgeFits
  import opened Grid
  import opened LeastSquares
  import opened Linalg
  import opened OffsetSolvability
  import opened OverlapGraph
  import opened Photometry
  import opened PivotSafety

  // ---------------------------------------------------------------- the pairs of one edge

  /** The raster order of cells. */
  predicate Earlier(c: (nat, nat), d: (nat, nat)) {
    c.1 < d.1 || (c.1 == d.1 && c.0 < d.0)
  }

  /** The means of both panels over the cells listed: shared cells of the box met so far, each once, in raster order. */
  ghost predicate ArePairs(xs: seq<real>, ys: seq<real>, cells: seq<(nat, nat)>, seen: set<(nat, nat)>,
                           ma: seq<real>, mb: seq<real>, w: nat, h: nat) {
    && |xs| == |ys| == |cells| == |seen| && IsPlane(|ma|, w, h) && IsPlane(|mb|, w, h)
    && (forall k :: 0 <= k < |cells| ==>
          && cells[k] in seen && cells[k].0 < w && cells[k].1 < h
          && xs[k] == Cell(ma, w, h, cells[k].0, cells[k].1) && ys[k] == Cell(mb, w, h, cells[k].0, cells[k].1))
    && (forall k, l :: 0 <= k < l < |cells| ==> Earlier(cells[k], cells[l]))
  }

  lemma {:induction false} PairsGrow(xs: seq<real>, ys: seq<real>, cells: seq<(nat, nat)>, seen: set<(nat, nat)>,
                                     ma: seq<real>, mb: seq<real>, w: nat, h: nat, x: nat, y: nat)
    requires ArePairs(xs, ys, cells, seen, ma, mb, w, h) && x < w && y < h && (x, y) !in seen
    requires forall c :: c in seen ==> Earlier(c, (x, y))
    ensures ArePairs(xs + [Cell(ma, w, h, x, y)], ys + [Cell(mb, w, h, x, y)], cells + [(x, y)], seen + {(x, y)}, ma,
                     mb, w, h)
  {
    hide Cell, IsPlane;
  }

  lemma {:induction false} SeenEarlier(seen: set<(nat, nat)>, ca: seq<real>, cb: seq<real>, w: nat, h: nat, b: Box,
                                       x: nat, y: nat)
    requires IsPlane(|ca|, w, h) && IsPlane(|cb|, w, h) && IsSeen(seen, ca, cb, w, h, b, x, y)
    ensures forall c :: c in seen ==> Earlier(c, (x, y))
  {
    forall c | c in seen ensures Earlier(c, (x, y)) { assert c == (c.0, c.1); }
  }

  method ReadCell(p: seq<real>, w: nat, h: nat, x: nat, y: nat) returns (v: real)
    requires IsPlane(|p|, w, h) && x < w && y < h
    ensures v == Cell(p, w, h, x, y)
  {
    CellAt(p, w, h, x, y);
    v := p[y * w + x];
  }

  /** The means of both panels over the shared cells of a box. */
  method Gather(ca: seq<real>, cb: seq<real>, ma: seq<real>, mb: seq<real>, w: nat, h: nat, b: Box)
    returns (xs: seq<real>, ys: seq<real>, ghost cells: seq<(nat, nat)>, ghost seen: set<(nat, nat)>)
    requires IsPlane(|ca|, w, h) && IsPlane(|cb|, w, h) && IsPlane(|ma|, w, h) && IsPlane(|mb|, w, h)
    requires b.x0 <= b.x1 <= w && b.y0 <= b.y1 <= h
    ensures IsSeen(seen, ca, cb, w, h, b, b.x0, b.y1) && ArePairs(xs, ys, cells, seen, ma, mb, w, h)
  {
    hide IsPlane, Cell, Both, IsSeen;
    xs, ys, cells, seen := [], [], [], {};
    NothingSeen(ca, cb, w, h, b);
    for y := b.y0 to b.y1
      invariant IsSeen(seen, ca, cb, w, h, b, b.x0, y) && ArePairs(xs, ys, cells, seen, ma, mb, w, h)
    {
      for x := b.x0 to b.x1
        invariant IsSeen(seen, ca, cb, w, h, b, x, y) && ArePairs(xs, ys, cells, seen, ma, mb, w, h)
      {
        SeenMore(seen, ca, cb, w, h, b, x, y);
        SeenEarlier(seen, ca, cb, w, h, b, x, y);
        PairsGrow(xs, ys, cells, seen, ma, mb, w, h, x, y);
        var oneA := CellIsOne(ca, w, h, x, y);
        var oneB := CellIsOne(cb, w, h, x, y);
        BothIs(ca, cb, w, h, x, y);
        if oneA && oneB {
          var vx := ReadCell(ma, w, h, x, y);
          var vy := ReadCell(mb, w, h, x, y);
          xs, ys, cells, seen := xs + [vx], ys + [vy], cells + [(x, y)], seen + {(x, y)};
        }
      }
      SeenTurns(seen, ca, cb, w, h, b, y);
    }
  }

  // ---------------------------------------------------------------- the fits

  ghost predicate HasPairs(xs: seq<real>, ys: seq<real>, ca: seq<real>, cb: seq<real>, ma: seq<real>, mb: seq<real>,
                           w: nat, h: nat) {
    && IsPlane(|ca|, w, h) && IsPlane(|cb|, w, h)
    && exists cells :: ArePairs(xs, ys, cells, Shared(ca, cb, w, h), ma, mb, w, h)
  }

  /** The fit of one edge and channel: what the clip rounds report of all cells the two panels share. */
  ghost predicate IsFit(f: EdgeFit, o: Overlap, summaries: seq<Summary>, w: nat, h: nat, channels: nat, channel: nat) {
    && IsOverlap(o, summaries, w, h, channels) && channel < channels
    && f.a == o.a && f.b == o.b && f.channel == channel
    && exists xs: seq<real>, ys: seq<real> ::
         && HasPairs(xs, ys, summaries[o.a].coverage, summaries[o.b].coverage, summaries[o.a].mean[channel],
                     summaries[o.b].mean[channel], w, h)
         && |xs| == |ys| == o.cells && IsReport(xs, ys, Reported(xs, ys))
         && var s := Reported(xs, ys); f.count == s.n && f.sumX == s.x && f.sumY == s.y
  }

  /** The shared cells of an edge all lie in its box, and the box in the grid. */
  lemma {:induction false} OverlapInside(o: Overlap, summaries: seq<Summary>, w: nat, h: nat, channels: nat)
    requires IsOverlap(o, summaries, w, h, channels)
    ensures o.box.x0 <= o.box.x1 <= w && o.box.y0 <= o.box.y1 <= h
    ensures forall x: nat, y: nat :: Both(summaries[o.a].coverage, summaries[o.b].coverage, w, h, x, y) ==>
              In(o.box, x, y)
  {
    var ca, cb := summaries[o.a].coverage, summaries[o.b].coverage;
    forall x: nat, y: nat | Both(ca, cb, w, h, x, y) ensures In(o.box, x, y) {
      assert (x, y) in Shared(ca, cb, w, h);
    }
    hide IsPlane, Cell;
  }

  method FitEdge(o: Overlap, summaries: seq<Summary>, w: nat, h: nat, channels: nat, channel: nat) returns (f: EdgeFit)
    requires IsOverlap(o, summaries, w, h, channels) && channel < channels
    ensures IsFit(f, o, summaries, w, h, channels, channel) && f.count >= 2.0
  {
    hide IsPlane, Cell, Both, IsSeen, ArePairs, Reported, Shared, IsTight;
    var sa, sb := summaries[o.a], summaries[o.b];
    OverlapInside(o, summaries, w, h, channels);
    var xs, ys, cells, seen := Gather(sa.coverage, sb.coverage, sa.mean[channel], sb.mean[channel], w, h, o.box);
    SeenAll(seen, sa.coverage, sb.coverage, w, h, o.box);
    PairCount(xs, ys, cells, seen, sa.mean[channel], sb.mean[channel], w, h);
    var s := FitSums(xs, ys);
    assert s == Reported(xs, ys);
    hide IsReport;
    MostSurvive(xs, ys);
    f := EdgeFit(o.a, o.b, channel, s.n, s.x, s.y);
    assert HasPairs(xs, ys, sa.coverage, sb.coverage, sa.mean[channel], sb.mean[channel], w, h);
  }

  lemma {:induction false} PairCount(xs: seq<real>, ys: seq<real>, cells: seq<(nat, nat)>, seen: set<(nat, nat)>,
                                     ma: seq<real>, mb: seq<real>, w: nat, h: nat)
    requires ArePairs(xs, ys, cells, seen, ma, mb, w, h)
    ensures |xs| == |ys| == |seen|
  {
  }

  /** The edges as panel pairs. */
  ghost function PairsOf(edges: seq<Overlap>): (r: seq<Edge>)
    ensures |r| == |edges| && forall k :: 0 <= k < |edges| ==> r[k] == Edge(edges[k].a, edges[k].b)
  {
    seq(|edges|, k requires 0 <= k < |edges| => Edge(edges[k].a, edges[k].b))
  }

  ghost predicate FitsOf(f: EdgeFit, edges: seq<Overlap>, summaries: seq<Summary>, w: nat, h: nat, channels: nat) {
    exists k :: 0 <= k < |edges| && IsFit(f, edges[k], summaries, w, h, channels, f.channel)
  }

  /** Every fit is of an edge, and in every channel the contributing fits are those of all edges, in order. */
  ghost predicate AreFits(fits: seq<EdgeFit>, edges: seq<Overlap>, summaries: seq<Summary>, w: nat, h: nat,
                          channels: nat) {
    && (forall f :: f in fits ==> FitsOf(f, edges, summaries, w, h, channels))
    && forall c: nat :: c < channels ==> Links(fits, c) == PairsOf(edges)
  }

  lemma {:induction false} LinksMore(fits: seq<EdgeFit>, f: EdgeFit, c: nat)
    ensures Links(fits + [f], c) == Links(fits, c) + if Contributes(f, c) then [Edge(f.a, f.b)] else []
  {
    assert (fits + [f])[..|fits|] == fits;
  }

  ghost predicate LinksTo(fits: seq<EdgeFit>, edges: seq<Overlap>, k: nat, c: nat, channels: nat)
    requires k <= |edges|
  {
    forall d: nat :: d < channels ==>
      Links(fits, d) == PairsOf(edges[..k]) + if d < c && k < |edges| then [Edge(edges[k].a, edges[k].b)] else []
  }

  lemma {:induction false} LinksGrow(fits: seq<EdgeFit>, f: EdgeFit, edges: seq<Overlap>, k: nat, c: nat, channels: nat)
    requires k < |edges| && c < channels && LinksTo(fits, edges, k, c, channels)
    requires f.a == edges[k].a && f.b == edges[k].b && f.channel == c && f.count > 0.0
    ensures LinksTo(fits + [f], edges, k, c + 1, channels)
  {
    forall d: nat | d < channels
      ensures Links(fits + [f], d) == PairsOf(edges[..k]) + if d < c + 1 then [Edge(edges[k].a, edges[k].b)] else []
    {
      LinksMore(fits, f, d);
    }
  }

  lemma {:induction false} LinksTurn(fits: seq<EdgeFit>, edges: seq<Overlap>, k: nat, channels: nat)
    requires k < |edges| && LinksTo(fits, edges, k, channels, channels)
    ensures LinksTo(fits, edges, k + 1, 0, channels)
  {
    assert PairsOf(edges[..k + 1]) == PairsOf(edges[..k]) + [Edge(edges[k].a, edges[k].b)];
    hide Links;
  }

  /** One fit for every edge and channel, channels innermost. */
  method FitEdges(edges: seq<Overlap>, summaries: seq<Summary>, w: nat, h: nat, channels: nat)
    returns (fits: seq<EdgeFit>)
    requires forall k :: 0 <= k < |edges| ==> IsOverlap(edges[k], summaries, w, h, channels)
    ensures AreFits(fits, edges, summaries, w, h, channels)
  {
    hide IsOverlap, IsFit, Links, PairsOf;
    fits := [];
    NoLinks(edges, channels);
    for k := 0 to |edges|
      invariant LinksTo(fits, edges, k, 0, channels)
      invariant forall f :: f in fits ==> FitsOf(f, edges, summaries, w, h, channels)
    {
      for c := 0 to channels
        invariant LinksTo(fits, edges, k, c, channels)
        invariant forall f :: f in fits ==> FitsOf(f, edges, summaries, w, h, channels)
      {
        var f := FitEdge(edges[k], summaries, w, h, channels, c);
        FitParts(f, edges[k], summaries, w, h, channels, c);
        LinksGrow(fits, f, edges, k, c, channels);
        fits := fits + [f];
      }
      LinksTurn(fits, edges, k, channels);
    }
    assert edges[..|edges|] == edges;
  }

  lemma {:induction false} NoLinks(edges: seq<Overlap>, channels: nat)
    ensures LinksTo([], edges, 0, 0, channels)
  {
  }

  lemma {:induction false} FitParts(f: EdgeFit, o: Overlap, summaries: seq<Summary>, w: nat, h: nat, channels: nat,
                                    c: nat)
    requires IsFit(f, o, summaries, w, h, channels, c)
    ensures f.a == o.a && f.b == o.b && f.channel == c
    ensures o.a < o.b < |summaries|
  {
  }

  // ---------------------------------------------------------------- the solve

  /** The gauged system elimination gave up on is regular all the same. */
  ghost predicate IsTinyPivot(fits: seq<EdgeFit>, gains: seq<Vector>, refs: seq<nat>, n: nat, res: Solution)
    requires res.Failed?
  {
    && FitsIn(fits, n) && res.channel < |gains| && |gains[res.channel]| == n
    && exists gauged: seq<real> ::
         && IsVerdict(OffsetTerms(fits, res.channel, gains[res.channel]), refs, n, gauged, Singular(res.column))
         && !IsSingular(Rows(gauged, n), n)
  }

  lemma {:induction false} AnchoredByAll(edges: seq<Overlap>, fits: seq<EdgeFit>, summaries: seq<Summary>, w: nat,
                                         h: nat, channels: nat, refs: seq<nat>, c: nat)
    requires AreFits(fits, edges, summaries, w, h, channels) && c < channels
    requires forall p: nat :: p < |summaries| ==> Anchored(PairsOf(edges), refs, p)
    ensures AllAnchored(Links(fits, c), refs, |summaries|)
  {
    hide Links, FitsOf;
  }

  lemma {:induction false} FailureIsTiny(edges: seq<Overlap>, fits: seq<EdgeFit>, summaries: seq<Summary>, w: nat,
                                         h: nat, channels: nat, gains: seq<Vector>, refs: seq<nat>, res: Solution)
    requires AreFits(fits, edges, summaries, w, h, channels) && |gains| == channels
             && (forall r :: r in refs ==> r < |summaries|)
    requires forall p: nat :: p < |summaries| ==> Anchored(PairsOf(edges), refs, p)
    requires res.Failed? && IsFailure(fits, gains, refs, |summaries|, res)
    ensures IsTinyPivot(fits, gains, refs, |summaries|, res) && !Moderate(|summaries|, |edges|)
  {
    hide IsVerdict, FitsOf, AllAnchored, Moderate, Links, OffsetTerms, IsSingular, Anchored;
    var n, c := |summaries|, res.channel;
    AnchoredByAll(edges, fits, summaries, w, h, channels, refs, c);
    var gauged: seq<real> :| IsVerdict(OffsetTerms(fits, c, gains[c]), refs, n, gauged, Singular(res.column));
    OffsetVerdict(fits, c, gains[c], refs, gauged, Singular(res.column));
    assert |Links(fits, c)| == |edges|;
    if Moderate(n, |edges|) {
      OffsetsSolvedIff(fits, c, gains[c], refs, gauged, Singular(res.column));
    }
  }

  lemma {:induction false} FitsOnGraph(edges: seq<Overlap>, fits: seq<EdgeFit>, summaries: seq<Summary>, w: nat, h: nat,
                                       channels: nat)
    requires AreFits(fits, edges, summaries, w, h, channels)
    requires forall k :: 0 <= k < |edges| ==> IsOverlap(edges[k], summaries, w, h, channels)
    ensures InRange(PairsOf(edges), |summaries|) && FitsOnEdges(fits, PairsOf(edges))
  {
    hide Links;
    forall f | f in fits ensures Edge(f.a, f.b) in PairsOf(edges) {
      assert FitsOf(f, edges, summaries, w, h, channels);
      var k :| 0 <= k < |edges| && IsFit(f, edges[k], summaries, w, h, channels, f.channel);
      assert PairsOf(edges)[k] == Edge(f.a, f.b);
    }
  }

  /** The coverage planes of the panels. */
  function Coverages(summaries: seq<Summary>): (r: seq<seq<real>>)
    ensures |r| == |summaries| && forall p :: 0 <= p < |r| ==> r[p] == summaries[p].coverage
  {
    seq(|summaries|, p requires 0 <= p < |summaries| => summaries[p].coverage)
  }

  function PanelPairs(edges: seq<Overlap>): (r: seq<Edge>)
    ensures r == PairsOf(edges)
  {
    seq(|edges|, k requires 0 <= k < |edges| => Edge(edges[k].a, edges[k].b))
  }

  /** Graph, fits and offsets of every channel under given gains. A failure only ever means that a pivot of a regular
      system was tiny, and with a moderate number of panels and edges there is none. */
  method SolvePanels(summaries: seq<Summary>, w: nat, h: nat, channels: nat, gains: seq<Vector>)
    returns (res: Solution, refs: seq<nat>, edges: seq<Overlap>, fits: seq<EdgeFit>)
    requires SummariesOn(summaries, w, h, channels)
    requires |gains| == channels && forall c :: 0 <= c < |gains| ==> |gains[c]| == |summaries|
    ensures IsGraphTo(edges, summaries, w, h, channels, |summaries|, 0)
            && AreFits(fits, edges, summaries, w, h, channels)
    ensures res.Solved? ==> res.refs == refs && |res.offsets| == (if summaries == [] then 0 else channels)
    ensures res.Solved? ==> forall c :: 0 <= c < |res.offsets| ==>
              Optimal(fits, c, gains[c], res.offsets[c]) && ZeroOn(res.offsets[c], refs)
    ensures res.Failed? ==> IsTinyPivot(fits, gains, refs, |summaries|, res)
    ensures Moderate(|summaries|, |edges|) ==> res.Solved?
    ensures forall p: nat :: p < |summaries| ==> Anchored(PairsOf(edges), refs, p)
    ensures forall r: nat, p: nat ::
              r in refs && r < |summaries| && p < |summaries| && Connected(PairsOf(edges), p, r) ==>
              Preferred(Coverages(summaries), r, p)
    ensures forall i, j :: 0 <= i < j < |refs| ==> !Connected(PairsOf(edges), refs[i], refs[j])
  {
    hide IsOverlap, FitsOf, Links, Optimal, Anchored, Connected, Moderate, IsTinyPivot, IsFailure, FitsOnEdges,
         Overlapping, SummariesOn, Preferred;
    edges := Build(summaries, w, h, channels);
    fits := FitEdges(edges, summaries, w, h, channels);
    FitsOnGraph(edges, fits, summaries, w, h, channels);
    res, refs := Solve(Coverages(summaries), PanelPairs(edges), fits, gains);
    if res.Failed? {
      FailureIsTiny(edges, fits, summaries, w, h, channels, gains, refs, res);
    }
  }
}
