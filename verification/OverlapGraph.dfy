/** The overlap graph: which panels share enough fully covered cells, how many, and where
    (crates/mmm-core/src/overlap.rs, `OverlapGraph::build`). */
module OverlapGraph {
  import opened Grid
  import opened Naturals

  const MIN_EDGE_CELLS: nat := 16

  /** Largest 32-bit value: the corner of a box nothing has entered yet. */
  const FAR: nat := 0xFFFF_FFFF

  /** Coverage of every cell, and the mean of every cell in every channel. */
  datatype Summary = Summary(coverage: seq<real>, mean: seq<seq<real>>)

  /** Columns from `x0` to before `x1`, rows from `y0` to before `y1`. */
  datatype Box = Box(x0: nat, y0: nat, x1: nat, y1: nat)

  datatype Overlap = Overlap(a: nat, b: nat, box: Box, cells: nat)

  datatype Found = None | Some(box: Box)

  ghost predicate SummaryOn(s: Summary, w: nat, h: nat, channels: nat) {
    && IsPlane(|s.coverage|, w, h) && |s.mean| == channels
    && forall c :: 0 <= c < channels ==> IsPlane(|s.mean[c]|, w, h)
  }

  ghost predicate SummariesOn(summaries: seq<Summary>, w: nat, h: nat, channels: nat) {
    w <= FAR && h <= FAR && forall p :: 0 <= p < |summaries| ==> SummaryOn(summaries[p], w, h, channels)
  }

  // ---------------------------------------------------------------- shared cells

  /** Fully covered in both planes. */
  ghost predicate Both(ca: seq<real>, cb: seq<real>, w: nat, h: nat, x: nat, y: nat)
    requires IsPlane(|ca|, w, h) && IsPlane(|cb|, w, h)
  {
    x < w && y < h && Cell(ca, w, h, x, y) == 1.0 && Cell(cb, w, h, x, y) == 1.0
  }

  ghost function Shared(ca: seq<real>, cb: seq<real>, w: nat, h: nat): set<(nat, nat)>
    requires IsPlane(|ca|, w, h) && IsPlane(|cb|, w, h)
  {
    set x: nat, y: nat | x < w && y < h && Both(ca, cb, w, h, x, y) :: (x, y)
  }

  predicate In(b: Box, x: nat, y: nat) {
    b.x0 <= x < b.x1 && b.y0 <= y < b.y1
  }

  /** The box holds all cells of the set, and each of its sides one. */
  ghost predicate IsTight(b: Box, cells: set<(nat, nat)>) {
    && (forall c :: c in cells ==> In(b, c.0, c.1))
    && (exists c :: c in cells && c.0 == b.x0) && (exists c :: c in cells && c.0 + 1 == b.x1)
    && (exists c :: c in cells && c.1 == b.y0) && (exists c :: c in cells && c.1 + 1 == b.y1)
  }

  /** The box of a scan so far: untouched, or tight. */
  ghost predicate IsBoxSoFar(b: Box, cells: set<(nat, nat)>) {
    if cells == {} then b == Box(FAR, FAR, 0, 0) else IsTight(b, cells)
  }

  function Widen(b: Box, x: nat, y: nat): Box {
    Box(Min(b.x0, x), Min(b.y0, y), Max(b.x1, x + 1), Max(b.y1, y + 1))
  }

  lemma {:induction false} BoxWidens(b: Box, cells: set<(nat, nat)>, x: nat, y: nat)
    requires IsBoxSoFar(b, cells) && x < FAR && y < FAR
    ensures IsTight(Widen(b, x, y), cells + {(x, y)})
  {
    var more, b' := cells + {(x, y)}, Widen(b, x, y);
    assert (x, y) in more;
    if cells != {} {
      var l :| l in cells && l.0 == b.x0;
      var r :| r in cells && r.0 + 1 == b.x1;
      var u :| u in cells && u.1 == b.y0;
      var d :| d in cells && d.1 + 1 == b.y1;
      assert l in more && r in more && u in more && d in more;
    }
  }

  /** What a raster scan of a box has met before column `x` of row `y`. */
  ghost predicate IsSeen(seen: set<(nat, nat)>, ca: seq<real>, cb: seq<real>, w: nat, h: nat, b: Box, x: nat, y: nat)
    requires IsPlane(|ca|, w, h) && IsPlane(|cb|, w, h)
  {
    forall u: nat, v: nat ::
      (u, v) in seen <==> Both(ca, cb, w, h, u, v) && In(b, u, v) && (v < y || (v == y && u < x))
  }

  lemma {:induction false} SeenMore(seen: set<(nat, nat)>, ca: seq<real>, cb: seq<real>, w: nat, h: nat, b: Box, x: nat,
                                    y: nat)
    requires IsPlane(|ca|, w, h) && IsPlane(|cb|, w, h) && In(b, x, y) && IsSeen(seen, ca, cb, w, h, b, x, y)
    ensures (x, y) !in seen
    ensures Both(ca, cb, w, h, x, y) ==> IsSeen(seen + {(x, y)}, ca, cb, w, h, b, x + 1, y)
    ensures !Both(ca, cb, w, h, x, y) ==> IsSeen(seen, ca, cb, w, h, b, x + 1, y)
  {
  }

  lemma {:induction false} SeenTurns(seen: set<(nat, nat)>, ca: seq<real>, cb: seq<real>, w: nat, h: nat, b: Box,
                                     y: nat)
    requires IsPlane(|ca|, w, h) && IsPlane(|cb|, w, h) && IsSeen(seen, ca, cb, w, h, b, b.x1, y)
    ensures IsSeen(seen, ca, cb, w, h, b, b.x0, y + 1)
  {
  }

  lemma {:induction false} SeenAll(seen: set<(nat, nat)>, ca: seq<real>, cb: seq<real>, w: nat, h: nat, b: Box)
    requires IsPlane(|ca|, w, h) && IsPlane(|cb|, w, h) && IsSeen(seen, ca, cb, w, h, b, b.x0, b.y1)
    requires forall x: nat, y: nat :: Both(ca, cb, w, h, x, y) ==> In(b, x, y)
    ensures seen == Shared(ca, cb, w, h)
  {
    forall c | c in seen ensures c in Shared(ca, cb, w, h) { assert c == (c.0, c.1); }
    forall c | c in Shared(ca, cb, w, h) ensures c in seen { assert c == (c.0, c.1); }
  }

  // ---------------------------------------------------------------- the scans

  method CellIsOne(p: seq<real>, w: nat, h: nat, x: nat, y: nat) returns (one: bool)
    requires IsPlane(|p|, w, h) && x < w && y < h
    ensures one <==> Cell(p, w, h, x, y) == 1.0
  {
    CellAt(p, w, h, x, y);
    one := p[y * w + x] == 1.0;
  }

  /** Bounding box of the fully covered cells, if there are any. */
  method FullCovBox(cov: seq<real>, w: nat, h: nat) returns (found: Found)
    requires IsPlane(|cov|, w, h) && w <= FAR && h <= FAR
    ensures found.None? <==> Shared(cov, cov, w, h) == {}
    ensures found.Some? ==> IsTight(found.box, Shared(cov, cov, w, h))
  {
    hide IsPlane, Cell, Both, Shared, IsSeen, IsTight;
    var all := Box(0, 0, w, h);
    var b := Box(FAR, FAR, 0, 0);
    ghost var seen: set<(nat, nat)> := {};
    NothingSeen(cov, cov, w, h, all);
    for y := 0 to h
      invariant IsSeen(seen, cov, cov, w, h, all, 0, y) && IsBoxSoFar(b, seen)
    {
      for x := 0 to w
        invariant IsSeen(seen, cov, cov, w, h, all, x, y) && IsBoxSoFar(b, seen)
      {
        SeenMore(seen, cov, cov, w, h, all, x, y);
        BoxWidens(b, seen, x, y);
        var one := CellIsOne(cov, w, h, x, y);
        BothIs(cov, cov, w, h, x, y);
        if one {
          b := Widen(b, x, y);
          seen := seen + {(x, y)};
        }
      }
      SeenTurns(seen, cov, cov, w, h, all, y);
    }
    AllInside(cov, cov, w, h);
    SeenAll(seen, cov, cov, w, h, all);
    TightIsWide(b, seen);
    found := if b.x1 > 0 then Some(b) else None;
  }

  lemma {:induction false} NothingSeen(ca: seq<real>, cb: seq<real>, w: nat, h: nat, b: Box)
    requires IsPlane(|ca|, w, h) && IsPlane(|cb|, w, h)
    ensures IsSeen({}, ca, cb, w, h, b, b.x0, b.y0)
  {
  }

  lemma {:induction false} BothIs(ca: seq<real>, cb: seq<real>, w: nat, h: nat, x: nat, y: nat)
    requires IsPlane(|ca|, w, h) && IsPlane(|cb|, w, h) && x < w && y < h
    ensures Both(ca, cb, w, h, x, y) <==> Cell(ca, w, h, x, y) == 1.0 && Cell(cb, w, h, x, y) == 1.0
  {
  }

  lemma {:induction false} AllInside(ca: seq<real>, cb: seq<real>, w: nat, h: nat)
    requires IsPlane(|ca|, w, h) && IsPlane(|cb|, w, h)
    ensures forall x: nat, y: nat :: Both(ca, cb, w, h, x, y) ==> In(Box(0, 0, w, h), x, y)
  {
  }

  lemma {:induction false} TightIsWide(b: Box, cells: set<(nat, nat)>)
    requires IsBoxSoFar(b, cells)
    ensures cells == {} <==> b.x1 == 0
  {
    if cells != {} { var c :| c in cells; assert In(b, c.0, c.1); }
  }

  /** Count and bounding box of the shared cells of two planes inside a box. */
  method CountShared(ca: seq<real>, cb: seq<real>, w: nat, h: nat, b: Box)
    returns (n: nat, eb: Box, ghost seen: set<(nat, nat)>)
    requires IsPlane(|ca|, w, h) && IsPlane(|cb|, w, h) && w <= FAR && h <= FAR
    requires b.x0 <= b.x1 <= w && b.y0 <= b.y1 <= h
    ensures IsSeen(seen, ca, cb, w, h, b, b.x0, b.y1) && n == |seen| && IsBoxSoFar(eb, seen)
  {
    hide IsPlane, Cell, Both, Shared, IsSeen, IsTight;
    n, eb, seen := 0, Box(FAR, FAR, 0, 0), {};
    NothingSeen(ca, cb, w, h, b);
    for y := b.y0 to b.y1
      invariant IsSeen(seen, ca, cb, w, h, b, b.x0, y) && n == |seen| && IsBoxSoFar(eb, seen)
    {
      for x := b.x0 to b.x1
        invariant IsSeen(seen, ca, cb, w, h, b, x, y) && n == |seen| && IsBoxSoFar(eb, seen)
      {
        SeenMore(seen, ca, cb, w, h, b, x, y);
        BoxWidens(eb, seen, x, y);
        var oneA := CellIsOne(ca, w, h, x, y);
        var oneB := CellIsOne(cb, w, h, x, y);
        BothIs(ca, cb, w, h, x, y);
        if oneA && oneB {
          n, eb := n + 1, Widen(eb, x, y);
          seen := seen + {(x, y)};
        }
      }
      SeenTurns(seen, ca, cb, w, h, b, y);
    }
  }

  // ---------------------------------------------------------------- the graph

  /** An edge: two panels in order, the exact number of cells they share, enough of them, and their tight box. */
  ghost predicate IsOverlap(o: Overlap, summaries: seq<Summary>, w: nat, h: nat, channels: nat) {
    && SummariesOn(summaries, w, h, channels) && o.a < o.b < |summaries|
    && var cells := Shared(summaries[o.a].coverage, summaries[o.b].coverage, w, h);
       o.cells == |cells| && MIN_EDGE_CELLS <= |cells| && IsTight(o.box, cells)
  }

  /** The pair (a, b) shares enough cells. */
  ghost predicate Overlapping(summaries: seq<Summary>, w: nat, h: nat, channels: nat, a: nat, b: nat)
    requires SummariesOn(summaries, w, h, channels) && a < b < |summaries|
  {
    MIN_EDGE_CELLS <= |Shared(summaries[a].coverage, summaries[b].coverage, w, h)|
  }

  predicate Before(a: nat, b: nat, c: nat, d: nat) {
    a < c || (a == c && b < d)
  }

  /** Exactly the overlapping pairs before (a, b), in order. */
  ghost predicate IsGraphTo(edges: seq<Overlap>, summaries: seq<Summary>, w: nat, h: nat, channels: nat, a: nat,
                            b: nat) {
    && SummariesOn(summaries, w, h, channels)
    && (forall k :: 0 <= k < |edges| ==>
          IsOverlap(edges[k], summaries, w, h, channels) && Before(edges[k].a, edges[k].b, a, b))
    && (forall k, l :: 0 <= k < l < |edges| ==> Before(edges[k].a, edges[k].b, edges[l].a, edges[l].b))
    && (forall c: nat, d: nat ::
          c < d < |summaries| && Before(c, d, a, b) && Overlapping(summaries, w, h, channels, c, d) ==>
          exists k :: 0 <= k < |edges| && edges[k].a == c && edges[k].b == d)
  }

  /** The overlap of one pair, if it is large enough. */
  method PairOverlap(summaries: seq<Summary>, w: nat, h: nat, channels: nat, boxes: seq<Found>, a: nat, b: nat)
    returns (edge: seq<Overlap>)
    requires SummariesOn(summaries, w, h, channels) && a < b < |summaries| == |boxes|
    requires BoxesOf(boxes, summaries, w, h, channels, |boxes|)
    ensures |edge| <= 1 && (|edge| == 1 <==> Overlapping(summaries, w, h, channels, a, b))
    ensures |edge| == 1 ==> edge[0].a == a && edge[0].b == b && IsOverlap(edge[0], summaries, w, h, channels)
  {
    hide IsPlane, Cell, Both, IsSeen, IsTight, Shared;
    var ca, cb := summaries[a].coverage, summaries[b].coverage;
    edge := [];
    BothFull(ca, cb, w, h);
    if boxes[a].None? || boxes[b].None? {
      EmptyShared(ca, cb, w, h);
      return;
    }
    var (ba, bb) := (boxes[a].box, boxes[b].box);
    var box := Box(Max(ba.x0, bb.x0), Max(ba.y0, bb.y0), Min(ba.x1, bb.x1), Min(ba.y1, bb.y1));
    BoxesMeet(ca, cb, w, h, ba, bb, box);
    if box.x0 >= box.x1 || box.y0 >= box.y1 {
      return;
    }
    var n, eb, seen := CountShared(ca, cb, w, h, box);
    SeenAll(seen, ca, cb, w, h, box);
    if n >= MIN_EDGE_CELLS {
      edge := [Overlap(a, b, eb, n)];
    }
  }

  ghost predicate BoxesOf(boxes: seq<Found>, summaries: seq<Summary>, w: nat, h: nat, channels: nat, hi: nat) {
    && SummariesOn(summaries, w, h, channels) && hi <= |boxes| && hi <= |summaries|
    && forall p :: 0 <= p < hi ==>
         var full := Shared(summaries[p].coverage, summaries[p].coverage, w, h);
         (boxes[p].None? <==> full == {}) && (boxes[p].Some? ==> IsTight(boxes[p].box, full))
  }

  lemma {:induction false} BothFull(ca: seq<real>, cb: seq<real>, w: nat, h: nat)
    requires IsPlane(|ca|, w, h) && IsPlane(|cb|, w, h)
    ensures forall c :: c in Shared(ca, cb, w, h) ==> c in Shared(ca, ca, w, h) && c in Shared(cb, cb, w, h)
  {
  }

  lemma {:induction false} EmptyShared(ca: seq<real>, cb: seq<real>, w: nat, h: nat)
    requires IsPlane(|ca|, w, h) && IsPlane(|cb|, w, h) && (Shared(ca, ca, w, h) == {} || Shared(cb, cb, w, h) == {})
    ensures |Shared(ca, cb, w, h)| == 0
  {
    BothFull(ca, cb, w, h);
    assert Shared(ca, cb, w, h) == {};
  }

  /** Cells covered by both panels lie in both boxes, so in their intersection, which lies in the grid. */
  lemma {:induction false} BoxesMeet(ca: seq<real>, cb: seq<real>, w: nat, h: nat, ba: Box, bb: Box, box: Box)
    requires IsPlane(|ca|, w, h) && IsPlane(|cb|, w, h)
    requires IsTight(ba, Shared(ca, ca, w, h)) && IsTight(bb, Shared(cb, cb, w, h))
    requires box == Box(Max(ba.x0, bb.x0), Max(ba.y0, bb.y0), Min(ba.x1, bb.x1), Min(ba.y1, bb.y1))
    ensures box.x1 <= w && box.y1 <= h
    ensures forall x: nat, y: nat :: Both(ca, cb, w, h, x, y) ==> In(box, x, y)
    ensures box.x0 >= box.x1 || box.y0 >= box.y1 ==> |Shared(ca, cb, w, h)| == 0
  {
    forall x: nat, y: nat | Both(ca, cb, w, h, x, y) ensures In(box, x, y) {
      assert (x, y) in Shared(ca, ca, w, h) && (x, y) in Shared(cb, cb, w, h);
    }
    if box.x0 >= box.x1 || box.y0 >= box.y1 {
      assert Shared(ca, cb, w, h) == {};
    }
  }

  method Build(summaries: seq<Summary>, w: nat, h: nat, channels: nat) returns (edges: seq<Overlap>)
    requires SummariesOn(summaries, w, h, channels)
    ensures IsGraphTo(edges, summaries, w, h, channels, |summaries|, 0)
  {
    hide IsPlane, Cell, IsTight, Shared, IsOverlap, Overlapping;
    var boxes: seq<Found> := [];
    for p := 0 to |summaries|
      invariant |boxes| == p && BoxesOf(boxes, summaries, w, h, channels, p)
    {
      var found := FullCovBox(summaries[p].coverage, w, h);
      boxes := boxes + [found];
    }
    edges := [];
    for a := 0 to |summaries|
      invariant IsGraphTo(edges, summaries, w, h, channels, a, 0)
    {
      GraphSkips(edges, summaries, w, h, channels, a);
      for b := a + 1 to |summaries|
        invariant IsGraphTo(edges, summaries, w, h, channels, a, b)
      {
        var edge := PairOverlap(summaries, w, h, channels, boxes, a, b);
        GraphGrows(edges, edge, summaries, w, h, channels, a, b);
        edges := edges + edge;
      }
      GraphTurns(edges, summaries, w, h, channels, a);
    }
  }

  lemma {:induction false} GraphSkips(edges: seq<Overlap>, summaries: seq<Summary>, w: nat, h: nat, channels: nat,
                                      a: nat)
    requires IsGraphTo(edges, summaries, w, h, channels, a, 0)
    ensures IsGraphTo(edges, summaries, w, h, channels, a, a + 1)
  {
    hide IsOverlap, Overlapping, SummariesOn;
  }

  lemma {:induction false} GraphTurns(edges: seq<Overlap>, summaries: seq<Summary>, w: nat, h: nat, channels: nat,
                                      a: nat)
    requires a < |summaries| && IsGraphTo(edges, summaries, w, h, channels, a, |summaries|)
    ensures IsGraphTo(edges, summaries, w, h, channels, a + 1, 0)
  {
    hide Overlapping, SummariesOn;
    hide IsOverlap;
  }

  lemma {:induction false} GraphGrows(edges: seq<Overlap>, edge: seq<Overlap>, summaries: seq<Summary>, w: nat, h: nat,
                                      channels: nat, a: nat, b: nat)
    requires a < b < |summaries| && IsGraphTo(edges, summaries, w, h, channels, a, b)
    requires |edge| <= 1 && (|edge| == 1 <==> Overlapping(summaries, w, h, channels, a, b))
    requires |edge| == 1 ==> edge[0].a == a && edge[0].b == b && IsOverlap(edge[0], summaries, w, h, channels)
    ensures IsGraphTo(edges + edge, summaries, w, h, channels, a, b + 1)
  {
    hide IsOverlap, Overlapping, SummariesOn;
    var more := edges + edge;
    forall c: nat, d: nat | c < d < |summaries| && Before(c, d, a, b + 1)
        && Overlapping(summaries, w, h, channels, c, d)
      ensures exists k :: 0 <= k < |more| && more[k].a == c && more[k].b == d
    {
      if c == a && d == b {
        assert more[|edges|] == edge[0];
      } else {
        assert Before(c, d, a, b);
        var k :| 0 <= k < |edges| && edges[k].a == c && edges[k].b == d;
        assert more[k] == edges[k];
      }
    }
  }
}
