/** Seam refinement and the shared owner map: Voronoi labels from feather weights, then per overlap
    edge a cheapest seam that splits the shared band between its two panels
    (crates/mmm-core/src/seam.rs). */
module Seam {
  import opened Entrywise
  import opened Grid
  import opened Naturals
  import opened SeamPath
  import Chamfer
  import Indexing
  import Order

  const UNSHARED_COST: real := 1000000000000.0
  const MASK_COST_FACTOR: real := 100.0
  const DP_MIN_LONG: nat := 64
  const MIN_WEIGHT: real := 0.0001
  const BLOCK: real := 8.0

  /** Owner value of a cell no panel covers. */
  const NO_OWNER: nat := 0xFFFF

  /** What the seam stage knows of one panel: coverage per cell and the star mask. */
  datatype Panel = Panel(coverage: seq<real>, mask: seq<bool>)

  ghost predicate PanelsOn(panels: seq<Panel>, w: nat, h: nat) {
    forall p :: 0 <= p < |panels| ==> IsPlane(|panels[p].coverage|, w, h) && IsPlane(|panels[p].mask|, w, h)
  }

  /** An overlap edge: two panels and the bounding box of their shared fully covered cells. */
  datatype Edge = Edge(a: nat, b: nat, x0: nat, y0: nat, x1: nat, y1: nat) {
    predicate AlongX() {
      x1 as int - x0 >= y1 as int - y0
    }

    /** Cells along the long axis of the band. */
    function Long(): int {
      if AlongX() then x1 - x0 else y1 - y0
    }

    function Short(): int {
      if AlongX() then y1 - y0 else x1 - x0
    }

    /** Column and row of position `s` in slice `t`. */
    function At(t: int, s: int): (int, int) {
      if AlongX() then (x0 + t, y0 + s) else (x0 + s, y0 + t)
    }

    ghost predicate FitsIn(n: nat, w: nat, h: nat) {
      a < n && b < n && x0 <= x1 <= w && y0 <= y1 <= h
    }

    /** Bands short along both axes keep their Voronoi labels. */
    predicate IsCorner() {
      x1 as int - x0 < DP_MIN_LONG && y1 as int - y0 < DP_MIN_LONG
    }
  }

  // ---------------------------------------------------------------- band costs

  /** Fully covered by both panels of the edge. */
  ghost predicate Shared(e: Edge, panels: seq<Panel>, w: nat, h: nat, t: int, s: int)
    requires PanelsOn(panels, w, h) && e.FitsIn(|panels|, w, h)
  {
    0 <= t < e.Long() && 0 <= s < e.Short() &&
    var (x, y) := e.At(t, s);
    Cell(panels[e.a].coverage, w, h, x, y) >= 1.0 && Cell(panels[e.b].coverage, w, h, x, y) >= 1.0
  }

  ghost predicate StarMasked(e: Edge, panels: seq<Panel>, w: nat, h: nat, t: int, s: int)
    requires PanelsOn(panels, w, h) && e.FitsIn(|panels|, w, h) && Shared(e, panels, w, h, t, s)
  {
    var (x, y) := e.At(t, s);
    Cell(panels[e.a].mask, w, h, x, y) || Cell(panels[e.b].mask, w, h, x, y)
  }

  /** Cost of a band cell once the star-mask penalty is charged; `raw` is the panels' disagreement
      plus weighted detail, per grid cell. */
  ghost function BandCost(e: Edge, panels: seq<Panel>, raw: seq<real>, w: nat, h: nat, penalty: real, t: int,
                          s: int): real
    requires PanelsOn(panels, w, h) && e.FitsIn(|panels|, w, h) && IsPlane(|raw|, w, h)
    requires 0 <= t < e.Long() && 0 <= s < e.Short()
  {
    var (x, y) := e.At(t, s);
    if !Shared(e, panels, w, h, t, s) then UNSHARED_COST
    else
      var c := Cell(raw, w, h, x, y);
      if StarMasked(e, panels, w, h, t, s) && c < UNSHARED_COST then c + penalty else c
  }

  /** The finished cost plane of a band, and the penalty it charged. */
  ghost predicate IsBandPlane(e: Edge, panels: seq<Panel>, raw: seq<real>, w: nat, h: nat, cost: seq<real>,
                              penalty: real) {
    && PanelsOn(panels, w, h) && e.FitsIn(|panels|, w, h) && IsPlane(|raw|, w, h)
    && IsPlane(|cost|, e.Short(), e.Long())
    && forall t, s :: 0 <= t < e.Long() && 0 <= s < e.Short() ==>
         Cell(cost, e.Short(), e.Long(), s, t) == BandCost(e, panels, raw, w, h, penalty, t, s)
  }

  // ---------------------------------------------------------------- what a cheapest seam avoids

  lemma {:induction false} BoundarySign(cost: seq<real>, S: nat, T: nat, t: int, s: int)
    requires IsPlane(|cost|, S, T) && 0 <= t < T && 0 <= s <= S && NonNegative(cost)
    ensures BoundaryCost(cost, S, T, t, s) >= 0.0
    ensures s > 0 ==> Cell(cost, S, T, s - 1, t) <= BoundaryCost(cost, S, T, t, s)
    ensures s < S ==> Cell(cost, S, T, s, t) <= BoundaryCost(cost, S, T, t, s)
  {
    if s > 0 { CellAt(cost, S, T, s - 1, t); }
    if s < S { CellAt(cost, S, T, s, t); }
  }

  /** A seam costs at least as much as any one of its boundaries. */
  lemma {:induction false} BoundaryWithinCost(cost: seq<real>, S: nat, T: nat, p: seq<nat>, t: int)
    requires IsPlane(|cost|, S, T) && |p| <= T && IsSeam(p, S) && NonNegative(cost) && -1 <= t < |p|
    ensures SeamCost(cost, S, T, p) >= 0.0
    ensures t >= 0 ==> BoundaryCost(cost, S, T, t, p[t]) <= SeamCost(cost, S, T, p)
    decreases |p|
  {
    hide BoundaryCost, Cell, IsPlane;
    if p != [] {
      var head := p[..|p| - 1];
      assert forall k :: 0 <= k < |head| ==> head[k] == p[k];
      BoundarySign(cost, S, T, |p| - 1, p[|p| - 1]);
      BoundaryWithinCost(cost, S, T, head, if t < |head| then t else -1);
    }
  }

  /** If some seam costs less than a bound, the cheapest one runs beside no cell that costs the
      bound or more. */
  lemma {:induction false} CheapestAvoids(cost: seq<real>, S: nat, T: nat, p: seq<nat>, q: seq<nat>, bound: real,
                                          t: nat, s: nat)
    requires IsCheapestSeam(cost, S, T, p) && NonNegative(cost)
    requires |q| == T && IsSeam(q, S) && SeamCost(cost, S, T, q) < bound
    requires t < T && s < S && (s == p[t] || s + 1 == p[t])
    ensures Cell(cost, S, T, s, t) < bound
  {
    hide Cell, IsPlane, BoundaryCost;
    BoundaryWithinCost(cost, S, T, p, t);
    BoundarySign(cost, S, T, t, p[t]);
  }

  /** With any seam cheaper than the star-mask penalty available, the chosen seam is adjacent to no
      masked cell, unless the penalty exceeds the unshared cost and the cell is too costly to be charged it. */
  lemma {:induction false} SeamAvoidsStars(e: Edge, panels: seq<Panel>, raw: seq<real>, w: nat, h: nat,
                                           cost: seq<real>, penalty: real, p: seq<nat>, q: seq<nat>, t: nat, s: nat)
    requires IsBandPlane(e, panels, raw, w, h, cost, penalty) && NonNegative(cost) && NonNegative(raw)
    requires IsCheapestSeam(cost, e.Short(), e.Long(), p)
    requires |q| == e.Long() && IsSeam(q, e.Short()) && SeamCost(cost, e.Short(), e.Long(), q) < penalty
    requires t < e.Long() && s < e.Short() && (s == p[t] || s + 1 == p[t])
    requires Shared(e, panels, w, h, t, s)
    requires var (x, y) := e.At(t, s); Cell(raw, w, h, x, y) < UNSHARED_COST || penalty <= UNSHARED_COST
    ensures !StarMasked(e, panels, w, h, t, s)
  {
    CheapestAvoids(cost, e.Short(), e.Long(), p, q, penalty, t, s);
    var (x, y) := e.At(t, s);
    CellAt(raw, w, h, x, y);
  }

  /** With any seam cheaper than the unshared cost available, every cell beside the chosen seam is
      shared by both panels. */
  lemma {:induction false} SeamStaysShared(e: Edge, panels: seq<Panel>, raw: seq<real>, w: nat, h: nat,
                                           cost: seq<real>, penalty: real, p: seq<nat>, q: seq<nat>, t: nat, s: nat)
    requires IsBandPlane(e, panels, raw, w, h, cost, penalty) && NonNegative(cost)
    requires IsCheapestSeam(cost, e.Short(), e.Long(), p)
    requires |q| == e.Long() && IsSeam(q, e.Short()) && SeamCost(cost, e.Short(), e.Long(), q) < UNSHARED_COST
    requires t < e.Long() && s < e.Short() && (s == p[t] || s + 1 == p[t])
    ensures Shared(e, panels, w, h, t, s)
  {
    CheapestAvoids(cost, e.Short(), e.Long(), p, q, UNSHARED_COST, t, s);
  }

  // ---------------------------------------------------------------- cost plane

  /** The unpenalised plane: raw cost on shared cells, the unshared cost elsewhere. */
  ghost predicate IsRawPlane(e: Edge, panels: seq<Panel>, raw: seq<real>, w: nat, h: nat, cost: seq<real>,
                             masked: seq<bool>, t0: int, s0: int) {
    && PanelsOn(panels, w, h) && e.FitsIn(|panels|, w, h) && IsPlane(|raw|, w, h)
    && IsPlane(|cost|, e.Short(), e.Long()) && IsPlane(|masked|, e.Short(), e.Long())
    && forall t, s :: 0 <= t < e.Long() && 0 <= s < e.Short() && (t < t0 || (t == t0 && s < s0)) ==>
         && Cell(cost, e.Short(), e.Long(), s, t) == BandCost(e, panels, raw, w, h, 0.0, t, s)
         && Cell(masked, e.Short(), e.Long(), s, t) ==
              (Shared(e, panels, w, h, t, s) && StarMasked(e, panels, w, h, t, s))
  }

  method ReadSeq<T>(p: seq<T>, w: nat, h: nat, x: int, y: int) returns (v: T)
    requires IsPlane(|p|, w, h) && 0 <= x < w && 0 <= y < h
    ensures v == Cell(p, w, h, x, y)
  {
    CellAt(p, w, h, x, y);
    v := p[y * w + x];
  }

  method RawPlane(e: Edge, panels: seq<Panel>, raw: seq<real>, w: nat, h: nat)
    returns (cost: array<real>, masked: array<bool>)
    requires PanelsOn(panels, w, h) && e.FitsIn(|panels|, w, h) && IsPlane(|raw|, w, h)
    ensures fresh(cost) && fresh(masked)
    ensures IsRawPlane(e, panels, raw, w, h, cost[..], masked[..], e.Long(), 0)
  {
    hide IsPlane, Cell;
    var S, T := e.Short(), e.Long();
    cost := NewPlane(S, T, 0.0);
    masked := NewPlane(S, T, false);
    for t := 0 to T
      invariant IsRawPlane(e, panels, raw, w, h, cost[..], masked[..], t, 0)
    {
      for s := 0 to S
        invariant IsRawPlane(e, panels, raw, w, h, cost[..], masked[..], t, s)
      {
        var (x, y) := e.At(t, s);
        var ca := ReadSeq(panels[e.a].coverage, w, h, x, y);
        var cb := ReadSeq(panels[e.b].coverage, w, h, x, y);
        if ca < 1.0 || cb < 1.0 {
          Write(cost, S, T, s, t, UNSHARED_COST);
          Write(masked, S, T, s, t, false);
        } else {
          var c := ReadSeq(raw, w, h, x, y);
          var ma := ReadSeq(panels[e.a].mask, w, h, x, y);
          var mb := ReadSeq(panels[e.b].mask, w, h, x, y);
          Write(cost, S, T, s, t, c);
          Write(masked, S, T, s, t, ma || mb);
        }
      }
    }
  }

  /** The costs below the unshared cost, in order. */
  function SharedCosts(cost: seq<real>): (r: seq<real>)
    ensures NonNegative(cost) ==> NonNegative(r)
  {
    if cost == [] then []
    else
      var head, last := SharedCosts(cost[..|cost| - 1]), cost[|cost| - 1];
      assert NonNegative(cost) ==> NonNegative(cost[..|cost| - 1]);
      if last < UNSHARED_COST then head + [last] else head
  }

  /** The penalty on star-masked cells: a large multiple of the median shared cost. */
  function Penalty(cost: seq<real>): (p: real)
    ensures NonNegative(cost) ==> p >= 0.0
  {
    var shared := SharedCosts(cost);
    if shared == [] then 0.0 else MASK_COST_FACTOR * Order.UpperMedian(shared)
  }

  method ChargeMasked(cost: array<real>, masked: array<bool>, penalty: real)
    requires cost.Length == masked.Length
    modifies cost
    ensures forall i :: 0 <= i < cost.Length ==>
              cost[i] == if masked[i] && old(cost[i]) < UNSHARED_COST then old(cost[i]) + penalty else old(cost[i])
  {
    for i := 0 to cost.Length
      invariant forall j :: 0 <= j < cost.Length ==>
                  cost[j] == if j < i && masked[j] && old(cost[j]) < UNSHARED_COST
                        then old(cost[j]) + penalty else old(cost[j])
    {
      if masked[i] && cost[i] < UNSHARED_COST {
        cost[i] := cost[i] + penalty;
      }
    }
  }

  /** The penalty is the one of the unpenalised plane. */
  ghost predicate IsPenalty(e: Edge, panels: seq<Panel>, raw: seq<real>, w: nat, h: nat, penalty: real) {
    exists C: seq<real>, M: seq<bool> :: IsRawPlane(e, panels, raw, w, h, C, M, e.Long(), 0) && penalty == Penalty(C)
  }

  /** The finished cost plane of a band. */
  method BandPlane(e: Edge, panels: seq<Panel>, raw: seq<real>, w: nat, h: nat)
    returns (cost: array<real>, ghost penalty: real)
    requires PanelsOn(panels, w, h) && e.FitsIn(|panels|, w, h) && IsPlane(|raw|, w, h)
    ensures fresh(cost) && IsBandPlane(e, panels, raw, w, h, cost[..], penalty)
    ensures IsPenalty(e, panels, raw, w, h, penalty)
    ensures NonNegative(raw) ==> NonNegative(cost[..]) && penalty >= 0.0
  {
    hide IsPlane, Cell, BandCost, Penalty, IsRawPlane;
    var masked;
    cost, masked := RawPlane(e, panels, raw, w, h);
    ghost var C, M := cost[..], masked[..];
    RawNonNegative(e, panels, raw, w, h, C, M);
    RawSameSize(e, panels, raw, w, h, C, M);
    var p := Penalty(cost[..]);
    ChargeMasked(cost, masked, p);
    penalty := p;
    assert IsPenalty(e, panels, raw, w, h, penalty);
    ChargedPlane(e, panels, raw, w, h, C, M, cost[..], p);
  }

  lemma {:induction false} RawSameSize(e: Edge, panels: seq<Panel>, raw: seq<real>, w: nat, h: nat, C: seq<real>,
                                       M: seq<bool>)
    requires IsRawPlane(e, panels, raw, w, h, C, M, e.Long(), 0)
    ensures |C| == |M|
  {
  }

  lemma {:induction false} RawNonNegative(e: Edge, panels: seq<Panel>, raw: seq<real>, w: nat, h: nat, C: seq<real>,
                                          M: seq<bool>)
    requires IsRawPlane(e, panels, raw, w, h, C, M, e.Long(), 0)
    ensures NonNegative(raw) ==> NonNegative(C)
  {
    if NonNegative(raw) {
      forall i | 0 <= i < |C| ensures C[i] >= 0.0 {
        var s, t := CellOf(e.Short(), e.Long(), i);
        CellAt(C, e.Short(), e.Long(), s, t);
        var (x, y) := e.At(t, s);
        CellAt(raw, w, h, x, y);
      }
    }
  }

  lemma {:induction false} ChargedPlane(e: Edge, panels: seq<Panel>, raw: seq<real>, w: nat, h: nat,
                                        C: seq<real>, M: seq<bool>, D: seq<real>, penalty: real)
    requires IsRawPlane(e, panels, raw, w, h, C, M, e.Long(), 0) && |D| == |C| == |M|
    requires forall i :: 0 <= i < |C| ==> D[i] == if M[i] && C[i] < UNSHARED_COST then C[i] + penalty else C[i]
    ensures IsBandPlane(e, panels, raw, w, h, D, penalty)
  {
    forall t, s | 0 <= t < e.Long() && 0 <= s < e.Short()
      ensures Cell(D, e.Short(), e.Long(), s, t) == BandCost(e, panels, raw, w, h, penalty, t, s)
    {
      CellAt(C, e.Short(), e.Long(), s, t);
      CellAt(M, e.Short(), e.Long(), s, t);
      CellAt(D, e.Short(), e.Long(), s, t);
    }
  }

  // ---------------------------------------------------------------- relabelling

  /** One relabel operation: flat cell index and its new owner. */
  type Op = (nat, nat)

  /** The operation a seam `p` prescribes for a shared band cell. */
  ghost predicate IsOpAt(e: Edge, panels: seq<Panel>, w: nat, h: nat, p: seq<nat>, low: nat, high: nat, t: int, s: int,
                         op: Op)
    requires PanelsOn(panels, w, h) && e.FitsIn(|panels|, w, h) && |p| == e.Long()
  {
    Shared(e, panels, w, h, t, s) &&
    var (x, y) := e.At(t, s);
    op.0 == y * w + x && op.1 == if s < p[t] then low else high
  }

  ghost predicate IsOp(e: Edge, panels: seq<Panel>, w: nat, h: nat, p: seq<nat>, low: nat, high: nat, op: Op)
    requires PanelsOn(panels, w, h) && e.FitsIn(|panels|, w, h) && |p| == e.Long()
  {
    exists t, s :: IsOpAt(e, panels, w, h, p, low, high, t, s, op)
  }

  /** No cell is named twice. */
  ghost predicate NamesOnce(ops: seq<Op>) {
    forall k, l :: 0 <= k < l < |ops| ==> ops[k].0 != ops[l].0
  }

  /** The operations relabel exactly the shared cells of the band, each once: those before the seam to one
      panel of the edge, those behind it to the other. */
  ghost predicate SplitsBand(e: Edge, panels: seq<Panel>, w: nat, h: nat, p: seq<nat>, ops: seq<Op>, aFirst: bool) {
    && PanelsOn(panels, w, h) && e.FitsIn(|panels|, w, h) && |p| == e.Long()
    && var (low, high) := if aFirst then (e.a, e.b) else (e.b, e.a);
       (forall op :: op in ops <==> IsOp(e, panels, w, h, p, Narrow16(low), Narrow16(high), op)) && NamesOnce(ops)
  }

  /** The first panel is, summed over the slices, at least as deep as the second at the band's low edge. */
  ghost predicate DeeperFirst(e: Edge, dists: seq<seq<real>>, w: nat, h: nat) {
    && e.FitsIn(|dists|, w, h) && 0 < e.Short()
    && IsPlane(|dists[e.a]|, w, h) && IsPlane(|dists[e.b]|, w, h)
    && LowDepth(e, dists[e.a], dists[e.b], w, h, e.Long()) >= 0.0
  }

  // ---------------------------------------------------------------- the cut, cell by cell

  predicate InBox(e: Edge, x: nat, y: nat) {
    e.x0 <= x < e.x1 && e.y0 <= y < e.y1
  }

  /** A cell of the band's box that both panels cover fully. */
  ghost predicate SharedAt(e: Edge, panels: seq<Panel>, w: nat, h: nat, x: nat, y: nat)
    requires PanelsOn(panels, w, h) && e.FitsIn(|panels|, w, h)
  {
    && InBox(e, x, y)
    && Cell(panels[e.a].coverage, w, h, x, y) >= 1.0 && Cell(panels[e.b].coverage, w, h, x, y) >= 1.0
  }

  /** The side of the seam a cell is on: a box at least as wide as high is cut column by column, any other row by
      row. */
  predicate OnLowSide(e: Edge, p: seq<nat>, x: nat, y: nat)
    requires InBox(e, x, y) && |p| == Max(e.x1 - e.x0, e.y1 - e.y0)
  {
    if e.x1 - e.x0 >= e.y1 - e.y0 then y - e.y0 < p[x - e.x0] else x - e.x0 < p[y - e.y0]
  }

  /** The operations cut the box across its shorter axis, once in every column or row of the longer one: its shared
      cells, and no others, are given to the low or the high panel. */
  ghost predicate CutsAcross(e: Edge, panels: seq<Panel>, w: nat, h: nat, p: seq<nat>, ops: seq<Op>, low: nat,
                             high: nat) {
    && PanelsOn(panels, w, h) && e.FitsIn(|panels|, w, h) && |p| == Max(e.x1 - e.x0, e.y1 - e.y0)
    && (forall x: nat, y: nat :: SharedAt(e, panels, w, h, x, y) ==>
          (y * w + x, if OnLowSide(e, p, x, y) then low else high) in ops)
    && (forall op :: op in ops ==>
          exists x: nat, y: nat :: SharedAt(e, panels, w, h, x, y) && op.0 == y * w + x)
  }

  /** Sum of a plane along `n` cells of a row, or of a column. */
  ghost function AlongRow(d: seq<real>, w: nat, h: nat, x: nat, y: nat, n: nat): real
    requires IsPlane(|d|, w, h) && x + n <= w && y < h
  {
    if n == 0 then 0.0 else AlongRow(d, w, h, x, y, n - 1) + Cell(d, w, h, x + n - 1, y)
  }

  ghost function AlongColumn(d: seq<real>, w: nat, h: nat, x: nat, y: nat, n: nat): real
    requires IsPlane(|d|, w, h) && x < w && y + n <= h
  {
    if n == 0 then 0.0 else AlongColumn(d, w, h, x, y, n - 1) + Cell(d, w, h, x, y + n - 1)
  }

  /** The first panel is at least as deep as the second along the box's first row, or its first column if the box is
      higher than wide. */
  ghost predicate FirstIsDeeper(e: Edge, distA: seq<real>, distB: seq<real>, w: nat, h: nat)
    requires e.FitsIn(e.a + e.b + 1, w, h) && IsPlane(|distA|, w, h) && IsPlane(|distB|, w, h)
    requires e.x0 < e.x1 && e.y0 < e.y1
  {
    var dx, dy := e.x1 - e.x0, e.y1 - e.y0;
    if dx >= dy then AlongRow(distA, w, h, e.x0, e.y0, dx) >= AlongRow(distB, w, h, e.x0, e.y0, dx)
    else AlongColumn(distA, w, h, e.x0, e.y0, dy) >= AlongColumn(distB, w, h, e.x0, e.y0, dy)
  }

  lemma {:induction false} LowDepthAlong(e: Edge, distA: seq<real>, distB: seq<real>, w: nat, h: nat, n: nat)
    requires e.FitsIn(e.a + e.b + 1, w, h) && IsPlane(|distA|, w, h) && IsPlane(|distB|, w, h)
    requires e.x0 < e.x1 && e.y0 < e.y1 && n <= e.Long()
    ensures e.x1 - e.x0 >= e.y1 - e.y0 ==>
              e.x0 + n <= w
              && LowDepth(e, distA, distB, w, h, n)
                   == AlongRow(distA, w, h, e.x0, e.y0, n) - AlongRow(distB, w, h, e.x0, e.y0, n)
    ensures e.x1 - e.x0 < e.y1 - e.y0 ==>
              e.y0 + n <= h
              && LowDepth(e, distA, distB, w, h, n)
                   == AlongColumn(distA, w, h, e.x0, e.y0, n) - AlongColumn(distB, w, h, e.x0, e.y0, n)
    decreases n
  {
    hide Cell, IsPlane;
    if n > 0 { LowDepthAlong(e, distA, distB, w, h, n - 1); }
  }

  lemma {:induction false} DeeperIs(e: Edge, dists: seq<seq<real>>, w: nat, h: nat)
    requires e.FitsIn(|dists|, w, h) && IsPlane(|dists[e.a]|, w, h) && IsPlane(|dists[e.b]|, w, h)
    requires e.x0 < e.x1 && e.y0 < e.y1
    ensures DeeperFirst(e, dists, w, h) <==> FirstIsDeeper(e, dists[e.a], dists[e.b], w, h)
  {
    LowDepthAlong(e, dists[e.a], dists[e.b], w, h, e.Long());
    hide LowDepth, AlongRow, AlongColumn, IsPlane;
  }

  /** Position of a cell of the box in its band. */
  lemma {:induction false} BandPlace(e: Edge, panels: seq<Panel>, w: nat, h: nat, x: nat, y: nat)
    returns (t: int, s: int)
    requires PanelsOn(panels, w, h) && e.FitsIn(|panels|, w, h) && SharedAt(e, panels, w, h, x, y)
    ensures Shared(e, panels, w, h, t, s) && e.At(t, s) == (x as int, y as int)
    ensures if e.x1 - e.x0 >= e.y1 - e.y0 then t == x - e.x0 && s == y - e.y0 else t == y - e.y0 && s == x - e.x0
  {
    hide Cell, IsPlane;
    if e.x1 - e.x0 >= e.y1 - e.y0 {
      t, s := x - e.x0, y - e.y0;
    } else {
      t, s := y - e.y0, x - e.x0;
    }
  }

  lemma {:induction false} CellHasItsOp(e: Edge, panels: seq<Panel>, w: nat, h: nat, p: seq<nat>, low: nat, high: nat,
                                        x: nat, y: nat)
    requires PanelsOn(panels, w, h) && e.FitsIn(|panels|, w, h) && |p| == e.Long()
    requires SharedAt(e, panels, w, h, x, y)
    ensures |p| == Max(e.x1 - e.x0, e.y1 - e.y0)
    ensures IsOp(e, panels, w, h, p, low, high, (y * w + x, if OnLowSide(e, p, x, y) then low else high))
  {
    var t, s := BandPlace(e, panels, w, h, x, y);
    var op := (y * w + x, if OnLowSide(e, p, x, y) then low else high);
    hide Cell, IsPlane, PanelsOn, SharedAt, Shared;
    assert IsOpAt(e, panels, w, h, p, low, high, t, s, op);
  }

  lemma {:induction false} OpHasItsCell(e: Edge, panels: seq<Panel>, w: nat, h: nat, p: seq<nat>, low: nat, high: nat,
                                        op: Op)
    returns (x: nat, y: nat)
    requires PanelsOn(panels, w, h) && e.FitsIn(|panels|, w, h) && |p| == e.Long()
    requires IsOp(e, panels, w, h, p, low, high, op)
    ensures SharedAt(e, panels, w, h, x, y) && op.0 == y * w + x
  {
    var t, s :| IsOpAt(e, panels, w, h, p, low, high, t, s, op);
    hide Cell, IsPlane, PanelsOn;
    var (u, v) := e.At(t, s);
    x, y := u, v;
  }

  lemma {:induction false} SplitCutsAcross(e: Edge, panels: seq<Panel>, w: nat, h: nat, p: seq<nat>, ops: seq<Op>,
                                           aFirst: bool)
    requires SplitsBand(e, panels, w, h, p, ops, aFirst)
    ensures CutsAcross(e, panels, w, h, p, ops, Narrow16(if aFirst then e.a else e.b),
                       Narrow16(if aFirst then e.b else e.a))
  {
    hide IsOp, SharedAt, PanelsOn, NamesOnce, OnLowSide;
    var (low, high) := if aFirst then (Narrow16(e.a), Narrow16(e.b)) else (Narrow16(e.b), Narrow16(e.a));
    assert |p| == Max(e.x1 - e.x0, e.y1 - e.y0);
    forall x: nat, y: nat | SharedAt(e, panels, w, h, x, y)
      ensures InBox(e, x, y) && (y * w + x, if OnLowSide(e, p, x, y) then low else high) in ops
    {
      SharedInBox(e, panels, w, h, x, y);
      CellHasItsOp(e, panels, w, h, p, low, high, x, y);
    }
    forall op | op in ops ensures exists x: nat, y: nat :: SharedAt(e, panels, w, h, x, y) && op.0 == y * w + x {
      var x, y := OpHasItsCell(e, panels, w, h, p, low, high, op);
    }
  }

  lemma {:induction false} SharedInBox(e: Edge, panels: seq<Panel>, w: nat, h: nat, x: nat, y: nat)
    requires PanelsOn(panels, w, h) && e.FitsIn(|panels|, w, h) && SharedAt(e, panels, w, h, x, y)
    ensures InBox(e, x, y)
  {
  }

  /** The low side goes to the panel that is deeper there. */
  ghost predicate CutsToDeeper(e: Edge, panels: seq<Panel>, dists: seq<seq<real>>, w: nat, h: nat, p: seq<nat>,
                               ops: seq<Op>) {
    && e.FitsIn(|dists|, w, h) && IsPlane(|dists[e.a]|, w, h) && IsPlane(|dists[e.b]|, w, h)
    && e.x0 < e.x1 && e.y0 < e.y1
    && if FirstIsDeeper(e, dists[e.a], dists[e.b], w, h)
       then CutsAcross(e, panels, w, h, p, ops, Narrow16(e.a), Narrow16(e.b))
       else CutsAcross(e, panels, w, h, p, ops, Narrow16(e.b), Narrow16(e.a))
  }

  lemma {:induction false} SplitCutsToDeeper(e: Edge, panels: seq<Panel>, dists: seq<seq<real>>, w: nat, h: nat,
                                             p: seq<nat>, ops: seq<Op>)
    requires SplitsBand(e, panels, w, h, p, ops, DeeperFirst(e, dists, w, h))
    requires e.FitsIn(|dists|, w, h) && IsPlane(|dists[e.a]|, w, h) && IsPlane(|dists[e.b]|, w, h)
    requires e.x0 < e.x1 && e.y0 < e.y1
    ensures CutsToDeeper(e, panels, dists, w, h, p, ops)
  {
    hide SplitsBand, CutsAcross, DeeperFirst, FirstIsDeeper, IsPlane;
    DeeperIs(e, dists, w, h);
    SplitCutsAcross(e, panels, w, h, p, ops, DeeperFirst(e, dists, w, h));
  }

  /** `p` is the cheapest seam of the band's finished cost plane. */
  ghost predicate IsBandSeam(e: Edge, panels: seq<Panel>, raw: seq<real>, w: nat, h: nat, p: seq<nat>) {
    exists cost: seq<real>, penalty: real ::
      && IsBandPlane(e, panels, raw, w, h, cost, penalty) && IsPenalty(e, panels, raw, w, h, penalty)
      && IsTheSeam(cost, e.Short(), e.Long(), p)
  }

  /** Sum over the slices of how much deeper the first panel is at the band's low edge. */
  method LowScore(e: Edge, distA: seq<real>, distB: seq<real>, w: nat, h: nat) returns (score: real)
    requires e.FitsIn(e.a + e.b + 1, w, h) && IsPlane(|distA|, w, h) && IsPlane(|distB|, w, h) && 0 < e.Short()
    ensures score == LowDepth(e, distA, distB, w, h, e.Long())
  {
    hide IsPlane, Cell;
    score := 0.0;
    for t := 0 to e.Long()
      invariant score == LowDepth(e, distA, distB, w, h, t)
    {
      var (x, y) := e.At(t, 0);
      var da := ReadSeq(distA, w, h, x, y);
      var db := ReadSeq(distB, w, h, x, y);
      score := score + (da - db);
    }
  }

  ghost function LowDepth(e: Edge, distA: seq<real>, distB: seq<real>, w: nat, h: nat, n: nat): real
    requires e.FitsIn(e.a + e.b + 1, w, h) && IsPlane(|distA|, w, h) && IsPlane(|distB|, w, h) && 0 < e.Short()
    requires n <= e.Long()
  {
    if n == 0 then 0.0
    else
      var (x, y) := e.At(n - 1, 0);
      LowDepth(e, distA, distB, w, h, n - 1) + (Cell(distA, w, h, x, y) - Cell(distB, w, h, x, y))
  }

  /** Slices before `t0`, and positions before `s0` of that slice, have their operations listed. */
  ghost predicate Listed(e: Edge, panels: seq<Panel>, w: nat, h: nat, p: seq<nat>, low: nat, high: nat,
                         ops: seq<Op>, t0: int, s0: int)
    requires PanelsOn(panels, w, h) && e.FitsIn(|panels|, w, h) && |p| == e.Long()
  {
    && (forall op :: op in ops ==> IsOp(e, panels, w, h, p, low, high, op))
    && (forall t, s, op :: IsOpAt(e, panels, w, h, p, low, high, t, s, op) && (t < t0 || (t == t0 && s < s0)) ==>
          op in ops)
  }

  lemma {:induction false} ListedAll(e: Edge, panels: seq<Panel>, w: nat, h: nat, p: seq<nat>, low: nat, high: nat,
                                     ops: seq<Op>)
    requires PanelsOn(panels, w, h) && e.FitsIn(|panels|, w, h) && |p| == e.Long()
    requires Listed(e, panels, w, h, p, low, high, ops, e.Long(), 0)
    ensures forall op :: op in ops <==> IsOp(e, panels, w, h, p, low, high, op)
  {
    hide Shared;
    forall op | IsOp(e, panels, w, h, p, low, high, op) ensures op in ops {
      var t, s :| IsOpAt(e, panels, w, h, p, low, high, t, s, op);
      assert t < e.Long() by { OpInBand(e, panels, w, h, p, low, high, t, s, op); }
    }
  }

  lemma {:induction false} OpInBand(e: Edge, panels: seq<Panel>, w: nat, h: nat, p: seq<nat>, low: nat, high: nat,
                                    t: int, s: int, op: Op)
    requires PanelsOn(panels, w, h) && e.FitsIn(|panels|, w, h) && |p| == e.Long()
    requires IsOpAt(e, panels, w, h, p, low, high, t, s, op)
    ensures 0 <= t < e.Long() && 0 <= s < e.Short()
  {
  }

  /** Nothing listed at the start; a slice listed to its end starts the next one. */
  lemma {:induction false} ListedTurns(e: Edge, panels: seq<Panel>, w: nat, h: nat, p: seq<nat>, low: nat, high: nat,
                                       ops: seq<Op>, t: nat)
    requires PanelsOn(panels, w, h) && e.FitsIn(|panels|, w, h) && |p| == e.Long() && t < e.Long()
    ensures Listed(e, panels, w, h, p, low, high, [], 0, 0)
    ensures Listed(e, panels, w, h, p, low, high, ops, t, e.Short()) ==>
              Listed(e, panels, w, h, p, low, high, ops, t + 1, 0)
  {
    hide IsOp, Shared, Cell;
    forall t', s, op | IsOpAt(e, panels, w, h, p, low, high, t', s, op) ensures 0 <= t' && 0 <= s < e.Short() {
      OpInBand(e, panels, w, h, p, low, high, t', s, op);
    }
  }

  /** One more position, whose operation is `more` if it has one. */
  lemma {:induction false} ListedGrows(e: Edge, panels: seq<Panel>, w: nat, h: nat, p: seq<nat>, low: nat, high: nat,
                                       ops: seq<Op>, t: nat, s: nat, more: seq<Op>)
    requires PanelsOn(panels, w, h) && e.FitsIn(|panels|, w, h) && |p| == e.Long() && t < e.Long() && s < e.Short()
    requires Listed(e, panels, w, h, p, low, high, ops, t, s)
    requires forall op :: op in more <==> IsOpAt(e, panels, w, h, p, low, high, t, s, op)
    ensures Listed(e, panels, w, h, p, low, high, ops + more, t, s + 1)
  {
    forall op | op in more ensures IsOp(e, panels, w, h, p, low, high, op) {
      OpExists(e, panels, w, h, p, low, high, t, s, op);
    }
    hide IsOp, IsOpAt, PanelsOn;
  }

  predicate Sooner(a: (int, int), b: (int, int)) {
    a.0 < b.0 || (a.0 == b.0 && a.1 < b.1)
  }

  /** The positions the operations were made at: in order, all before slice `t`, position `s`. */
  ghost predicate Placed(e: Edge, w: nat, ops: seq<Op>, places: seq<(int, int)>, t: int, s: int) {
    && |places| == |ops|
    && (forall k :: 0 <= k < |ops| ==>
          && 0 <= places[k].0 < e.Long() && 0 <= places[k].1 < e.Short() && Sooner(places[k], (t, s))
          && var (x, y) := e.At(places[k].0, places[k].1); ops[k].0 == y * w + x)
    && (forall k, l :: 0 <= k < l < |ops| ==> Sooner(places[k], places[l]))
  }

  lemma {:induction false} PlacedGrows(e: Edge, w: nat, ops: seq<Op>, places: seq<(int, int)>, t: nat, s: nat, op: Op)
    requires Placed(e, w, ops, places, t, s) && t < e.Long() && s < e.Short()
    requires var (x, y) := e.At(t, s); op.0 == y * w + x
    ensures Placed(e, w, ops, places, t, s + 1) && Placed(e, w, ops + [op], places + [(t, s)], t, s + 1)
  {
  }

  lemma {:induction false} PlacedTurns(e: Edge, w: nat, ops: seq<Op>, places: seq<(int, int)>, t: nat)
    requires Placed(e, w, ops, places, t, e.Short())
    ensures Placed(e, w, ops, places, t + 1, 0)
  {
  }

  lemma {:induction false} PlacedOnce(e: Edge, n: nat, w: nat, h: nat, ops: seq<Op>, places: seq<(int, int)>, t: int,
                                      s: int)
    requires Placed(e, w, ops, places, t, s) && e.FitsIn(n, w, h)
    ensures NamesOnce(ops)
  {
    forall k, l | 0 <= k < l < |ops| ensures ops[k].0 != ops[l].0 {
      var (x, y) := e.At(places[k].0, places[k].1);
      var (x', y') := e.At(places[l].0, places[l].1);
      assert x < w && x' < w && Sooner(places[k], places[l]);
      if y * w + x == y' * w + x' { Indexing.Injective(w, x, y, x', y'); }
    }
  }

  method Relabels(e: Edge, panels: seq<Panel>, w: nat, h: nat, p: seq<nat>, low: nat, high: nat) returns (ops: seq<Op>)
    requires PanelsOn(panels, w, h) && e.FitsIn(|panels|, w, h) && |p| == e.Long()
    ensures forall op :: op in ops <==> IsOp(e, panels, w, h, p, low, high, op)
    ensures NamesOnce(ops)
  {
    hide IsPlane, Cell, IsOp, Listed, Placed, NamesOnce;
    ghost var places: seq<(int, int)> := [];
    ops := [];
    NothingPlaced(e, w);
    if e.Long() > 0 {
      ListedTurns(e, panels, w, h, p, low, high, ops, 0);
    } else {
      ListedNone(e, panels, w, h, p, low, high);
    }
    for t := 0 to e.Long()
      invariant Listed(e, panels, w, h, p, low, high, ops, t, 0) && Placed(e, w, ops, places, t, 0)
    {
      for s := 0 to e.Short()
        invariant Listed(e, panels, w, h, p, low, high, ops, t, s) && Placed(e, w, ops, places, t, s)
      {
        var (x, y) := e.At(t, s);
        var ca := ReadSeq(panels[e.a].coverage, w, h, x, y);
        var cb := ReadSeq(panels[e.b].coverage, w, h, x, y);
        var more: seq<Op> := [];
        PlacedGrows(e, w, ops, places, t, s, (y * w + x, if s < p[t] then low else high));
        if !(ca < 1.0 || cb < 1.0) {
          more := [(y * w + x, if s < p[t] then low else high)];
          places := places + [(t, s)];
        }
        ListedGrows(e, panels, w, h, p, low, high, ops, t, s, more);
        assert more == [] ==> ops + more == ops;
        ops := ops + more;
      }
      ListedTurns(e, panels, w, h, p, low, high, ops, t);
      PlacedTurns(e, w, ops, places, t);
    }
    PlacedOnce(e, |panels|, w, h, ops, places, e.Long(), 0);
    ListedAll(e, panels, w, h, p, low, high, ops);
  }

  lemma {:induction false} NothingPlaced(e: Edge, w: nat)
    ensures Placed(e, w, [], [], 0, 0)
  {
  }

  lemma {:induction false} ListedNone(e: Edge, panels: seq<Panel>, w: nat, h: nat, p: seq<nat>, low: nat, high: nat)
    requires PanelsOn(panels, w, h) && e.FitsIn(|panels|, w, h) && |p| == e.Long() == 0
    ensures Listed(e, panels, w, h, p, low, high, [], 0, 0)
  {
    hide IsOp, Shared, Cell;
    forall t, s, op | IsOpAt(e, panels, w, h, p, low, high, t, s, op) ensures 0 <= t && 0 <= s {
      OpInBand(e, panels, w, h, p, low, high, t, s, op);
    }
  }

  lemma {:induction false} OpExists(e: Edge, panels: seq<Panel>, w: nat, h: nat, p: seq<nat>, low: nat, high: nat,
                                    t: int, s: int, op: Op)
    requires PanelsOn(panels, w, h) && e.FitsIn(|panels|, w, h) && |p| == e.Long()
    requires IsOpAt(e, panels, w, h, p, low, high, t, s, op)
    ensures IsOp(e, panels, w, h, p, low, high, op)
  {
  }

  /** The seam of one edge and the operations it prescribes; corner overlaps prescribe none. */
  method EdgeSeam(e: Edge, panels: seq<Panel>, raw: seq<real>, dists: seq<seq<real>>, w: nat, h: nat)
    returns (ops: seq<Op>, ghost cost: seq<real>, ghost penalty: real, ghost path: seq<nat>)
    requires PanelsOn(panels, w, h) && e.FitsIn(|panels|, w, h) && IsPlane(|raw|, w, h)
    requires |dists| == |panels| && forall p :: 0 <= p < |dists| ==> IsPlane(|dists[p]|, w, h)
    requires e.x0 < e.x1 && e.y0 < e.y1
    ensures Max(e.x1 - e.x0, e.y1 - e.y0) < DP_MIN_LONG ==> ops == []
    ensures !e.IsCorner() ==>
              IsBandPlane(e, panels, raw, w, h, cost, penalty) && IsPenalty(e, panels, raw, w, h, penalty)
    ensures !e.IsCorner() && NonNegative(raw) ==> NonNegative(cost) && penalty >= 0.0
    ensures !e.IsCorner() && e.Short() <= 0xFFFF ==> IsTheSeam(cost, e.Short(), e.Long(), path)
    ensures !e.IsCorner() ==> SplitsBand(e, panels, w, h, path, ops, DeeperFirst(e, dists, w, h))
    ensures Max(e.x1 - e.x0, e.y1 - e.y0) >= DP_MIN_LONG ==> CutsToDeeper(e, panels, dists, w, h, path, ops)
  {
    hide CutsToDeeper, IsPlane, Cell, IsBandPlane, IsTheSeam, NonNegative, PanelsOn, IsOp, IsPenalty, LowDepth,
         NamesOnce;
    ops, cost, penalty, path := [], [], 0.0, [];
    if e.IsCorner() {
      return;
    }
    var plane;
    plane, penalty := BandPlane(e, panels, raw, w, h);
    cost := plane[..];
    BandIsPlane(e, panels, raw, w, h, cost, penalty);
    var p, _ := CheapestSeam(plane, e.Short(), e.Long());
    path := p;
    var score := LowScore(e, dists[e.a], dists[e.b], w, h);
    if score >= 0.0 {
      ops := Relabels(e, panels, w, h, p, Narrow16(e.a), Narrow16(e.b));
    } else {
      ops := Relabels(e, panels, w, h, p, Narrow16(e.b), Narrow16(e.a));
    }
    SplitCutsToDeeper(e, panels, dists, w, h, path, ops);
  }

  lemma {:induction false} BandIsPlane(e: Edge, panels: seq<Panel>, raw: seq<real>, w: nat, h: nat, cost: seq<real>,
                                       penalty: real)
    requires IsBandPlane(e, panels, raw, w, h, cost, penalty)
    ensures IsPlane(|cost|, e.Short(), e.Long())
  {
  }

  // ---------------------------------------------------------------- Voronoi labels

  /** Feather weight of a cell at distance `d` from the panel's rim. With no feather at all the weight jumps at the
      rim: the inverse is infinite, and at distance zero the product is not a number, which the floor replaces. */
  function FeatherWeight(d: real, feather: real): real {
    var raw := if feather != 0.0 then d * BLOCK * (1.0 / feather) else if d > 0.0 then 1.0 else 0.0;
    var clamped := if raw < 0.0 then 0.0 else if raw > 1.0 then 1.0 else raw;
    if clamped < MIN_WEIGHT then MIN_WEIGHT else clamped
  }

  /** Across the feather the weight rises in proportion to the distance in pixels, from the floor up to one. */
  lemma {:induction false} FeatherRamp(d: real, feather: real)
    requires feather > 0.0
    ensures var r := FeatherWeight(d, feather);
            && 0.0001 <= r <= 1.0
            && (r == 1.0 <==> 8.0 * d >= feather)
            && (r == 0.0001 <==> 8.0 * d <= 0.0001 * feather)
            && (0.0001 < r < 1.0 ==> r * feather == 8.0 * d)
  {
    var raw := d * BLOCK * (1.0 / feather);
    Undivided(d * BLOCK, feather);
    RampEnds(raw, feather, 8.0 * d);
    Clamped(d, feather, raw);
    hide FeatherWeight;
    var r := FeatherWeight(d, feather);
    if 0.0001 < r < 1.0 { assert r == raw; }
  }

  lemma {:induction false} Clamped(d: real, feather: real, raw: real)
    requires feather > 0.0 && raw == d * BLOCK * (1.0 / feather)
    ensures FeatherWeight(d, feather) == if raw < 0.0001 then 0.0001 else if raw > 1.0 then 1.0 else raw
  {
  }

  lemma {:induction false} RampEnds(raw: real, f: real, e: real)
    requires f > 0.0 && raw * f == e
    ensures (raw >= 1.0 <==> e >= f) && (raw > 0.0001 <==> e > 0.0001 * f)
  {
    var low, high := raw - 0.0001, raw - 1.0;
    assert low * f == e - 0.0001 * f;
    assert high * f == e - f;
    if low > 0.0 { Grown(low, f); } else { Grown(-low, f); }
    if high >= 0.0 { Grown(high, f); } else { Grown(-high, f); }
    assert (-low) * f == -(low * f) && (-high) * f == -(high * f);
  }

  lemma {:induction false} Undivided(a: real, f: real)
    requires f != 0.0
    ensures (a * (1.0 / f)) * f == a
  {
    var g := 1.0 / f;
    assert g * f == 1.0;
    assert (a * g) * f == a * (g * f);
  }

  lemma {:induction false} Grown(a: real, f: real)
    requires a >= 0.0 && f > 0.0
    ensures a * f >= 0.0 && (a > 0.0 ==> a * f > 0.0)
  {
  }

  /** Deeper cells never weigh less, whatever the feather but a negative one. */
  lemma {:induction false} FeatherMonotone(d: real, d': real, feather: real)
    requires feather >= 0.0 && d <= d'
    ensures FeatherWeight(d, feather) <= FeatherWeight(d', feather)
  {
    if feather > 0.0 {
      var a, b := d * BLOCK, d' * BLOCK;
      var raw, raw' := a * (1.0 / feather), b * (1.0 / feather);
      RawRises(a, b, feather);
      assert raw <= raw';
      Clamped(d, feather, raw);
      Clamped(d', feather, raw');
      hide FeatherWeight;
      assert FeatherWeight(d, feather) <= FeatherWeight(d', feather);
    } else {
      NoFeather(d);
      NoFeather(d');
      hide FeatherWeight;
      assert FeatherWeight(d, 0.0) <= FeatherWeight(d', 0.0);
      assert feather == 0.0;
    }
  }

  lemma {:induction false} NoFeather(d: real)
    ensures FeatherWeight(d, 0.0) == if d > 0.0 then 1.0 else 0.0001
  {
  }

  lemma {:induction false} RawRises(a: real, b: real, f: real)
    requires f > 0.0 && a <= b
    ensures a * (1.0 / f) <= b * (1.0 / f)
  {
    var low, high := a * (1.0 / f), b * (1.0 / f);
    Undivided(a, f);
    Undivided(b, f);
    if low > high {
      Grown(low - high, f);
      assert (low - high) * f == low * f - high * f;
    }
  }

  /** Panel `p` beats panel `q` at a cell: larger weight, then larger distance, then lower index. */
  ghost predicate Beats(dists: seq<seq<real>>, feather: real, i: nat, p: nat, q: nat)
    requires p < |dists| && q < |dists| && i < |dists[p]| && i < |dists[q]|
  {
    var (dp, dq) := (dists[p][i], dists[q][i]);
    var (wp, wq) := (FeatherWeight(dp, feather), FeatherWeight(dq, feather));
    wp > wq || (wp == wq && (dp > dq || (dp == dq && p <= q)))
  }

  /** `o` is the covering panel that beats all others at cell `i`, or no owner when none covers. */
  ghost predicate IsVoronoi(panels: seq<Panel>, dists: seq<seq<real>>, feather: real, i: nat, o: nat)
    requires |dists| == |panels|
    requires forall p :: 0 <= p < |panels| ==> i < |panels[p].coverage| && i < |dists[p]|
  {
    if exists p :: 0 <= p < |panels| && Covers(panels, p, i) then
      exists p: nat :: p < |panels| && Covers(panels, p, i) && o == Narrow16(p)
        && forall q: nat :: q < |panels| && Covers(panels, q, i) ==> Beats(dists, feather, i, p, q)
    else o == NO_OWNER
  }

  ghost predicate Covers(panels: seq<Panel>, p: nat, i: nat)
    requires p < |panels| && i < |panels[p].coverage|
  {
    panels[p].coverage[i] > 0.0
  }

  method VoronoiLabel(panels: seq<Panel>, dists: seq<seq<real>>, feather: real, i: nat) returns (o: nat)
    requires |dists| == |panels|
    requires forall p :: 0 <= p < |panels| ==> i < |panels[p].coverage| && i < |dists[p]|
    ensures IsVoronoi(panels, dists, feather, i, o)
  {
    hide FeatherWeight;
    o := NO_OWNER;
    var found, best, bestW, bestD := false, 0, 0.0, 0.0;
    for p := 0 to |panels|
      invariant !found ==> o == NO_OWNER && forall q :: 0 <= q < p ==> !Covers(panels, q, i)
      invariant found ==> best < p && Covers(panels, best, i) && o == Narrow16(best)
      invariant found ==> bestD == dists[best][i] && bestW == FeatherWeight(bestD, feather)
      invariant found ==> forall q :: 0 <= q < p && Covers(panels, q, i) ==> Beats(dists, feather, i, best, q)
    {
      if !(panels[p].coverage[i] <= 0.0) {
        var d := dists[p][i];
        var wgt := FeatherWeight(d, feather);
        if !found || wgt > bestW || (wgt == bestW && d > bestD) {
          found, best, bestW, bestD, o := true, p, wgt, d, Narrow16(p);
        }
      }
    }
  }

  // ---------------------------------------------------------------- owner map

  /** A cell has no owner exactly when no panel covers it; otherwise its owner covers it. */
  ghost predicate Owned(panels: seq<Panel>, i: nat, o: nat)
    requires forall p :: 0 <= p < |panels| ==> i < |panels[p].coverage|
  {
    if exists p :: 0 <= p < |panels| && Covers(panels, p, i)
    then o != NO_OWNER && o < |panels| && Covers(panels, o, i)
    else o == NO_OWNER
  }

  ghost predicate OwnedAll(panels: seq<Panel>, owner: seq<nat>) {
    && (forall p :: 0 <= p < |panels| ==> |panels[p].coverage| == |owner|)
    && forall i :: 0 <= i < |owner| ==> Owned(panels, i, owner[i])
  }

  lemma {:induction false} VoronoiOwned(panels: seq<Panel>, dists: seq<seq<real>>, feather: real, i: nat, o: nat)
    requires |dists| == |panels| <= 0xFFFF
    requires forall p :: 0 <= p < |panels| ==> i < |panels[p].coverage| && i < |dists[p]|
    requires IsVoronoi(panels, dists, feather, i, o)
    ensures Owned(panels, i, o)
  {
  }

  ghost predicate AllAt(panels: seq<Panel>, dists: seq<seq<real>>, i: nat) {
    |dists| == |panels| && forall p :: 0 <= p < |panels| ==> i < |panels[p].coverage| && i < |dists[p]|
  }

  /** One cell, covered by panel 65535 alone. */
  ghost function LastNameable(n: nat): (panels: seq<Panel>)
    ensures |panels| == n && forall p :: 0 <= p < n ==> panels[p].coverage == [if p == 0xFFFF then 1.0 else 0.0]
  {
    seq(n, p => Panel([if p == 0xFFFF then 1.0 else 0.0], [false]))
  }

  /** The Voronoi labels of `n` panels mean what they say exactly when `n` is at most 65535: a 65536th panel's
      index is the mark for no owner. */
  lemma {:induction false} PanelsFitIff(n: nat, feather: real)
    ensures (forall panels: seq<Panel>, dists: seq<seq<real>>, i: nat, o: nat ::
               |panels| == n && AllAt(panels, dists, i) && IsVoronoi(panels, dists, feather, i, o) ==>
                     Owned(panels, i, o))
            <==> n <= 0xFFFF
  {
    if n <= 0xFFFF {
      forall panels: seq<Panel>, dists: seq<seq<real>>, i: nat, o: nat
        | |panels| == n && AllAt(panels, dists, i) && IsVoronoi(panels, dists, feather, i, o)
        ensures Owned(panels, i, o)
      {
        VoronoiOwned(panels, dists, feather, i, o);
      }
    } else {
      var panels, dists, p := LastNameable(n), seq(n, _ => [0.0]), 0xFFFF;
      assert AllAt(panels, dists, 0);
      assert Covers(panels, p, 0);
      forall q: nat | q < n && Covers(panels, q, 0) ensures q == p && Beats(dists, feather, 0, p, q) {}
      assert IsVoronoi(panels, dists, feather, 0, NO_OWNER);
      assert !Owned(panels, 0, NO_OWNER);
    }
  }

  /** An operation names a cell both its panels cover, and gives it to one of them. */
  lemma {:induction false} OpOwned(e: Edge, panels: seq<Panel>, w: nat, h: nat, p: seq<nat>, ops: seq<Op>, aFirst: bool,
                                   op: Op)
    requires |panels| <= 0xFFFF && SplitsBand(e, panels, w, h, p, ops, aFirst) && op in ops
    ensures op.0 < w * h
    ensures forall q :: 0 <= q < |panels| ==> |panels[q].coverage| == w * h
    ensures Owned(panels, op.0, op.1)
  {
    assert forall q :: 0 <= q < |panels| ==> |panels[q].coverage| == w * h;
    var (low, high) := if aFirst then (e.a, e.b) else (e.b, e.a);
    assert IsOp(e, panels, w, h, p, low, high, op);
    var t, s :| IsOpAt(e, panels, w, h, p, low, high, t, s, op);
    var (x, y) := e.At(t, s);
    CellAt(panels[e.a].coverage, w, h, x, y);
    CellAt(panels[e.b].coverage, w, h, x, y);
    assert Covers(panels, e.a, op.0) && Covers(panels, e.b, op.0);
  }

  /** Apply operations in order. */
  ghost function Applied(owner: seq<nat>, ops: seq<Op>): (r: seq<nat>)
    requires forall k :: 0 <= k < |ops| ==> ops[k].0 < |owner|
    ensures |r| == |owner|
  {
    if ops == [] then owner
    else Applied(owner, ops[..|ops| - 1])[ops[|ops| - 1].0 := ops[|ops| - 1].1]
  }

  method Apply(owner: array<nat>, ops: seq<Op>)
    requires forall k :: 0 <= k < |ops| ==> ops[k].0 < owner.Length
    modifies owner
    ensures owner[..] == Applied(old(owner[..]), ops)
  {
    assert ops[..0] == [];
    for k := 0 to |ops|
      invariant owner[..] == Applied(old(owner[..]), ops[..k])
    {
      assert ops[..k + 1][..k] == ops[..k];
      owner[ops[k].0] := ops[k].1;
    }
    assert ops[..|ops|] == ops;
  }

  /** A cell keeps its label unless some operation names it; then it has the label of one that does. */
  lemma {:induction false} AppliedAt(owner: seq<nat>, ops: seq<Op>, i: nat)
    requires forall k :: 0 <= k < |ops| ==> ops[k].0 < |owner|
    requires i < |owner|
    ensures (i, Applied(owner, ops)[i]) in ops
            || (Applied(owner, ops)[i] == owner[i] && forall op :: op in ops ==> op.0 != i)
  {
    if ops != [] {
      var init, last := ops[..|ops| - 1], ops[|ops| - 1];
      AppliedAt(owner, init, i);
      assert forall op :: op in ops <==> op in init || op == last;
      if last.0 == i { assert last == (i, Applied(owner, ops)[i]); }
    }
  }

  /** Applying any list of owned operations, in any order, keeps every cell owned. */
  lemma {:induction false} AppliedOwned(panels: seq<Panel>, owner: seq<nat>, ops: seq<Op>)
    requires OwnedAll(panels, owner)
    requires forall k :: 0 <= k < |ops| ==> ops[k].0 < |owner|
    requires forall op :: op in ops && op.0 < |owner| ==> Owned(panels, op.0, op.1)
    ensures OwnedAll(panels, Applied(owner, ops))
  {
    hide Owned;
    forall i | 0 <= i < |owner| ensures Owned(panels, i, Applied(owner, ops)[i]) {
      AppliedAt(owner, ops, i);
    }
  }

  /** Stand-in for an infinite distance. */
  const FAR: real := 1000000000000000000000000000000.0

  function Finite(d: Chamfer.Dist): real {
    if d.Fin? then d.v else FAR
  }

  /** `dist` holds every cell's distance to the nearest cell the panel does not fully cover. */
  ghost predicate IsDistPlane(cov: seq<real>, dist: seq<real>, w: nat, h: nat) {
    && IsPlane(|cov|, w, h) && IsPlane(|dist|, w, h)
    && forall x, y :: 0 <= x < w && 0 <= y < h ==> IsRimDistance(cov, w, h, x, y, Cell(dist, w, h, x, y))
  }

  ghost predicate IsRimDistance(cov: seq<real>, w: nat, h: nat, x: int, y: int, v: real)
    requires IsPlane(|cov|, w, h)
  {
    exists d: Chamfer.Dist :: Chamfer.IsDistance(cov, w, h, x, y, d) && v == Finite(d)
  }

  method RimDistances(cov: seq<real>, w: nat, h: nat) returns (dist: seq<real>)
    requires IsPlane(|cov|, w, h)
    ensures IsDistPlane(cov, dist, w, h)
  {
    var d := Chamfer.DistanceMap(cov, w, h);
    dist := [];
    for i := 0 to d.Length
      invariant |dist| == i && forall j :: 0 <= j < i ==> dist[j] == Finite(d[j])
    {
      dist := dist + [Finite(d[i])];
    }
    forall x, y | 0 <= x < w && 0 <= y < h
      ensures IsRimDistance(cov, w, h, x, y, Cell(dist, w, h, x, y))
    {
      CellAt(dist, w, h, x, y);
      CellAt(d[..], w, h, x, y);
      assert Chamfer.InGrid(w, h, x, y);
      assert Chamfer.IsDistance(cov, w, h, x, y, Cell(d[..], w, h, x, y));
    }
  }

  /** No edge from the `k`-th on relabels cell `i`. */
  ghost predicate UntouchedFrom(opss: seq<seq<Op>>, k: nat, i: nat) {
    forall l, op :: k <= l < |opss| && op in opss[l] ==> op.0 != i
  }

  /** Where the label of a cell comes from: the last edge that relabels it, else the Voronoi stage. */
  ghost predicate Labelled(voronoi: seq<nat>, opss: seq<seq<Op>>, i: nat, o: nat)
    requires i < |voronoi|
  {
    || (exists k :: 0 <= k < |opss| && (i, o) in opss[k] && UntouchedFrom(opss, k + 1, i))
    || (o == voronoi[i] && UntouchedFrom(opss, 0, i))
  }

  /** The operations of one edge: none for a corner overlap, else a split of its shared band along a
      cheapest seam, the low side to the panel that is deeper there. */
  ghost predicate IsEdgeResult(e: Edge, panels: seq<Panel>, raw: seq<real>, dists: seq<seq<real>>, w: nat, h: nat,
                               p: seq<nat>, ops: seq<Op>) {
    if Max(e.x1 - e.x0, e.y1 - e.y0) < DP_MIN_LONG then ops == []
    else
      && SplitsBand(e, panels, w, h, p, ops, DeeperFirst(e, dists, w, h))
      && CutsToDeeper(e, panels, dists, w, h, p, ops)
      && (e.Short() <= 0xFFFF ==> IsBandSeam(e, panels, raw, w, h, p))
  }

  /** The operations of the first edges, in order. */
  ghost predicate SplitsBands(edges: seq<Edge>, panels: seq<Panel>, raws: seq<seq<real>>, dists: seq<seq<real>>, w: nat,
                              h: nat, paths: seq<seq<nat>>, opss: seq<seq<Op>>) {
    && |paths| == |opss| <= |edges| == |raws|
    && forall k :: 0 <= k < |opss| ==> IsEdgeResult(edges[k], panels, raws[k], dists, w, h, paths[k], opss[k])
  }

  lemma {:induction false} OpsInRange(e: Edge, panels: seq<Panel>, w: nat, h: nat, p: seq<nat>, ops: seq<Op>,
                                      aFirst: bool)
    requires SplitsBand(e, panels, w, h, p, ops, aFirst)
    ensures forall op :: op in ops ==> op.0 < w * h
  {
    hide IsOp;
    forall op | op in ops ensures op.0 < w * h {
      var (low, high) := if aFirst then (e.a, e.b) else (e.b, e.a);
      OpInRange(e, panels, w, h, p, Narrow16(low), Narrow16(high), op);
    }
  }

  lemma {:induction false} OpInRange(e: Edge, panels: seq<Panel>, w: nat, h: nat, p: seq<nat>, low: nat, high: nat,
                                     op: Op)
    requires PanelsOn(panels, w, h) && e.FitsIn(|panels|, w, h) && |p| == e.Long()
    requires IsOp(e, panels, w, h, p, low, high, op)
    ensures op.0 < w * h
  {
    hide Shared;
    var t, s :| IsOpAt(e, panels, w, h, p, low, high, t, s, op);
    OpInBand(e, panels, w, h, p, low, high, t, s, op);
    var (x, y) := e.At(t, s);
    CellAt(panels[e.a].coverage, w, h, x, y);
  }

  lemma {:induction false} LabelledMore(voronoi: seq<nat>, opss: seq<seq<Op>>, ops: seq<Op>, owner: seq<nat>)
    requires |owner| == |voronoi| && forall op :: op in ops ==> op.0 < |owner|
    requires forall i :: 0 <= i < |owner| ==> Labelled(voronoi, opss, i, owner[i])
    ensures forall i :: 0 <= i < |owner| ==> Labelled(voronoi, opss + [ops], i, Applied(owner, ops)[i])
  {
    forall i | 0 <= i < |owner| ensures Labelled(voronoi, opss + [ops], i, Applied(owner, ops)[i]) {
      AppliedAt(owner, ops, i);
      LabelledOne(voronoi, opss, ops, i, owner[i], Applied(owner, ops)[i]);
    }
  }

  /** One more edge: its label if it has one for the cell, else the label from before. */
  lemma {:induction false} LabelledOne(voronoi: seq<nat>, opss: seq<seq<Op>>, ops: seq<Op>, i: nat, before: nat, o: nat)
    requires i < |voronoi| && Labelled(voronoi, opss, i, before)
    requires (i, o) in ops || (o == before && forall op :: op in ops ==> op.0 != i)
    ensures Labelled(voronoi, opss + [ops], i, o)
  {
    var more := opss + [ops];
    if (i, o) in ops {
      assert more[|opss|] == ops && UntouchedFrom(more, |opss| + 1, i);
    } else if k :| 0 <= k < |opss| && (i, before) in opss[k] && UntouchedFrom(opss, k + 1, i) {
      assert more[k] == opss[k] && UntouchedFrom(more, k + 1, i);
    } else {
      assert UntouchedFrom(more, 0, i);
    }
  }

  /** The owner map: Voronoi labels, then the operations of all edges. */
  method OwnerMap(panels: seq<Panel>, edges: seq<Edge>, raws: seq<seq<real>>, w: nat, h: nat, feather: real)
    returns (owner: array<nat>, ghost voronoi: seq<nat>, ghost dists: seq<seq<real>>,
             ghost paths: seq<seq<nat>>, ghost opss: seq<seq<Op>>)
    requires panels != [] && PanelsOn(panels, w, h)
    requires |raws| == |edges| && forall k :: 0 <= k < |raws| ==> IsPlane(|raws[k]|, w, h)
    requires forall k :: 0 <= k < |edges| ==>
               edges[k].FitsIn(|panels|, w, h) && edges[k].x0 < edges[k].x1 && edges[k].y0 < edges[k].y1
    ensures fresh(owner) && IsPlane(owner.Length, w, h) && |voronoi| == owner.Length
    ensures |dists| == |panels| && forall p :: 0 <= p < |panels| ==> IsDistPlane(panels[p].coverage, dists[p], w, h)
    ensures forall i :: 0 <= i < |voronoi| ==> CellwiseVoronoi(panels, dists, feather, i, voronoi[i])
    ensures |opss| == |edges| && SplitsBands(edges, panels, raws, dists, w, h, paths, opss)
    ensures forall i :: 0 <= i < owner.Length ==> Labelled(voronoi, opss, i, owner[i])
    ensures |panels| <= 0xFFFF ==> OwnedAll(panels, owner[..])
  {
    hide Cell, SplitsBand, CutsToDeeper, IsDistPlane, IsVoronoi, Labelled, Owned, DeeperFirst, IsBandPlane, IsPenalty,
         IsTheSeam;
    var ds: seq<seq<real>> := [];
    for p := 0 to |panels|
      invariant |ds| == p && forall q :: 0 <= q < p ==> IsDistPlane(panels[q].coverage, ds[q], w, h)
    {
      var d := RimDistances(panels[p].coverage, w, h);
      ds := ds + [d];
    }
    dists := ds;
    DistSizes(panels, ds, w, h);
    owner := new nat[w * h](_ => NO_OWNER);
    for i := 0 to owner.Length
      invariant forall j :: 0 <= j < i ==> CellwiseVoronoi(panels, ds, feather, j, owner[j])
    {
      owner[i] := VoronoiLabel(panels, ds, feather, i);
    }
    voronoi, paths, opss := owner[..], [], [];
    VoronoiStage(panels, ds, feather, voronoi);
    for k := 0 to |edges|
      invariant |opss| == k && SplitsBands(edges, panels, raws, ds, w, h, paths, opss)
      invariant |voronoi| == owner.Length
      invariant forall i :: 0 <= i < owner.Length ==> Labelled(voronoi, opss, i, owner[i])
      invariant |panels| <= 0xFFFF ==> OwnedAll(panels, owner[..])
    {
      var ops, cost, penalty, path := EdgeSeam(edges[k], panels, raws[k], ds, w, h);
      if !edges[k].IsCorner() {
        OpsInRange(edges[k], panels, w, h, path, ops, DeeperFirst(edges[k], ds, w, h));
        if |panels| <= 0xFFFF {
          forall op | op in ops ensures Owned(panels, op.0, op.1) {
            OpOwned(edges[k], panels, w, h, path, ops, DeeperFirst(edges[k], ds, w, h), op);
          }
        }
      }
      assert IsEdgeResult(edges[k], panels, raws[k], ds, w, h, path, ops);
      ghost var before := owner[..];
      LabelledMore(voronoi, opss, ops, before);
      if |panels| <= 0xFFFF { AppliedOwned(panels, before, ops); }
      Apply(owner, ops);
      paths, opss := paths + [path], opss + [ops];
    }
  }

  ghost predicate CellwiseVoronoi(panels: seq<Panel>, dists: seq<seq<real>>, feather: real, i: nat, o: nat) {
    && |dists| == |panels|
    && (forall p :: 0 <= p < |panels| ==> i < |panels[p].coverage| && i < |dists[p]|)
    && IsVoronoi(panels, dists, feather, i, o)
  }

  lemma {:induction false} DistSizes(panels: seq<Panel>, dists: seq<seq<real>>, w: nat, h: nat)
    requires |dists| == |panels| && forall p :: 0 <= p < |panels| ==> IsDistPlane(panels[p].coverage, dists[p], w, h)
    ensures forall p :: 0 <= p < |panels| ==> |panels[p].coverage| == |dists[p]| == w * h && IsPlane(|dists[p]|, w, h)
  {
  }

  lemma {:induction false} VoronoiStage(panels: seq<Panel>, dists: seq<seq<real>>, feather: real, voronoi: seq<nat>)
    requires forall p :: 0 <= p < |panels| ==> |panels[p].coverage| == |voronoi|
    requires forall i :: 0 <= i < |voronoi| ==> CellwiseVoronoi(panels, dists, feather, i, voronoi[i])
    ensures forall i :: 0 <= i < |voronoi| ==> Labelled(voronoi, [], i, voronoi[i])
    ensures |panels| <= 0xFFFF ==> OwnedAll(panels, voronoi)
  {
    hide IsVoronoi, Owned;
    if |panels| <= 0xFFFF {
      forall i | 0 <= i < |voronoi| ensures Owned(panels, i, voronoi[i]) {
        VoronoiOwned(panels, dists, feather, i, voronoi[i]);
      }
    }
  }
}
