/** How far the star penalty reaches: a masked cell whose raw cost is as high as that of an unshared one is not charged
    it, so a penalty above the unshared cost leaves such cells the cheaper way out
    (crates/mmm-core/src/seam.rs, `edge_seam`). */
module SeamStars {
  import opened Entrywise
  import opened Grid
  import opened Naturals
  import opened Seam
  import opened SeamPath
  import Order

  /** Whatever seam cheaper than the penalty there is, no cheapest seam is adjacent to a masked shared cell. */
  ghost predicate AvoidsStars(e: Edge, panels: seq<Panel>, raw: seq<real>, w: nat, h: nat, penalty: real) {
    forall cost: seq<real>, p: seq<nat>, q: seq<nat>, t: nat, s: nat ::
      && IsBandPlane(e, panels, raw, w, h, cost, penalty) && IsCheapestSeam(cost, e.Short(), e.Long(), p)
      && |q| == e.Long() && IsSeam(q, e.Short()) && SeamCost(cost, e.Short(), e.Long(), q) < penalty
      && t < e.Long() && s < e.Short() && (s == p[t] || s + 1 == p[t]) && Shared(e, panels, w, h, t, s)
      ==> !StarMasked(e, panels, w, h, t, s)
  }

  lemma {:induction false} SharedBelow(cost: seq<real>)
    ensures forall c :: c in SharedCosts(cost) ==> c < UNSHARED_COST
  {
    if cost != [] { SharedBelow(cost[..|cost| - 1]); }
  }

  lemma {:induction false} PenaltyRange(cost: seq<real>)
    requires NonNegative(cost)
    ensures 0.0 <= Penalty(cost) < MASK_COST_FACTOR * UNSHARED_COST
  {
    SharedBelow(cost);
  }

  lemma {:induction false} PlaneSign(e: Edge, panels: seq<Panel>, raw: seq<real>, w: nat, h: nat, cost: seq<real>,
                                     penalty: real)
    requires IsBandPlane(e, panels, raw, w, h, cost, penalty) && NonNegative(raw) && penalty >= 0.0
    ensures NonNegative(cost)
  {
    forall i | 0 <= i < |cost| ensures cost[i] >= 0.0 {
      var s, t := CellOf(e.Short(), e.Long(), i);
      CellAt(cost, e.Short(), e.Long(), s, t);
      var (x, y) := e.At(t, s);
      CellAt(raw, w, h, x, y);
    }
  }

  /** A penalty no higher than the unshared cost keeps every cheapest seam off the stars. */
  lemma {:induction false} LowPenaltyAvoids(e: Edge, panels: seq<Panel>, raw: seq<real>, w: nat, h: nat, penalty: real)
    requires NonNegative(raw) && 0.0 <= penalty <= UNSHARED_COST
    ensures AvoidsStars(e, panels, raw, w, h, penalty)
  {
    forall cost: seq<real>, p: seq<nat>, q: seq<nat>, t: nat, s: nat
      | && IsBandPlane(e, panels, raw, w, h, cost, penalty) && IsCheapestSeam(cost, e.Short(), e.Long(), p)
        && |q| == e.Long() && IsSeam(q, e.Short()) && SeamCost(cost, e.Short(), e.Long(), q) < penalty
        && t < e.Long() && s < e.Short() && (s == p[t] || s + 1 == p[t]) && Shared(e, panels, w, h, t, s)
      ensures !StarMasked(e, panels, w, h, t, s)
    {
      PlaneSign(e, panels, raw, w, h, cost, penalty);
      SeamAvoidsStars(e, panels, raw, w, h, cost, penalty, p, q, t, s);
    }
  }

  // ---------------------------------------------------------------- the failing band

  /** A band of two columns and 64 rows, shared by panels 0 and 1. */
  const BAND: Edge := Edge(0, 1, 0, 0, 2, DP_MIN_LONG)

  /** The last cell of the first column. */
  const STAR: nat := 126

  /** The first column is free but for its last cell, which costs as much as an unshared one; the second costs the
      median `c` once, and more in every other row. */
  function Trap(c: real): (raw: seq<real>)
    ensures |raw| == 128
  {
    seq(128,
        i => if i % 2 == 0 then (if i == STAR then UNSHARED_COST else 0.0) else if i == 1
              then c else (c + UNSHARED_COST) / 2.0)
  }

  /** Everything covered by both; one star, in the first panel, on the costly cell. */
  function TrapPanels(): (panels: seq<Panel>)
    ensures |panels| == 2
  {
    var covered := seq(128, _ => 1.0);
    [Panel(covered, seq(128, i => i == STAR)), Panel(covered, seq(128, _ => false))]
  }

  lemma {:induction false} TrapCells(c: real)
    ensures IsPlane(128, 2, DP_MIN_LONG) && PanelsOn(TrapPanels(), 2, DP_MIN_LONG)
    ensures forall t, s :: 0 <= t < DP_MIN_LONG && 0 <= s < 2 ==>
              Cell(Trap(c), 2, DP_MIN_LONG, s, t) == Trap(c)[t * 2 + s]
                  && Shared(BAND, TrapPanels(), 2, DP_MIN_LONG, t, s)
              && (StarMasked(BAND, TrapPanels(), 2, DP_MIN_LONG, t, s) <==> t * 2 + s == STAR)
  {
  }

  /** The two cells of row `t`. */
  lemma {:induction false} TrapRow(c: real, t: nat)
    requires t < DP_MIN_LONG
    ensures IsPlane(|Trap(c)|, 2, DP_MIN_LONG) && 2 * t + 1 < |Trap(c)|
    ensures Cell(Trap(c), 2, DP_MIN_LONG, 0, t) == Trap(c)[2 * t] == if t == 63 then UNSHARED_COST else 0.0
    ensures Cell(Trap(c), 2, DP_MIN_LONG, 1, t) == Trap(c)[2 * t + 1] == if t == 0 then c else (c + UNSHARED_COST) / 2.0
  {
    CellAt(Trap(c), 2, DP_MIN_LONG, 0, t);
    CellAt(Trap(c), 2, DP_MIN_LONG, 1, t);
  }

  // ---------------------------------------------------------------- its penalty

  lemma {:induction false} SharedStep(cost: seq<real>, n: nat)
    requires n < |cost|
    ensures SharedCosts(cost[..n + 1]) == SharedCosts(cost[..n]) + if cost[n] < UNSHARED_COST then [cost[n]] else []
  {
    assert cost[..n + 1][..n] == cost[..n];
  }

  /** The shared costs of the first `k` rows: a free cell each, and one cell of cost `c`. */
  lemma {:induction false} TrapShared(c: real, k: nat)
    requires 0.0 < c < UNSHARED_COST && k < DP_MIN_LONG
    ensures var a := SharedCosts(Trap(c)[..2 * k]);
            |a| == 2 * k && Order.Count(a, c, false) == k && Order.Count(a, c, true) == k + if k == 0 then 0 else 1
  {
    if k > 0 {
      var n := 2 * (k - 1);
      var a := SharedCosts(Trap(c)[..n]);
      TrapShared(c, k - 1);
      TrapRow(c, k - 1);
      hide Trap, Cell, SharedCosts, Order.Count;
      SharedStep(Trap(c), n);
      SharedStep(Trap(c), n + 1);
      var x, y := Trap(c)[n], Trap(c)[n + 1];
      Order.CountAppend(a, x, c, false);
      Order.CountAppend(a, x, c, true);
      Order.CountAppend(a + [x], y, c, false);
      Order.CountAppend(a + [x], y, c, true);
    } else {
      assert Trap(c)[..0] == [];
    }
  }

  lemma {:induction false} TrapPenalty(c: real)
    requires 0.0 < c < UNSHARED_COST
    ensures Penalty(Trap(c)) == MASK_COST_FACTOR * c
  {
    var raw := Trap(c);
    var a := SharedCosts(raw[..126]);
    TrapShared(c, 63);
    SharedStep(raw, 126);
    SharedStep(raw, 127);
    assert raw[..128] == raw;
    var y := raw[127];
    Order.CountAppend(a, y, c, false);
    Order.CountAppend(a, y, c, true);
    assert SharedCosts(raw) == a + [y];
    Order.NthByCount(a + [y], 63, c);
  }

  // ---------------------------------------------------------------- its seam

  /** The seam along the first column. */
  function Straight(n: nat): (p: seq<nat>)
    ensures |p| == n && forall t :: 0 <= t < n ==> p[t] == 0
  {
    seq(n, _ => 0)
  }

  lemma {:induction false} StraightCost(c: real, n: nat)
    requires n <= DP_MIN_LONG
    ensures IsPlane(|Trap(c)|, 2, DP_MIN_LONG) && IsSeam(Straight(n), 2)
    ensures SeamCost(Trap(c), 2, DP_MIN_LONG, Straight(n)) == if n == DP_MIN_LONG then UNSHARED_COST else 0.0
  {
    TrapRow(c, 0);
    hide Trap, Cell;
    if n > 0 {
      StraightCost(c, n - 1);
      assert Straight(n)[..n - 1] == Straight(n - 1);
      TrapRow(c, n - 1);
    } else {
      assert Straight(0) == [];
    }
  }

  lemma {:induction false} TrapSign(c: real)
    requires 0.0 < c
    ensures NonNegative(Trap(c))
  {
  }

  /** Every seam past the costly cell pays it, or two of the second column's costs: as much at least. */
  lemma {:induction false} EverySeamPays(c: real, q: seq<nat>)
    requires 0.0 < c < UNSHARED_COST && |q| == DP_MIN_LONG && IsSeam(q, 2)
    ensures IsPlane(|Trap(c)|, 2, DP_MIN_LONG) && SeamCost(Trap(c), 2, DP_MIN_LONG, q) >= UNSHARED_COST
  {
    var raw := Trap(c);
    TrapRow(c, 62);
    TrapRow(c, 63);
    TrapSign(c);
    hide Cell, Trap, NonNegative;
    var head := q[..63];
    assert forall t :: 0 <= t < 63 ==> head[t] == q[t];
    var t := 62;
    assert Near(q[t], q[t + 1]);
    BoundarySign(raw, 2, DP_MIN_LONG, 62, q[62]);
    BoundarySign(raw, 2, DP_MIN_LONG, 63, q[63]);
    BoundaryWithinCost(raw, 2, DP_MIN_LONG, head, 62);
    assert SeamCost(raw, 2, DP_MIN_LONG, q) == SeamCost(raw, 2, DP_MIN_LONG, head)
             + BoundaryCost(raw, 2, DP_MIN_LONG, 63, q[63]);
  }

  lemma {:induction false} TrapPlanes(c: real)
    requires 0.0 < c < UNSHARED_COST
    ensures IsPenalty(BAND, TrapPanels(), Trap(c), 2, DP_MIN_LONG, MASK_COST_FACTOR * c)
    ensures IsBandPlane(BAND, TrapPanels(), Trap(c), 2, DP_MIN_LONG, Trap(c), MASK_COST_FACTOR * c)
  {
    TrapCells(c);
    TrapPenalty(c);
    var M := TrapPanels()[0].mask;
    assert IsRawPlane(BAND, TrapPanels(), Trap(c), 2, DP_MIN_LONG, Trap(c), M, DP_MIN_LONG, 0) by {
      forall t, s | 0 <= t < DP_MIN_LONG && 0 <= s < 2 ensures Cell(M, 2, DP_MIN_LONG, s, t) == (t * 2 + s == STAR) {
        CellAt(M, 2, DP_MIN_LONG, s, t);
      }
      hide Trap, StarMasked, Shared;
    }
    hide Penalty;
  }

  /** In the trap the cheapest seam runs beside the star, though cheaper than the penalty. */
  lemma {:induction false} TrapCatches(c: real)
    requires UNSHARED_COST < MASK_COST_FACTOR * c && c < UNSHARED_COST
    ensures !AvoidsStars(BAND, TrapPanels(), Trap(c), 2, DP_MIN_LONG, MASK_COST_FACTOR * c)
  {
    var raw, p, penalty, t := Trap(c), Straight(DP_MIN_LONG), MASK_COST_FACTOR * c, 63;
    TrapPlanes(c);
    TrapCells(c);
    StraightCost(c, DP_MIN_LONG);
    forall q: seq<nat> | |q| == DP_MIN_LONG && IsSeam(q, 2)
      ensures SeamCost(raw, 2, DP_MIN_LONG, p) <= SeamCost(raw, 2, DP_MIN_LONG, q)
    {
      EverySeamPays(c, q);
    }
    assert IsCheapestSeam(raw, 2, DP_MIN_LONG, p);
    assert Shared(BAND, TrapPanels(), 2, DP_MIN_LONG, t, 0) && StarMasked(BAND, TrapPanels(), 2, DP_MIN_LONG, t, 0);
    hide IsBandPlane, Cell, Trap, SeamCost, IsCheapestSeam;
    assert BAND.Short() == 2 && BAND.Long() == DP_MIN_LONG;
  }

  // ---------------------------------------------------------------- exactly which penalties fail

  /** A penalty keeps the seams of all bands off the stars if and only if it does not exceed the unshared cost, or is
      out of reach of any band. */
  lemma {:induction false} AvoidsStarsIff(penalty: real)
    ensures (forall e: Edge, panels: seq<Panel>, raw: seq<real>, w: nat, h: nat ::
               NonNegative(raw) && IsPenalty(e, panels, raw, w, h, penalty) ==>
                     AvoidsStars(e, panels, raw, w, h, penalty))
            <==> penalty <= UNSHARED_COST || MASK_COST_FACTOR * UNSHARED_COST <= penalty
  {
    hide AvoidsStars, Trap, TrapPanels;
    if penalty <= UNSHARED_COST || MASK_COST_FACTOR * UNSHARED_COST <= penalty {
      forall e: Edge, panels: seq<Panel>, raw: seq<real>, w: nat, h: nat
        | NonNegative(raw) && IsPenalty(e, panels, raw, w, h, penalty)
        ensures AvoidsStars(e, panels, raw, w, h, penalty)
      {
        InRange(e, panels, raw, w, h, penalty);
        LowPenaltyAvoids(e, panels, raw, w, h, penalty);
      }
    } else {
      var c := penalty / MASK_COST_FACTOR;
      TrapPlanes(c);
      TrapSign(c);
      TrapCatches(c);
      assert MASK_COST_FACTOR * c == penalty;
    }
  }

  lemma {:induction false} InRange(e: Edge, panels: seq<Panel>, raw: seq<real>, w: nat, h: nat, penalty: real)
    requires NonNegative(raw) && IsPenalty(e, panels, raw, w, h, penalty)
    ensures 0.0 <= penalty < MASK_COST_FACTOR * UNSHARED_COST
  {
    hide Penalty, IsRawPlane;
    var C: seq<real>, M: seq<bool> :| IsRawPlane(e, panels, raw, w, h, C, M, e.Long(), 0) && penalty == Penalty(C);
    RawNonNegative(e, panels, raw, w, h, C, M);
    PenaltyRange(C);
  }
}
