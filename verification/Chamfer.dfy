/** Two-pass 8-neighbour chamfer distance transform to the nearest cell that is not fully covered
    (crates/mmm-core/src/overlap.rs, `distance_map`). */
module Chamfer {
  import opened Grid

  /** Distance in cell units; `Inf` where nothing was reached. */
  datatype Dist = Fin(v: real) | Inf

  /** The single-precision value of the square root of two. */
  const SQ2: real := 1.41421353816986083984375

  function Add(d: Dist, step: real): Dist {
    if d.Fin? then Fin(d.v + step) else Inf
  }

  function Min(a: Dist, b: Dist): Dist {
    if a.Inf? then b else if b.Inf? || a.v <= b.v then a else b
  }

  // ---------------------------------------------------------------- specification

  function Abs(a: int): nat {
    if a < 0 then -a else a
  }

  /** Octagonal length of the offset (dx, dy): diagonal steps as far as possible, then straight. */
  function Length(dx: int, dy: int): real {
    var (lo, hi) := if Abs(dx) < Abs(dy) then (Abs(dx), Abs(dy)) else (Abs(dy), Abs(dx));
    (hi - lo) as real + SQ2 * lo as real
  }

  ghost predicate Uncovered(cov: seq<real>, w: nat, h: nat, qx: int, qy: int)
    requires IsPlane(|cov|, w, h)
  {
    0 <= qx < w && 0 <= qy < h && Cell(cov, w, h, qx, qy) < 1.0
  }

  ghost predicate AtMost(d: Dist, m: real) {
    d.Fin? && d.v <= m
  }

  /** Some uncovered cell is no farther than `d` says. */
  ghost predicate Sound(cov: seq<real>, w: nat, h: nat, x: int, y: int, d: Dist)
    requires IsPlane(|cov|, w, h)
  {
    d.Fin? ==> exists qx, qy :: Uncovered(cov, w, h, qx, qy) && Length(x - qx, y - qy) <= d.v
  }

  /** `d` is no more than the length of any offset from an uncovered cell. */
  ghost predicate Complete(cov: seq<real>, w: nat, h: nat, x: int, y: int, d: Dist)
    requires IsPlane(|cov|, w, h)
  {
    forall qx, qy :: Uncovered(cov, w, h, qx, qy) ==> AtMost(d, Length(x - qx, y - qy))
  }

  /** As `Complete`, for the uncovered cells whose shortest path runs down and rightwards. */
  ghost predicate ForwardComplete(cov: seq<real>, w: nat, h: nat, x: int, y: int, d: Dist)
    requires IsPlane(|cov|, w, h)
  {
    forall qx, qy :: Uncovered(cov, w, h, qx, qy) && Forward(x - qx, y - qy) ==> AtMost(d, Length(x - qx, y - qy))
  }

  /** Offsets the forward pass alone resolves. */
  ghost predicate Forward(dx: int, dy: int) {
    (dy > 0 && dx >= -dy) || (dy == 0 && dx >= 0)
  }

  /** `d` is the distance to the nearest uncovered cell, infinite when there is none. */
  ghost predicate IsDistance(cov: seq<real>, w: nat, h: nat, x: int, y: int, d: Dist)
    requires IsPlane(|cov|, w, h)
  {
    match d
    case Inf => forall qx, qy :: !Uncovered(cov, w, h, qx, qy)
    case Fin(v) =>
      && (exists qx, qy :: Uncovered(cov, w, h, qx, qy) && Length(x - qx, y - qy) == v)
      && (forall qx, qy :: Uncovered(cov, w, h, qx, qy) ==> v <= Length(x - qx, y - qy))
  }

  lemma {:induction false} SoundCompleteIsDistance(cov: seq<real>, w: nat, h: nat, x: int, y: int, d: Dist)
    requires IsPlane(|cov|, w, h)
    requires Sound(cov, w, h, x, y, d) && Complete(cov, w, h, x, y, d)
    ensures IsDistance(cov, w, h, x, y, d)
  {
    hide Length;
    if d.Fin? {
      var qx, qy :| Uncovered(cov, w, h, qx, qy) && Length(x - qx, y - qy) <= d.v;
      assert AtMost(d, Length(x - qx, y - qy));
    } else {
      forall qx, qy ensures !Uncovered(cov, w, h, qx, qy) {
        assert Uncovered(cov, w, h, qx, qy) ==> AtMost(d, Length(x - qx, y - qy));
      }
    }
  }

  // ---------------------------------------------------------------- the metric

  /** Length of one chamfer step. */
  function Step(sx: int, sy: int): real {
    if sx == 0 || sy == 0 then 1.0 else SQ2
  }

  ghost predicate IsStep(sx: int, sy: int) {
    -1 <= sx <= 1 && -1 <= sy <= 1 && (sx != 0 || sy != 0)
  }

  /** One step lengthens an offset by no more than the length of the step. */
  lemma {:induction false} StepTriangle(dx: int, dy: int, sx: int, sy: int)
    requires IsStep(sx, sy)
    ensures Length(dx + sx, dy + sy) <= Length(dx, dy) + Step(sx, sy)
  {
  }

  /** A candidate value taken over from a sound neighbour is sound. */
  lemma {:induction false} StepSound(cov: seq<real>, w: nat, h: nat, x: int, y: int, sx: int, sy: int, d: Dist)
    requires IsPlane(|cov|, w, h) && IsStep(sx, sy)
    requires Sound(cov, w, h, x - sx, y - sy, d)
    ensures Sound(cov, w, h, x, y, Add(d, Step(sx, sy)))
  {
    hide Length, Step;
    if d.Fin? {
      var qx, qy :| Uncovered(cov, w, h, qx, qy) && Length(x - sx - qx, y - sy - qy) <= d.v;
      StepTriangle(x - sx - qx, y - sy - qy, sx, sy);
      assert x - sx - qx + sx == x - qx && y - sy - qy + sy == y - qy;
    }
  }

  lemma {:induction false} MinSound(cov: seq<real>, w: nat, h: nat, x: int, y: int, a: Dist, b: Dist)
    requires IsPlane(|cov|, w, h)
    requires Sound(cov, w, h, x, y, a) && Sound(cov, w, h, x, y, b)
    ensures Sound(cov, w, h, x, y, Min(a, b))
  {
    hide Length;
  }

  /** The last step of a shortest path to a cell the forward pass resolves. */
  function ForwardStep(dx: int, dy: int): (int, int) {
    if dy == 0 then (1, 0)
    else if dx < 0 then (-1, 1)
    else if dx == 0 then (0, 1)
    else (1, 1)
  }

  lemma {:induction false} ForwardStepShortens(dx: int, dy: int)
    requires Forward(dx, dy) && (dx != 0 || dy != 0)
    ensures var (sx, sy) := ForwardStep(dx, dy);
            IsStep(sx, sy) && Forward(dx - sx, dy - sy)
            && Length(dx - sx, dy - sy) + Step(sx, sy) == Length(dx, dy)
  {
  }

  /** The last step of a shortest path to a cell the forward pass leaves open. */
  function BackwardStep(dx: int, dy: int): (int, int) {
    if dy >= 0 then (-1, 0)
    else if dx < 0 then (-1, -1)
    else if dx == 0 then (0, -1)
    else (1, -1)
  }

  lemma {:induction false} BackwardStepShortens(dx: int, dy: int)
    requires !Forward(dx, dy)
    ensures var (sx, sy) := BackwardStep(dx, dy);
            IsStep(sx, sy) && Length(dx - sx, dy - sy) + Step(sx, sy) == Length(dx, dy)
  {
  }

  // ---------------------------------------------------------------- one relaxation

  ghost predicate Below(v: Dist, c: Dist) {
    c.Fin? ==> AtMost(v, c.v)
  }

  ghost predicate InGrid(w: nat, h: nat, x: int, y: int) {
    0 <= x < w && 0 <= y < h
  }

  ghost predicate SoundPlane(D: seq<Dist>, cov: seq<real>, w: nat, h: nat)
    requires IsPlane(|cov|, w, h)
  {
    IsPlane(|D|, w, h) && forall x, y :: InGrid(w, h, x, y) ==> Sound(cov, w, h, x, y, Cell(D, w, h, x, y))
  }

  /** `v` takes the candidate offered by the neighbour one step (sx, sy) back, if there is one. */
  ghost predicate Relaxed(v: Dist, D: seq<Dist>, w: nat, h: nat, x: int, y: int, sx: int, sy: int)
    requires IsPlane(|D|, w, h)
  {
    InGrid(w, h, x - sx, y - sy) ==> Below(v, Add(Cell(D, w, h, x - sx, y - sy), Step(sx, sy)))
  }

  /** Offer `v` the candidate of the neighbour one step back; outside the grid there is none. */
  method Relax(d: array<Dist>, w: nat, h: nat, x: nat, y: nat, sx: int, sy: int, v: Dist, ghost cov: seq<real>)
    returns (v': Dist)
    requires IsPlane(d.Length, w, h) && IsPlane(|cov|, w, h) && x < w && y < h && IsStep(sx, sy)
    requires SoundPlane(d[..], cov, w, h) && Sound(cov, w, h, x, y, v)
    ensures Sound(cov, w, h, x, y, v') && Below(v', v)
    ensures Relaxed(v', d[..], w, h, x, y, sx, sy)
  {
    hide IsPlane, Cell, Sound, Length;
    v' := v;
    if 0 <= x - sx < w && 0 <= y - sy < h {
      var c := Read(d, w, h, x - sx, y - sy);
      StepSound(cov, w, h, x, y, sx, sy, c);
      MinSound(cov, w, h, x, y, v, Add(c, Step(sx, sy)));
      v' := Min(v, Add(c, Step(sx, sy)));
    }
  }

  // ---------------------------------------------------------------- forward pass

  /** Raster order: row `y`, column `x` comes before the scan position (X, Y). */
  ghost predicate Before(x: int, y: int, X: int, Y: int) {
    y < Y || (y == Y && x < X)
  }

  function Initial(c: real): Dist {
    if c < 1.0 then Fin(0.0) else Inf
  }

  ghost predicate ForwardState(D: seq<Dist>, cov: seq<real>, w: nat, h: nat, X: int, Y: int)
    requires IsPlane(|cov|, w, h)
  {
    && SoundPlane(D, cov, w, h)
    && forall x, y :: InGrid(w, h, x, y) ==>
         if Before(x, y, X, Y) then ForwardComplete(cov, w, h, x, y, Cell(D, w, h, x, y))
         else Cell(D, w, h, x, y) == Initial(Cell(cov, w, h, x, y))
  }

  /** A value relaxed against its four earlier neighbours is complete for the forward offsets. */
  lemma {:induction false} ForwardCellComplete(D: seq<Dist>, cov: seq<real>, w: nat, h: nat, x: int, y: int, v: Dist)
    requires IsPlane(|cov|, w, h) && InGrid(w, h, x, y) && ForwardState(D, cov, w, h, x, y)
    requires Below(v, Cell(D, w, h, x, y))
    requires Relaxed(v, D, w, h, x, y, 1, 0) && Relaxed(v, D, w, h, x, y, 0, 1)
    requires Relaxed(v, D, w, h, x, y, 1, 1) && Relaxed(v, D, w, h, x, y, -1, 1)
    ensures ForwardComplete(cov, w, h, x, y, v)
  {
    hide Sound;
    forall qx, qy | Uncovered(cov, w, h, qx, qy) && Forward(x - qx, y - qy)
      ensures AtMost(v, Length(x - qx, y - qy))
    {
      if qx == x && qy == y {
        LengthZero();
        assert Cell(D, w, h, x, y) == Initial(Cell(cov, w, h, x, y)) == Fin(0.0);
      } else {
        ForwardFrom(D, cov, w, h, x, y, v, qx, qy);
      }
    }
  }

  lemma {:induction false} ForwardFrom(D: seq<Dist>, cov: seq<real>, w: nat, h: nat, x: int, y: int, v: Dist, qx: int,
                                       qy: int)
    requires IsPlane(|cov|, w, h) && InGrid(w, h, x, y) && ForwardState(D, cov, w, h, x, y)
    requires Relaxed(v, D, w, h, x, y, 1, 0) && Relaxed(v, D, w, h, x, y, 0, 1)
    requires Relaxed(v, D, w, h, x, y, 1, 1) && Relaxed(v, D, w, h, x, y, -1, 1)
    requires Uncovered(cov, w, h, qx, qy) && Forward(x - qx, y - qy) && (qx != x || qy != y)
    ensures AtMost(v, Length(x - qx, y - qy))
  {
    hide Cell, IsPlane, Length, Step, Sound;
    var (sx, sy) := ForwardStep(x - qx, y - qy);
    ForwardStepShortens(x - qx, y - qy);
    var nx, ny := x - sx, y - sy;
    assert InGrid(w, h, nx, ny) && Before(nx, ny, x, y);
    assert ForwardComplete(cov, w, h, nx, ny, Cell(D, w, h, nx, ny));
    assert nx - qx == x - qx - sx && ny - qy == y - qy - sy;
    assert Relaxed(v, D, w, h, x, y, sx, sy);
  }

  lemma {:induction false} LengthZero()
    ensures Length(0, 0) == 0.0
  {
  }

  /** First pass: left, up, up-left and up-right neighbours, in raster order. */
  method ForwardPass(d: array<Dist>, cov: seq<real>, w: nat, h: nat)
    requires IsPlane(d.Length, w, h) && IsPlane(|cov|, w, h)
    requires ForwardState(d[..], cov, w, h, 0, 0)
    modifies d
    ensures ForwardState(d[..], cov, w, h, 0, h)
  {
    hide IsPlane, Cell, Sound, Length, ForwardComplete;
    for y := 0 to h
      invariant ForwardState(d[..], cov, w, h, 0, y)
    {
      for x := 0 to w
        invariant ForwardState(d[..], cov, w, h, x, y)
      {
        var v := Read(d, w, h, x, y);
        assert InGrid(w, h, x, y);
        v := Relax(d, w, h, x, y, 1, 0, v, cov);
        v := Relax(d, w, h, x, y, 0, 1, v, cov);
        v := Relax(d, w, h, x, y, 1, 1, v, cov);
        v := Relax(d, w, h, x, y, -1, 1, v, cov);
        ForwardCellComplete(d[..], cov, w, h, x, y, v);
        Write(d, w, h, x, y, v);
      }
    }
  }

  // ---------------------------------------------------------------- backward pass

  ghost predicate BackwardState(D: seq<Dist>, cov: seq<real>, w: nat, h: nat, X: int, Y: int)
    requires IsPlane(|cov|, w, h)
  {
    && SoundPlane(D, cov, w, h)
    && forall x, y :: InGrid(w, h, x, y) ==>
         if Before(X, Y, x, y) then Complete(cov, w, h, x, y, Cell(D, w, h, x, y))
         else ForwardComplete(cov, w, h, x, y, Cell(D, w, h, x, y))
  }

  /** A forward-complete value relaxed against its four later neighbours is complete. */
  lemma {:induction false} BackwardCellComplete(D: seq<Dist>, cov: seq<real>, w: nat, h: nat, x: int, y: int, v: Dist)
    requires IsPlane(|cov|, w, h) && InGrid(w, h, x, y) && BackwardState(D, cov, w, h, x, y)
    requires Below(v, Cell(D, w, h, x, y))
    requires Relaxed(v, D, w, h, x, y, -1, 0) && Relaxed(v, D, w, h, x, y, 0, -1)
    requires Relaxed(v, D, w, h, x, y, -1, -1) && Relaxed(v, D, w, h, x, y, 1, -1)
    ensures Complete(cov, w, h, x, y, v)
  {
    hide Cell, IsPlane, Length, Step, Sound;
    forall qx, qy | Uncovered(cov, w, h, qx, qy)
      ensures AtMost(v, Length(x - qx, y - qy))
    {
      if Forward(x - qx, y - qy) {
        assert ForwardComplete(cov, w, h, x, y, Cell(D, w, h, x, y));
      } else {
        var (sx, sy) := BackwardStep(x - qx, y - qy);
        BackwardStepShortens(x - qx, y - qy);
        var nx, ny := x - sx, y - sy;
        assert InGrid(w, h, nx, ny) && Before(x, y, nx, ny);
        assert Complete(cov, w, h, nx, ny, Cell(D, w, h, nx, ny));
        assert nx - qx == x - qx - sx && ny - qy == y - qy - sy;
        assert Relaxed(v, D, w, h, x, y, sx, sy);
      }
    }
  }

  /** Second pass: right, down, down-right and down-left neighbours, in reverse raster order. */
  method BackwardPass(d: array<Dist>, ghost cov: seq<real>, w: nat, h: nat)
    requires IsPlane(d.Length, w, h) && IsPlane(|cov|, w, h)
    requires BackwardState(d[..], cov, w, h, w - 1, h - 1)
    modifies d
    ensures BackwardState(d[..], cov, w, h, w - 1, -1)
  {
    hide IsPlane, Cell, Sound, Length, ForwardComplete, Complete;
    var y := h;
    while y > 0
      invariant 0 <= y <= h && BackwardState(d[..], cov, w, h, w - 1, y - 1)
    {
      y := y - 1;
      var x := w;
      while x > 0
        invariant 0 <= x <= w && BackwardState(d[..], cov, w, h, x - 1, y)
      {
        x := x - 1;
        var v := Read(d, w, h, x, y);
        assert InGrid(w, h, x, y);
        v := Relax(d, w, h, x, y, -1, 0, v, cov);
        v := Relax(d, w, h, x, y, 0, -1, v, cov);
        v := Relax(d, w, h, x, y, -1, -1, v, cov);
        v := Relax(d, w, h, x, y, 1, -1, v, cov);
        BackwardCellComplete(d[..], cov, w, h, x, y, v);
        Write(d, w, h, x, y, v);
      }
    }
  }

  /** The distance map of a coverage plane. */
  method DistanceMap(cov: seq<real>, w: nat, h: nat) returns (d: array<Dist>)
    requires IsPlane(|cov|, w, h)
    ensures fresh(d) && IsPlane(d.Length, w, h)
    ensures forall x, y :: InGrid(w, h, x, y) ==> IsDistance(cov, w, h, x, y, Cell(d[..], w, h, x, y))
  {
    d := new Dist[|cov|](i requires 0 <= i < |cov| => Initial(cov[i]));
    InitialState(d[..], cov, w, h);
    ForwardPass(d, cov, w, h);
    ghost var F := d[..];
    TurnAround(F, cov, w, h);
    BackwardPass(d, cov, w, h);
    forall x, y | InGrid(w, h, x, y)
      ensures IsDistance(cov, w, h, x, y, Cell(d[..], w, h, x, y))
    {
      assert Before(w - 1, -1, x, y);
      SoundCompleteIsDistance(cov, w, h, x, y, Cell(d[..], w, h, x, y));
    }
  }

  lemma {:induction false} InitialState(D: seq<Dist>, cov: seq<real>, w: nat, h: nat)
    requires IsPlane(|cov|, w, h) && |D| == |cov|
    requires forall i :: 0 <= i < |cov| ==> D[i] == Initial(cov[i])
    ensures ForwardState(D, cov, w, h, 0, 0)
  {
    LengthZero();
    forall x, y | InGrid(w, h, x, y)
      ensures Cell(D, w, h, x, y) == Initial(Cell(cov, w, h, x, y))
      ensures Sound(cov, w, h, x, y, Cell(D, w, h, x, y))
    {
      CellAt(D, w, h, x, y);
      CellAt(cov, w, h, x, y);
      hide Cell, Length;
      assert Uncovered(cov, w, h, x, y) <==> Cell(cov, w, h, x, y) < 1.0;
    }
  }

  lemma {:induction false} TurnAround(D: seq<Dist>, cov: seq<real>, w: nat, h: nat)
    requires IsPlane(|cov|, w, h) && ForwardState(D, cov, w, h, 0, h)
    ensures BackwardState(D, cov, w, h, w - 1, h - 1)
  {
    hide Cell, ForwardComplete, Complete;
    assert forall x, y :: InGrid(w, h, x, y) ==> Before(x, y, 0, h) && !Before(w - 1, h - 1, x, y);
  }
}
