/** What the fill guarantees beyond its local layers: brightness above the background does not travel
    into the depth of a large masked complex (crates/mmm-core/src/blend.rs, `suppress_stars_in_base`). */
module FillDepth {
  import opened Grid
  import opened OnionFill
  import opened Reach

  ghost function Least(s: seq<real>): (m: real)
    ensures forall i :: 0 <= i < |s| ==> m <= s[i]
  {
    if s == [] then 0.0
    else
      var head, last := s[..|s| - 1], s[|s| - 1];
      var m := Least(head);
      assert forall i :: 0 <= i < |head| ==> head[i] == s[i];
      if last < m then last else m
  }

  /** No cell that is averaged from is bright. */
  ghost predicate AllDim(vals: seq<real>, avail: seq<bool>, bounds: seq<real>, n: nat, nch: nat) {
    && |avail| == n && IsPlane(|vals|, n, nch) && |bounds| == nch
    && forall j :: 0 <= j < n && avail[j] ==> !IsBright(vals, bounds, n, nch, j)
  }

  lemma {:induction false} MeanIsDim(avail: seq<bool>, vals: seq<real>, bounds: seq<real>, w: nat, h: nat, nch: nat,
                                     i: nat, c: int)
    requires AllDim(vals, avail, bounds, w * h, nch) && i < w * h && 0 <= c < nch && Neighbours(avail, w, h, i) > 0
    ensures Mean(avail, vals, w, h, nch, i, c) <= bounds[c]
  {
    hide IsPlane, Neighbours, Mean;
    forall j | 0 <= j < |avail| && avail[j]
      ensures Least(vals) <= Cell(vals, |avail|, nch, j, c) <= bounds[c]
    {
      CellAt(vals, w * h, nch, j, c);
    }
    MeanBounds(avail, vals, w, h, nch, i, c, Least(vals), bounds[c]);
  }

  lemma {:induction false} CellAt(vals: seq<real>, n: nat, nch: nat, j: int, c: int)
    requires IsPlane(|vals|, n, nch) && 0 <= j < n && 0 <= c < nch
    ensures Least(vals) <= Cell(vals, n, nch, j, c)
  {
    Grid.CellAt(vals, n, nch, j, c);
  }

  /** A round that averages dim cells only leaves dim cells behind, old and new. */
  lemma {:induction false} AdvanceIsDim(f: Front, spreading: seq<bool>, f': Front, bounds: seq<real>, w: nat, h: nat,
                                        nch: nat)
    requires IsAdvance(f, spreading, f', w, h, nch) && AllDim(f.vals, spreading, bounds, w * h, nch)
    requires forall j: nat :: j < w * h && spreading[j] ==> j !in f.open
    ensures AllDim(f'.vals, f'.avail, bounds, w * h, nch)
  {
    hide IsPlane, Cell, Neighbours, Mean;
    forall j | 0 <= j < w * h && f'.avail[j] ensures !IsBright(f'.vals, bounds, w * h, nch, j) {
      if j in f.open && Neighbours(spreading, w, h, j) > 0 {
        forall c | 0 <= c < nch ensures Cell(f'.vals, w * h, nch, j, c) <= bounds[c] {
          MeanIsDim(spreading, f.vals, bounds, w, h, nch, j, c);
        }
      } else {
        assert forall c :: 0 <= c < nch ==> Cell(f'.vals, w * h, nch, j, c) == Cell(f.vals, w * h, nch, j, c);
        assert !IsBright(f.vals, bounds, w * h, nch, j);
      }
    }
  }

  /** Cells still to fill are not available. */
  ghost predicate OpenApart(f: Front, n: nat) {
    |f.avail| == n && forall j: nat :: j in f.open ==> j < n && !f.avail[j]
  }

  lemma {:induction false} OpenStaysApart(trace: seq<Front>, bounds: seq<real>, w: nat, h: nat, nch: nat, k: nat)
    requires IsTrace(trace, bounds, w, h, nch) && k < |trace| && OpenApart(trace[0], w * h)
    ensures OpenApart(trace[k], w * h)
  {
    hide IsPlane, Cell, Neighbours, Mean;
    if k > 0 {
      OpenStaysApart(trace, bounds, w, h, nch, k - 1);
      assert IsStep(trace[k - 1], trace[k], k - 1, bounds, w, h, nch);
    }
  }

  /** From the cut on, the available cells are dim. */
  lemma {:induction false} DimAfterCut(trace: seq<Front>, bounds: seq<real>, w: nat, h: nat, nch: nat, k: nat)
    requires IsTrace(trace, bounds, w, h, nch) && FILL_LOCAL_LAYERS < k < |trace| && OpenApart(trace[0], w * h)
    ensures AllDim(trace[k].vals, trace[k].avail, bounds, w * h, nch)
  {
    hide IsPlane, Cell, Neighbours, Mean, IsBright, IsAdvance;
    var f := trace[k - 1];
    assert IsStep(f, trace[k], k - 1, bounds, w, h, nch);
    if k - 1 > FILL_LOCAL_LAYERS {
      DimAfterCut(trace, bounds, w, h, nch, k - 1);
    }
    OpenStaysApart(trace, bounds, w, h, nch, k - 1);
    AdvanceIsDim(f, Spreading(f, k - 1, bounds, w * h, nch), trace[k], bounds, w, h, nch);
  }

  /** A cell that is not to be filled keeps its value to the end. */
  lemma {:induction false} ClosedStays(trace: seq<Front>, bounds: seq<real>, w: nat, h: nat, nch: nat, k: nat, m: nat,
                                       j: nat, c: nat)
    requires IsTrace(trace, bounds, w, h, nch) && k <= m < |trace| && j < w * h && c < nch && j !in trace[k].open
    requires IsPlane(|trace[k].vals|, w * h, nch)
    ensures j !in trace[m].open && IsPlane(|trace[m].vals|, w * h, nch)
    ensures Cell(trace[m].vals, w * h, nch, j, c) == Cell(trace[k].vals, w * h, nch, j, c)
    decreases m
  {
    hide IsPlane, Cell, Neighbours, Mean;
    if k < m {
      ClosedStays(trace, bounds, w, h, nch, k, m - 1, j, c);
      assert IsStep(trace[m - 1], trace[m], m - 1, bounds, w, h, nch);
    }
  }

  lemma {:induction false} FilledWhen(trace: seq<Front>, k: nat, m: nat, j: nat) returns (r: nat)
    requires k <= m < |trace| && j in trace[k].open && j !in trace[m].open
    ensures k <= r < m && j in trace[r].open && j !in trace[r + 1].open
    decreases m
  {
    if j in trace[m - 1].open { r := m - 1; } else { r := FilledWhen(trace, k, m - 1, j); }
  }

  /** A cell filled after the local layers ends up no brighter than the background bound, in any channel. */
  lemma {:induction false} DeepFillsAreDim(trace: seq<Front>, bounds: seq<real>, w: nat, h: nat, nch: nat, j: nat)
    requires IsTrace(trace, bounds, w, h, nch) && FILL_LOCAL_LAYERS < |trace| && OpenApart(trace[0], w * h)
    requires j in trace[FILL_LOCAL_LAYERS].open && j !in trace[|trace| - 1].open
    ensures IsPlane(|trace[|trace| - 1].vals|, w * h, nch) && j < w * h && |bounds| == nch
    ensures !IsBright(trace[|trace| - 1].vals, bounds, w * h, nch, j)
  {
    hide IsPlane, Cell, Neighbours, Mean, Spreading, AllDim;
    OpenStaysApart(trace, bounds, w, h, nch, FILL_LOCAL_LAYERS);
    var r := FilledWhen(trace, FILL_LOCAL_LAYERS, |trace| - 1, j);
    var f := trace[r];
    assert IsStep(f, trace[r + 1], r, bounds, w, h, nch);
    DimAfterCut(trace, bounds, w, h, nch, r + 1);
    assert trace[r + 1].avail[j];
    DimAt(trace[r + 1], bounds, w * h, nch, j);
    assert IsStep(trace[|trace| - 2], trace[|trace| - 1], |trace| - 2, bounds, w, h, nch);
    var n, here, last := w * h, trace[r + 1].vals, trace[|trace| - 1].vals;
    forall c: nat | c < nch ensures Cell(last, n, nch, j, c) == Cell(here, n, nch, j, c) {
      ClosedStays(trace, bounds, w, h, nch, r + 1, |trace| - 1, j, c);
    }
  }

  lemma {:induction false} DimAt(f: Front, bounds: seq<real>, n: nat, nch: nat, j: nat)
    requires AllDim(f.vals, f.avail, bounds, n, nch) && j < n && f.avail[j]
    ensures IsPlane(|f.vals|, n, nch) && |bounds| == nch && !IsBright(f.vals, bounds, n, nch, j)
  {
  }

  /** When the fill stops early, what is left is out of touch with every cell that spread last. */
  lemma {:induction false} RestIsIsolated(trace: seq<Front>, bounds: seq<real>, w: nat, h: nat, nch: nat, j: nat)
    requires IsTrace(trace, bounds, w, h, nch) && IsOver(trace) && |trace| <= MAX_ROUNDS
    requires OpenApart(trace[0], w * h) && j in trace[|trace| - 1].open
    ensures 2 <= |trace| && j < w * h
    ensures var f := trace[|trace| - 2];
            && |f.avail| == w * h && IsPlane(|f.vals|, w * h, nch) && |bounds| == nch
            && forall i: nat :: i < w * h && Adjacent(Eight, w, j, i) ==>
                 !Spreading(f, |trace| - 2, bounds, w * h, nch)[i]
  {
    hide IsPlane, Cell, Neighbours, Mean, Spreading;
    OpenStaysApart(trace, bounds, w, h, nch, |trace| - 1);
    var k := |trace| - 2;
    assert IsStep(trace[k], trace[k + 1], k, bounds, w, h, nch);
    var spreading := Spreading(trace[k], k, bounds, w * h, nch);
    assert Neighbours(spreading, w, h, j) == 0;
    NeighboursPositive(spreading, w, h, j);
    forall i: nat | i < w * h && Adjacent(Eight, w, j, i) ensures !spreading[i] {
      AdjacentSymmetric(w, j, i);
    }
  }

  // ---------------------------------------------------------------- what is filled after the cut

  /** The cells a front still has to fill, as a plane. */
  ghost function OpenCells(f: Front, n: nat): (r: seq<bool>)
    ensures |r| == n && forall j :: 0 <= j < n ==> (r[j] <==> j in f.open)
  {
    seq(n, j => j in f.open)
  }

  /** The cells that spread past the brightness cut: available after the local layers, and not bright. */
  ghost function Dim(trace: seq<Front>, bounds: seq<real>, w: nat, h: nat, nch: nat): (r: seq<bool>)
    requires FILL_LOCAL_LAYERS < |trace| - 1 && IsTrace(trace, bounds, w, h, nch)
    ensures |r| == w * h
  {
    assert IsStep(trace[FILL_LOCAL_LAYERS], trace[FILL_LOCAL_LAYERS + 1], FILL_LOCAL_LAYERS, bounds, w, h, nch);
    Spreading(trace[FILL_LOCAL_LAYERS], FILL_LOCAL_LAYERS, bounds, w * h, nch)
  }

  /** The cells filled or spreading `m` rounds after the cut. */
  ghost function Closure(trace: seq<Front>, bounds: seq<real>, w: nat, h: nat, nch: nat, m: nat): (r: seq<bool>)
    requires FILL_LOCAL_LAYERS < |trace| - 1 && IsTrace(trace, bounds, w, h, nch)
    ensures |r| == w * h
  {
    Ball(Dim(trace, bounds, w, h, nch), OpenCells(trace[FILL_LOCAL_LAYERS], w * h), w, h, m)
  }

  /** One round past the cut adds the open cells beside the closure so far. */
  lemma {:induction false} AdvanceGrows(f: Front, spreading: seq<bool>, f': Front, start: seq<bool>, w: nat, h: nat,
                                        nch: nat)
    requires IsAdvance(f, spreading, f', w, h, nch) && |start| == w * h
    requires forall j: nat :: j in f.open <==> j < w * h && start[j] && !spreading[j]
    ensures f'.avail == Grown(spreading, start, w, h)
    ensures forall j: nat :: j in f'.open <==> j < w * h && start[j] && !f'.avail[j]
  {
    hide IsPlane, Cell, Neighbours, Mean;
  }

  lemma {:induction false} OpenNotSpreading(f: Front, spreading: seq<bool>, start: seq<bool>, n: nat)
    requires OpenApart(f, n) && start == OpenCells(f, n) && |spreading| == n
    requires forall j :: 0 <= j < n && spreading[j] ==> f.avail[j]
    ensures forall j: nat :: j in f.open <==> j < n && start[j] && !spreading[j]
  {
  }

  /** From the cut on the available cells are the closure, and the rest of the open cells stays open. */
  lemma {:induction false} ClosureAfterCut(trace: seq<Front>, bounds: seq<real>, w: nat, h: nat, nch: nat, m: nat)
    requires IsTrace(trace, bounds, w, h, nch) && OpenApart(trace[0], w * h) && 0 < m < |trace| - FILL_LOCAL_LAYERS
    ensures trace[FILL_LOCAL_LAYERS + m].avail == Closure(trace, bounds, w, h, nch, m)
    ensures forall j: nat :: j in trace[FILL_LOCAL_LAYERS + m].open <==>
              j < w * h && j in trace[FILL_LOCAL_LAYERS].open && !Closure(trace, bounds, w, h, nch, m)[j]
    decreases m
  {
    hide IsPlane, Cell, Neighbours, Mean, IsBright, IsAdvance;
    var k := FILL_LOCAL_LAYERS + m;
    var start := OpenCells(trace[FILL_LOCAL_LAYERS], w * h);
    OpenStaysApart(trace, bounds, w, h, nch, FILL_LOCAL_LAYERS);
    assert IsStep(trace[k - 1], trace[k], k - 1, bounds, w, h, nch);
    var spreading := Spreading(trace[k - 1], k - 1, bounds, w * h, nch);
    if m > 1 {
      ClosureAfterCut(trace, bounds, w, h, nch, m - 1);
      assert spreading == trace[k - 1].avail;
    }
    assert spreading == Closure(trace, bounds, w, h, nch, m - 1);
    if m == 1 {
      OpenNotSpreading(trace[k - 1], spreading, start, w * h);
    }
    AdvanceGrows(trace[k - 1], spreading, trace[k], start, w, h, nch);
  }

  /** A round that fills nothing, or leaves nothing to fill, closes the closure. */
  lemma {:induction false} ClosureIsOver(trace: seq<Front>, bounds: seq<real>, w: nat, h: nat, nch: nat, m: nat)
    requires IsTrace(trace, bounds, w, h, nch) && IsOver(trace) && OpenApart(trace[0], w * h)
    requires FILL_LOCAL_LAYERS < |trace| - 1 && |trace| - 1 - FILL_LOCAL_LAYERS <= m <= MAX_ROUNDS - FILL_LOCAL_LAYERS
    ensures Closure(trace, bounds, w, h, nch, m) == Closure(trace, bounds, w, h, nch, |trace| - 1 - FILL_LOCAL_LAYERS)
  {
    hide IsPlane, Cell, Neighbours, Mean, IsBright, IsStep;
    var e := |trace| - 1 - FILL_LOCAL_LAYERS;
    var dim, start := Dim(trace, bounds, w, h, nch), OpenCells(trace[FILL_LOCAL_LAYERS], w * h);
    ClosureAfterCut(trace, bounds, w, h, nch, e);
    if e < m {
      if trace[|trace| - 1].open == {} {
        forall j: nat | j < w * h && start[j] ensures Ball(dim, start, w, h, e)[j] {
          assert j !in trace[|trace| - 1].open;
        }
        assert Ball(dim, start, w, h, e + 1) == Ball(dim, start, w, h, e);
        BallStable(dim, start, w, h, e, m);
      } else {
        StuckCloses(trace, bounds, w, h, nch);
        BallStable(dim, start, w, h, e - 1, m);
      }
    }
  }

  lemma {:induction false} StuckCloses(trace: seq<Front>, bounds: seq<real>, w: nat, h: nat, nch: nat)
    requires IsTrace(trace, bounds, w, h, nch) && OpenApart(trace[0], w * h) && FILL_LOCAL_LAYERS < |trace| - 1
    requires trace[|trace| - 1].open == trace[|trace| - 2].open
    ensures Closure(trace, bounds, w, h, nch, |trace| - 1 - FILL_LOCAL_LAYERS)
         == Closure(trace, bounds, w, h, nch, |trace| - 2 - FILL_LOCAL_LAYERS)
  {
    hide IsPlane, Cell, Neighbours, Mean, IsBright;
    var k := |trace| - 2;
    var m := k - FILL_LOCAL_LAYERS;
    assert IsStep(trace[k], trace[k + 1], k, bounds, w, h, nch);
    ClosureAfterCut(trace, bounds, w, h, nch, m + 1);
    var spreading := Spreading(trace[k], k, bounds, w * h, nch);
    if m > 0 {
      ClosureAfterCut(trace, bounds, w, h, nch, m);
      assert spreading == trace[k].avail;
    }
    assert spreading == Closure(trace, bounds, w, h, nch, m);
    forall j: nat | j < w * h ensures trace[k + 1].avail[j] == spreading[j] {
      assert j in trace[k].open ==> j in trace[k + 1].open;
    }
  }

  /** A cell left open by the local layers is filled by the `m`-th round after the cut exactly when a walk
      of at most `m` steps through open cells leads to it from an available cell that is not bright. */
  lemma {:induction false} FilledByRoundIff(trace: seq<Front>, bounds: seq<real>, w: nat, h: nat, nch: nat, m: nat,
                                            j: nat)
    requires IsTrace(trace, bounds, w, h, nch) && OpenApart(trace[0], w * h) && 0 < m < |trace| - FILL_LOCAL_LAYERS
    requires j in trace[FILL_LOCAL_LAYERS].open
    ensures j !in trace[FILL_LOCAL_LAYERS + m].open <==>
            WithinSteps(Dim(trace, bounds, w, h, nch), OpenCells(trace[FILL_LOCAL_LAYERS], w * h), w, m, j)
  {
    hide IsPlane, Cell, IsStep, Ball, WithinSteps;
    OpenStaysApart(trace, bounds, w, h, nch, FILL_LOCAL_LAYERS);
    ClosureAfterCut(trace, bounds, w, h, nch, m);
    BallIsDistance(Dim(trace, bounds, w, h, nch), OpenCells(trace[FILL_LOCAL_LAYERS], w * h), w, h, m, j);
  }

  /** The finished fill reaches an open cell exactly when such a walk fits in the rounds after the cut,
      whether or not the fill stopped before using them all. */
  lemma {:induction false} FilledIff(trace: seq<Front>, bounds: seq<real>, w: nat, h: nat, nch: nat, j: nat)
    requires IsTrace(trace, bounds, w, h, nch) && IsOver(trace) && OpenApart(trace[0], w * h)
    requires FILL_LOCAL_LAYERS < |trace| - 1 && j in trace[FILL_LOCAL_LAYERS].open
    ensures j !in trace[|trace| - 1].open <==>
            WithinSteps(Dim(trace, bounds, w, h, nch), OpenCells(trace[FILL_LOCAL_LAYERS], w * h), w,
                        MAX_ROUNDS - FILL_LOCAL_LAYERS, j)
  {
    hide IsPlane, Cell, IsStep, Ball, WithinSteps;
    var e, m := |trace| - 1 - FILL_LOCAL_LAYERS, MAX_ROUNDS - FILL_LOCAL_LAYERS;
    OpenStaysApart(trace, bounds, w, h, nch, FILL_LOCAL_LAYERS);
    ClosureAfterCut(trace, bounds, w, h, nch, e);
    ClosureIsOver(trace, bounds, w, h, nch, m);
    BallIsDistance(Dim(trace, bounds, w, h, nch), OpenCells(trace[FILL_LOCAL_LAYERS], w * h), w, h, m, j);
  }
}
