/** The onion-peel fill that replaces star-masked and rim cells of the base plane by averages of
    trusted background cells, layer by layer (crates/mmm-core/src/blend.rs,
    `suppress_stars_in_base` and `base_reach`). */
module OnionFill {
  import opened Grid
  import opened Reach
  import Indexing
  import Order
  import Reals

  const ANCHOR_MAD_K: real := 20.0
  const MAD_FLOOR: real := 0.0000001
  const FILL_LOCAL_LAYERS: nat := 8
  const MAX_ROUNDS: nat := 256

  // ---------------------------------------------------------------- windows and means

  /** The first `n` cells of row `y` from column `lo`. */
  ghost function ScanRow(w: nat, y: nat, lo: nat, n: nat): (r: seq<nat>)
    ensures |r| == n
  {
    seq(n, k requires 0 <= k < n => y * w + lo + k)
  }

  ghost function ScanRows(w: nat, y: nat, lo: nat, n: nat, m: nat): seq<nat> {
    if m == 0 then [] else ScanRows(w, y, lo, n, m - 1) + ScanRow(w, y + m - 1, lo, n)
  }

  /** The 3 by 3 window around `i`, clipped to the grid, in scan order. */
  ghost function Window(w: nat, h: nat, i: nat): seq<nat>
    requires i < w * h
  {
    CellRange(w, h, i);
    var x, y := Col(w, i), Row(w, i);
    ScanRows(w, Lo(y), Lo(x), Hi(x, w) + 1 - Lo(x), Hi(y, h) + 1 - Lo(y))
  }

  lemma {:induction false} ScanRowsAt(w: nat, y: nat, lo: nat, n: nat, m: nat, j: nat)
    requires lo + n <= w
    ensures j in ScanRows(w, y, lo, n, m) <==>
            w > 0 && y <= Row(w, j) < y + m && lo <= Col(w, j) < lo + n
  {
    if m > 0 {
      ScanRowsAt(w, y, lo, n, m - 1, j);
      ScanRowAt(w, y + m - 1, lo, n, j);
    }
  }

  lemma {:induction false} ScanRowAt(w: nat, y: nat, lo: nat, n: nat, j: nat)
    requires lo + n <= w
    ensures j in ScanRow(w, y, lo, n) <==> w > 0 && Row(w, j) == y && lo <= Col(w, j) < lo + n
  {
    var r := ScanRow(w, y, lo, n);
    if j in r {
      var k :| 0 <= k < n && r[k] == j;
      IndexCell(w, y + 1, lo + k, y);
    }
    if w > 0 && Row(w, j) == y && lo <= Col(w, j) < lo + n {
      CellSplit(w, j);
      assert r[Col(w, j) - lo] == j;
    }
  }

  lemma {:induction false} CellSplit(w: nat, j: nat)
    requires w > 0
    ensures j == Row(w, j) * w + Col(w, j)
  {
  }

  /** The window holds exactly the cell and its eight neighbours. */
  lemma {:induction false} WindowAt(w: nat, h: nat, i: nat, j: nat)
    requires i < w * h
    ensures j in Window(w, h, i) <==> j < w * h && Adjacent(Eight, w, i, j)
  {
    CellRange(w, h, i);
    var x, y := Col(w, i), Row(w, i);
    ScanRowsAt(w, Lo(y), Lo(x), Hi(x, w) + 1 - Lo(x), Hi(y, h) + 1 - Lo(y), j);
    if j < w * h { CellRange(w, h, j); }
    if Row(w, j) < h { CellSplit(w, j); IndexCell(w, h, Col(w, j), Row(w, j)); }
    hide Col, Row;
  }

  ghost predicate InRange(cells: seq<nat>, n: nat) {
    forall k :: 0 <= k < |cells| ==> cells[k] < n
  }

  ghost function CountAvail(cells: seq<nat>, avail: seq<bool>): nat
    requires InRange(cells, |avail|)
  {
    if cells == [] then 0
    else CountAvail(cells[..|cells| - 1], avail) + if avail[cells[|cells| - 1]] then 1 else 0
  }

  /** Sum of channel `c` over the available cells of a list. */
  ghost function SumAvail(cells: seq<nat>, avail: seq<bool>, vals: seq<real>, nch: nat, c: int): real
    requires InRange(cells, |avail|) && IsPlane(|vals|, |avail|, nch) && 0 <= c < nch
  {
    if cells == [] then 0.0
    else
      SumAvail(cells[..|cells| - 1], avail, vals, nch, c)
      + if avail[cells[|cells| - 1]] then Cell(vals, |avail|, nch, cells[|cells| - 1], c) else 0.0
  }

  lemma {:induction false} SumBounds(cells: seq<nat>, avail: seq<bool>, vals: seq<real>, nch: nat, c: int, lo: real,
                                     hi: real)
    requires InRange(cells, |avail|) && IsPlane(|vals|, |avail|, nch) && 0 <= c < nch
    requires forall j :: 0 <= j < |avail| && avail[j] ==> lo <= Cell(vals, |avail|, nch, j, c) <= hi
    ensures lo * CountAvail(cells, avail) as real <= SumAvail(cells, avail, vals, nch, c)
              <= hi * CountAvail(cells, avail) as real
  {
    hide Cell, IsPlane;
    if cells != [] {
      var init, j := cells[..|cells| - 1], cells[|cells| - 1];
      SumBounds(init, avail, vals, nch, c, lo, hi);
      var n := CountAvail(init, avail);
      assert lo * (n + 1) as real == lo * n as real + lo && hi * (n + 1) as real == hi * n as real + hi;
    }
  }

  lemma {:induction false} SumAgrees(cells: seq<nat>, avail: seq<bool>, vals: seq<real>, vals': seq<real>, nch: nat,
                                     c: int)
    requires InRange(cells, |avail|) && 0 <= c < nch
    requires IsPlane(|vals|, |avail|, nch) && IsPlane(|vals'|, |avail|, nch)
    requires forall j :: 0 <= j < |avail| && avail[j] ==>
               Cell(vals, |avail|, nch, j, c) == Cell(vals', |avail|, nch, j, c)
    ensures SumAvail(cells, avail, vals, nch, c) == SumAvail(cells, avail, vals', nch, c)
  {
    hide Cell, IsPlane;
    if cells != [] { SumAgrees(cells[..|cells| - 1], avail, vals, vals', nch, c); }
  }

  lemma {:induction false} CountPositive(cells: seq<nat>, avail: seq<bool>)
    requires InRange(cells, |avail|)
    ensures CountAvail(cells, avail) > 0 <==> exists j :: j in cells && avail[j]
  {
    if cells != [] {
      var init, j := cells[..|cells| - 1], cells[|cells| - 1];
      CountPositive(init, avail);
      assert forall k :: k in cells <==> k in init || k == j;
    }
  }

  lemma {:induction false} WindowInRange(w: nat, h: nat, i: nat)
    requires i < w * h
    ensures InRange(Window(w, h, i), w * h)
  {
    forall k | 0 <= k < |Window(w, h, i)| ensures Window(w, h, i)[k] < w * h {
      WindowAt(w, h, i, Window(w, h, i)[k]);
    }
  }

  ghost function Neighbours(avail: seq<bool>, w: nat, h: nat, i: nat): nat
    requires |avail| == w * h && i < w * h
  {
    WindowInRange(w, h, i);
    CountAvail(Window(w, h, i), avail)
  }

  /** Mean of a channel over the available cells of the window around `i`. */
  ghost function Mean(avail: seq<bool>, vals: seq<real>, w: nat, h: nat, nch: nat, i: nat, c: int): real
    requires |avail| == w * h && i < w * h && IsPlane(|vals|, |avail|, nch) && 0 <= c < nch
    requires Neighbours(avail, w, h, i) > 0
  {
    WindowInRange(w, h, i);
    SumAvail(Window(w, h, i), avail, vals, nch, c) / Neighbours(avail, w, h, i) as real
  }

  lemma {:induction false} NeighboursPositive(avail: seq<bool>, w: nat, h: nat, i: nat)
    requires |avail| == w * h && i < w * h
    ensures Neighbours(avail, w, h, i) > 0 <==> exists j: nat :: j < w * h && avail[j] && Adjacent(Eight, w, i, j)
  {
    WindowInRange(w, h, i);
    CountPositive(Window(w, h, i), avail);
    forall j: nat ensures j in Window(w, h, i) <==> j < w * h && Adjacent(Eight, w, i, j) { WindowAt(w, h, i, j); }
    hide Window, Adjacent;
  }

  /** An average of available cells lies between any bounds that hold of them. */
  lemma {:induction false} MeanBounds(avail: seq<bool>, vals: seq<real>, w: nat, h: nat, nch: nat, i: nat, c: int,
                                      lo: real, hi: real)
    requires |avail| == w * h && i < w * h && IsPlane(|vals|, |avail|, nch) && 0 <= c < nch
    requires Neighbours(avail, w, h, i) > 0
    requires forall j :: 0 <= j < |avail| && avail[j] ==> lo <= Cell(vals, |avail|, nch, j, c) <= hi
    ensures lo <= Mean(avail, vals, w, h, nch, i, c) <= hi
  {
    hide Cell, IsPlane, Window;
    WindowInRange(w, h, i);
    SumBounds(Window(w, h, i), avail, vals, nch, c, lo, hi);
    Reals.QuotientBounds(SumAvail(Window(w, h, i), avail, vals, nch, c), Neighbours(avail, w, h, i) as real, lo, hi);
  }

  // ---------------------------------------------------------------- one pass

  /** The double-buffered pass: every listed cell with an available neighbour takes the mean of its
      available neighbours, all means taken over the values before the pass. */
  ghost predicate IsPass(vals: seq<real>, avail: seq<bool>, listed: seq<nat>, vals': seq<real>, w: nat, h: nat,
                         nch: nat) {
    && |avail| == w * h && InRange(listed, w * h) && IsPlane(|vals|, w * h, nch) && IsPlane(|vals'|, w * h, nch)
    && forall j, c :: 0 <= j < w * h && 0 <= c < nch ==>
         Cell(vals', w * h, nch, j, c) ==
           if j in listed && Neighbours(avail, w, h, j) > 0 then Mean(avail, vals, w, h, nch, j, c)
           else Cell(vals, w * h, nch, j, c)
  }

  /** Add one cell of the window to the sums and the count. */
  method GatherCell(vals: array<real>, avail: array<bool>, sums: array<real>, nch: nat, j: nat, n: nat,
                    ghost cells: seq<nat>) returns (n': nat)
    requires j < avail.Length && IsPlane(vals.Length, avail.Length, nch) && sums != vals
    requires Gathered(cells, avail[..], vals[..], nch, sums[..], n)
    modifies sums
    ensures Gathered(cells + [j], avail[..], vals[..], nch, sums[..], n')
  {
    hide IsPlane, Cell;
    ghost var V, A, S := vals[..], avail[..], sums[..];
    n' := n;
    if avail[j] {
      n' := n + 1;
      for c := 0 to nch
        invariant vals[..] == V && avail[..] == A && sums.Length == nch
        invariant forall d :: 0 <= d < nch ==> sums[d] == S[d] + if d < c then Cell(V, |A|, nch, j, d) else 0.0
      {
        var v := Read(vals, avail.Length, nch, j, c);
        sums[c] := sums[c] + v;
      }
    }
    GatherOne(cells, A, V, nch, S, sums[..], n', j);
  }

  /** Sums of every channel over the available cells of the window around `i`, and their number. */
  method GatherWindow(vals: array<real>, avail: array<bool>, sums: array<real>, w: nat, h: nat, nch: nat, i: nat)
    returns (n: nat)
    requires avail.Length == w * h && IsPlane(vals.Length, w * h, nch) && sums.Length == nch && i < w * h
    requires sums != vals
    modifies sums
    ensures n == Neighbours(avail[..], w, h, i)
    ensures WindowSums(avail[..], vals[..], w, h, nch, i, sums[..])
  {
    hide IsPlane, Cell, Col, Row, SumAvail, CountAvail, Gathered, WindowSums, Neighbours;
    WindowInRange(w, h, i);
    CellRange(w, h, i);
    var x, y := Col(w, i), Row(w, i);
    ghost var V, A := vals[..], avail[..];
    ghost var cells: seq<nat> := [];
    n := 0;
    for c := 0 to nch
      invariant vals[..] == V && avail[..] == A
      invariant forall d :: 0 <= d < c ==> sums[d] == 0.0
    {
      sums[c] := 0.0;
    }
    GatherNone(A, V, nch, sums[..]);
    for yy := Lo(y) to Hi(y, h) + 1
      invariant vals[..] == V && avail[..] == A
      invariant cells == ScanRows(w, Lo(y), Lo(x), Hi(x, w) + 1 - Lo(x), yy - Lo(y))
      invariant Gathered(cells, A, V, nch, sums[..], n)
    {
      ghost var above := cells;
      assert cells == above + ScanRow(w, yy, Lo(x), 0);
      for xx := Lo(x) to Hi(x, w) + 1
        invariant vals[..] == V && avail[..] == A
        invariant cells == above + ScanRow(w, yy, Lo(x), xx - Lo(x))
        invariant Gathered(cells, A, V, nch, sums[..], n)
      {
        IndexCell(w, h, xx, yy);
        ScanMore(w, yy, Lo(x), xx - Lo(x));
        var j: nat := yy * w + xx;
        n := GatherCell(vals, avail, sums, nch, j, n, cells);
        cells := cells + [j];
      }
    }
    assert cells == Window(w, h, i);
    GatheredAll(A, V, w, h, nch, i, sums[..], n);
  }

  ghost predicate WindowSums(avail: seq<bool>, vals: seq<real>, w: nat, h: nat, nch: nat, i: nat, sums: seq<real>) {
    && |avail| == w * h && i < w * h && IsPlane(|vals|, |avail|, nch) && |sums| == nch
       && InRange(Window(w, h, i), w * h)
    && forall c :: 0 <= c < nch ==> sums[c] == SumAvail(Window(w, h, i), avail, vals, nch, c)
  }

  lemma {:induction false} GatheredAll(avail: seq<bool>, vals: seq<real>, w: nat, h: nat, nch: nat, i: nat,
                                       sums: seq<real>, n: nat)
    requires |avail| == w * h && i < w * h && Gathered(Window(w, h, i), avail, vals, nch, sums, n)
    ensures n == Neighbours(avail, w, h, i) && WindowSums(avail, vals, w, h, nch, i, sums)
  {
    hide IsPlane, SumAvail, CountAvail, Window;
  }

  lemma {:induction false} ScanMore(w: nat, y: nat, lo: nat, n: nat)
    ensures ScanRow(w, y, lo, n + 1) == ScanRow(w, y, lo, n) + [y * w + (lo + n)]
  {
  }

  lemma {:induction false} GatherNone(avail: seq<bool>, vals: seq<real>, nch: nat, sums: seq<real>)
    requires IsPlane(|vals|, |avail|, nch) && |sums| == nch && forall c :: 0 <= c < nch ==> sums[c] == 0.0
    ensures Gathered([], avail, vals, nch, sums, 0)
  {
  }

  ghost predicate Gathered(cells: seq<nat>, avail: seq<bool>, vals: seq<real>, nch: nat, sums: seq<real>, n: nat) {
    && InRange(cells, |avail|) && IsPlane(|vals|, |avail|, nch) && |sums| == nch
    && n == CountAvail(cells, avail)
    && forall c :: 0 <= c < nch ==> sums[c] == SumAvail(cells, avail, vals, nch, c)
  }

  lemma {:induction false} GatherOne(cells: seq<nat>, avail: seq<bool>, vals: seq<real>, nch: nat, S: seq<real>,
                                     sums: seq<real>, n: nat, j: nat)
    requires j < |avail| && |S| == |sums| == nch
    requires n > 0 || !avail[j]
    requires Gathered(cells, avail, vals, nch, S, if avail[j] then n - 1 else n)
    requires forall d :: 0 <= d < nch ==> sums[d] == S[d] + if avail[j] then Cell(vals, |avail|, nch, j, d) else 0.0
    ensures Gathered(cells + [j], avail, vals, nch, sums, n)
  {
    hide Cell, IsPlane;
    var more := cells + [j];
    assert more[..|more| - 1] == cells;
  }

  /** Store the means of every channel at cell `i`. */
  method StoreMeans(vals: array<real>, sums: array<real>, cells: nat, nch: nat, i: nat, n: nat)
    requires IsPlane(vals.Length, cells, nch) && sums.Length == nch && sums != vals && i < cells && n > 0
    modifies vals
    ensures forall j, c :: 0 <= j < cells && 0 <= c < nch ==>
              Cell(vals[..], cells, nch, j, c) == if j == i
                    then sums[c] / n as real else Cell(old(vals[..]), cells, nch, j, c)
  {
    hide IsPlane, Cell;
    for c := 0 to nch
      invariant sums[..] == old(sums[..])
      invariant forall j, d :: 0 <= j < cells && 0 <= d < nch ==>
                  Cell(vals[..], cells, nch, j, d) ==
                    if j == i && d < c then sums[d] / n as real else Cell(old(vals[..]), cells, nch, j, d)
    {
      Write(vals, cells, nch, i, c, sums[c] / n as real);
    }
  }

  /** One pass over the unfilled cells, in place: no cell it writes is one it reads, so the result is
      that of the double-buffered pass. */
  method Pass(vals: array<real>, avail: array<bool>, sums: array<real>, unfilled: seq<nat>, w: nat, h: nat, nch: nat)
    returns (newly: seq<nat>, next: seq<nat>)
    requires avail.Length == w * h && IsPlane(vals.Length, w * h, nch) && sums.Length == nch && sums != vals
    requires InRange(unfilled, w * h) && forall k :: 0 <= k < |unfilled| ==> !avail[unfilled[k]]
    requires forall k, l :: 0 <= k < l < |unfilled| ==> unfilled[k] != unfilled[l]
    modifies vals, sums
    ensures IsPass(old(vals[..]), avail[..], unfilled, vals[..], w, h, nch)
    ensures forall j: nat :: j in newly <==> j in unfilled && j < w * h && Neighbours(avail[..], w, h, j) > 0
    ensures forall j: nat :: j in next <==> j in unfilled && j < w * h && Neighbours(avail[..], w, h, j) == 0
    ensures forall k, l :: 0 <= k < l < |next| ==> next[k] != next[l]
    ensures newly == [] ==> next == unfilled
  {
    hide IsPlane, Cell, Window, Neighbours, Mean;
    ghost var V, A := vals[..], avail[..];
    newly, next := [], [];
    assert unfilled[..0] == [];
    for u := 0 to |unfilled|
      invariant avail[..] == A
      invariant IsPass(V, A, unfilled[..u], vals[..], w, h, nch)
      invariant forall j: nat :: j in newly <==> j in unfilled[..u] && j < w * h && Neighbours(A, w, h, j) > 0
      invariant forall j: nat :: j in next <==> j in unfilled[..u] && j < w * h && Neighbours(A, w, h, j) == 0
      invariant forall k, l :: 0 <= k < l < |next| ==> next[k] != next[l]
      invariant newly == [] ==> next == unfilled[..u]
    {
      var i := unfilled[u];
      ghost var before := vals[..];
      var n := GatherWindow(vals, avail, sums, w, h, nch, i);
      assert vals[..] == before && avail[..] == A;
      assert unfilled[..u + 1] == unfilled[..u] + [i];
      assert i !in unfilled[..u];
      if n > 0 {
        GatheredMeans(V, A, unfilled[..u], before, sums[..], w, h, nch, i, n);
        StoreMeans(vals, sums, w * h, nch, i, n);
        newly := newly + [i];
      } else {
        next := next + [i];
      }
    }
    assert unfilled[..|unfilled|] == unfilled;
  }

  /** Means taken over the partly updated plane are means over the plane before the pass. */
  lemma {:induction false} GatheredMeans(vals: seq<real>, avail: seq<bool>, done: seq<nat>, now: seq<real>,
                                         sums: seq<real>, w: nat, h: nat, nch: nat, i: nat, n: nat)
    requires IsPass(vals, avail, done, now, w, h, nch) && i < w * h && |sums| == nch
    requires n == Neighbours(avail, w, h, i) && n > 0
    requires forall k :: 0 <= k < |done| ==> !avail[done[k]]
    requires WindowSums(avail, now, w, h, nch, i, sums)
    ensures forall c :: 0 <= c < nch ==> sums[c] / n as real == Mean(avail, vals, w, h, nch, i, c)
  {
    hide IsPlane, Cell, Window;
    forall c | 0 <= c < nch ensures sums[c] / n as real == Mean(avail, vals, w, h, nch, i, c) {
      SumAgrees(Window(w, h, i), avail, vals, now, nch, c);
    }
  }

  // ---------------------------------------------------------------- layers

  /** Cells within `k` steps of a source, each step into a reach cell. */
  ghost function Ball(source: seq<bool>, reach: seq<bool>, w: nat, h: nat, k: nat): (b: seq<bool>)
    requires |source| == |reach| == w * h
    ensures |b| == w * h
  {
    if k == 0 then source
    else Grown(Ball(source, reach, w, h, k - 1), reach, w, h)
  }

  ghost function Grown(avail: seq<bool>, reach: seq<bool>, w: nat, h: nat): (b: seq<bool>)
    requires |avail| == |reach| == w * h
    ensures |b| == w * h
    ensures forall j :: 0 <= j < w * h ==> (b[j] <==> avail[j] || (reach[j] && Neighbours(avail, w, h, j) > 0))
  {
    seq(w * h, j requires 0 <= j < w * h
        && |avail| == |reach| == w * h => avail[j] || (reach[j] && Neighbours(avail, w, h, j) > 0))
  }

  /** A walk of at most `k` steps through reach cells from a source to `j`. */
  ghost predicate WithinSteps(source: seq<bool>, reach: seq<bool>, w: nat, k: nat, j: nat) {
    exists p: seq<nat> ::
          IsWalk(Eight, w, reach, p) && |p| <= k + 1 && p[|p| - 1] == j && p[0] < |source| && source[p[0]]
  }

  /** The ball of radius `k` is the set of cells at 8-connected distance at most `k` from the
      sources through the reach. */
  lemma {:induction false} BallIsDistance(source: seq<bool>, reach: seq<bool>, w: nat, h: nat, k: nat, j: nat)
    requires |source| == |reach| == w * h && j < w * h
    ensures Ball(source, reach, w, h, k)[j] <==> WithinSteps(source, reach, w, k, j)
    decreases k
  {
    hide Adjacent, Neighbours;
    if k == 0 {
      if source[j] { assert IsWalk(Eight, w, reach, [j]); }
    } else {
      var b := Ball(source, reach, w, h, k - 1);
      NeighboursPositive(b, w, h, j);
      if Ball(source, reach, w, h, k)[j] {
        BallWalk(source, reach, w, h, k, j);
      }
      if WithinSteps(source, reach, w, k, j) {
        WalkBall(source, reach, w, h, k, j);
      }
    }
  }

  /** A cell new in a ball is a reach cell beside the ball before. */
  lemma {:induction false} BallStep(source: seq<bool>, reach: seq<bool>, w: nat, h: nat, k: nat, j: nat)
    returns (i: nat)
    requires |source| == |reach| == w * h && j < w * h
    requires Ball(source, reach, w, h, k + 1)[j] && !Ball(source, reach, w, h, k)[j]
    ensures reach[j] && i < w * h && Ball(source, reach, w, h, k)[i] && Adjacent(Eight, w, i, j)
  {
    hide Adjacent, Neighbours;
    var b := Ball(source, reach, w, h, k);
    assert Ball(source, reach, w, h, k + 1) == Grown(b, reach, w, h);
    NeighboursPositive(b, w, h, j);
    i :| i < w * h && b[i] && Adjacent(Eight, w, j, i);
    AdjacentSymmetric(w, j, i);
  }

  lemma {:induction false} FewerSteps(source: seq<bool>, reach: seq<bool>, w: nat, k: nat, m: nat, j: nat)
    requires WithinSteps(source, reach, w, k, j) && k <= m
    ensures WithinSteps(source, reach, w, m, j)
  {
    hide IsWalk;
  }

  lemma {:induction false} BallWalk(source: seq<bool>, reach: seq<bool>, w: nat, h: nat, k: nat, j: nat)
    requires |source| == |reach| == w * h && j < w * h && k > 0
    requires Ball(source, reach, w, h, k)[j]
    ensures WithinSteps(source, reach, w, k, j)
    decreases k, 0
  {
    hide Adjacent, Neighbours, Ball, WithinSteps;
    if Ball(source, reach, w, h, k - 1)[j] {
      BallIsDistance(source, reach, w, h, k - 1, j);
      FewerSteps(source, reach, w, k - 1, k, j);
    } else {
      var i := BallStep(source, reach, w, h, k - 1, j);
      BallIsDistance(source, reach, w, h, k - 1, i);
      OneStepMore(source, reach, w, k - 1, i, j);
    }
  }

  lemma {:induction false} OneStepMore(source: seq<bool>, reach: seq<bool>, w: nat, k: nat, i: nat, j: nat)
    requires WithinSteps(source, reach, w, k, i) && CanStep(Eight, w, reach, i, j)
    ensures WithinSteps(source, reach, w, k + 1, j)
  {
    hide Adjacent, CanStep;
    var p: seq<nat> :| IsWalk(Eight, w, reach, p) && |p| <= k + 1 && p[|p| - 1] == i && p[0] < |source| && source[p[0]];
    var q := p + [j];
    forall l | 0 < l < |q| ensures CanStep(Eight, w, reach, q[l - 1], q[l]) {
      if l < |p| { assert CanStep(Eight, w, reach, p[l - 1], p[l]); }
    }
    assert IsWalk(Eight, w, reach, q) && q[|q| - 1] == j;
  }

  lemma {:induction false} WalkBall(source: seq<bool>, reach: seq<bool>, w: nat, h: nat, k: nat, j: nat)
    requires |source| == |reach| == w * h && j < w * h && k > 0
    requires WithinSteps(source, reach, w, k, j)
    ensures Ball(source, reach, w, h, k)[j]
    decreases k, 0
  {
    hide Ball, Neighbours;
    var i := LastStep(source, reach, w, k, j);
    hide WithinSteps;
    BallIsDistance(source, reach, w, h, k - 1, i);
    if i != j { NeighboursPositive(Ball(source, reach, w, h, k - 1), w, h, j); }
    BallGrows(source, reach, w, h, k, j);
  }

  /** Where a walk stands before its last step, or all along. */
  lemma {:induction false} LastStep(source: seq<bool>, reach: seq<bool>, w: nat, k: nat, j: nat) returns (i: nat)
    requires |source| == |reach| && j < |reach| && k > 0 && WithinSteps(source, reach, w, k, j)
    ensures i < |reach| && WithinSteps(source, reach, w, k - 1, i)
    ensures i == j || (Adjacent(Eight, w, j, i) && reach[j])
  {
    var p: seq<nat> :| IsWalk(Eight, w, reach, p) && |p| <= k + 1 && p[|p| - 1] == j && p[0] < |source| && source[p[0]];
    if |p| == 1 {
      i := j;
    } else {
      var q := WithoutLast(w, reach, p);
      i := q[|q| - 1];
      AdjacentSymmetric(w, i, j);
    }
  }

  lemma {:induction false} BallGrows(source: seq<bool>, reach: seq<bool>, w: nat, h: nat, k: nat, j: nat)
    requires |source| == |reach| == w * h && j < w * h && k > 0
    requires var b := Ball(source, reach, w, h, k - 1); b[j] || (reach[j] && Neighbours(b, w, h, j) > 0)
    ensures Ball(source, reach, w, h, k)[j]
  {
    hide Neighbours;
  }

  /** A walk of two cells or more, without its last. */
  lemma {:induction false} WithoutLast(w: nat, reach: seq<bool>, p: seq<nat>) returns (q: seq<nat>)
    requires IsWalk(Eight, w, reach, p) && |p| > 1
    ensures IsWalk(Eight, w, reach, q) && |q| == |p| - 1 && q[0] == p[0] && q[|q| - 1] < |reach|
    ensures Adjacent(Eight, w, q[|q| - 1], p[|p| - 1]) && p[|p| - 1] < |reach| && reach[p[|p| - 1]]
  {
    hide Adjacent;
    var n := |p| - 1;
    q := p[..n];
    forall l | 0 < l < |q| ensures CanStep(Eight, w, reach, q[l - 1], q[l]) {
      assert CanStep(Eight, w, reach, p[l - 1], p[l]);
    }
    assert CanStep(Eight, w, reach, p[n - 1], p[n]);
    if n > 1 { assert CanStep(Eight, w, reach, p[n - 2], p[n - 1]); }
  }

  lemma {:induction false} AdjacentSymmetric(w: nat, i: nat, j: nat)
    requires Adjacent(Eight, w, i, j)
    ensures Adjacent(Eight, w, j, i)
  {
  }

  /** Once no layer is added, none ever is. */
  lemma {:induction false} BallStable(source: seq<bool>, reach: seq<bool>, w: nat, h: nat, k: nat, m: nat)
    requires |source| == |reach| == w * h && k <= m
    requires Ball(source, reach, w, h, k + 1) == Ball(source, reach, w, h, k)
    ensures Ball(source, reach, w, h, m) == Ball(source, reach, w, h, k)
    decreases m
  {
    hide Neighbours;
    if k < m {
      BallStable(source, reach, w, h, k, m - 1);
    }
  }

  /** One layer: every reach cell outside the ball of radius `k` that touches it takes the mean of
      its neighbours in the ball; nothing else changes. */
  ghost predicate IsLayer(source: seq<bool>, reach: seq<bool>, w: nat, h: nat, nch: nat, k: nat, vals: seq<real>,
                          vals': seq<real>) {
    && |source| == |reach| == w * h && IsPlane(|vals|, w * h, nch) && IsPlane(|vals'|, w * h, nch)
    && var avail := Ball(source, reach, w, h, k);
       forall j, c :: 0 <= j < w * h && 0 <= c < nch ==>
         Cell(vals', w * h, nch, j, c) ==
           if reach[j] && !avail[j] && Neighbours(avail, w, h, j) > 0 then Mean(avail, vals, w, h, nch, j, c)
           else Cell(vals, w * h, nch, j, c)
  }

  /** The successive planes of the local passes, from the raw plane on. */
  ghost predicate AreLayers(source: seq<bool>, reach: seq<bool>, w: nat, h: nat, nch: nat, vals: seq<real>,
                            layers: seq<seq<real>>) {
    && 0 < |layers| <= FILL_LOCAL_LAYERS + 1 && layers[0] == vals
    && forall k :: 0 <= k < |layers| - 1 ==> IsLayer(source, reach, w, h, nch, k, layers[k], layers[k + 1])
  }

  // ---------------------------------------------------------------- the whole fill

  /** Values of a channel over the source cells, in cell order. */
  function SourceValues(vals: seq<real>, source: seq<bool>, n: nat, base: nat): seq<real>
    requires n <= |source| && base + |source| <= |vals|
  {
    if n == 0 then [] else SourceValues(vals, source, n - 1, base) + if source[n - 1] then [vals[base + n - 1]] else []
  }

  function Deviations(s: seq<real>, med: real): (r: seq<real>)
    ensures |r| == |s|
  {
    if s == [] then []
    else
      var v := s[|s| - 1];
      Deviations(s[..|s| - 1], med) + [if v < med then med - v else v - med]
  }

  /** Values above this do not propagate past the local layers: the median of the sources plus a
      multiple of their median deviation. */
  function BrightBound(sources: seq<real>): real
    requires sources != []
  {
    var med := Order.UpperMedian(sources);
    var mad := Order.UpperMedian(Deviations(sources, med));
    med + ANCHOR_MAD_K * (if mad < MAD_FLOOR then MAD_FLOOR else mad)
  }

  ghost predicate Within(vals: seq<real>, n: nat, nch: nat, j: int, lo: seq<real>, hi: seq<real>)
    requires IsPlane(|vals|, n, nch) && 0 <= j < n && |lo| == |hi| == nch
  {
    forall c :: 0 <= c < nch ==> lo[c] <= Cell(vals, n, nch, j, c) <= hi[c]
  }

  ghost predicate SameAt(vals: seq<real>, vals': seq<real>, n: nat, nch: nat, j: int)
    requires IsPlane(|vals|, n, nch) && IsPlane(|vals'|, n, nch) && 0 <= j < n
  {
    forall c :: 0 <= c < nch ==> Cell(vals', n, nch, j, c) == Cell(vals, n, nch, j, c)
  }

  /** What holds of the plane at every moment: cells that need no filling keep their values, available
      cells are within the bounds, every other cell is untouched or within them. */
  ghost predicate Sane(source: seq<bool>, reach: seq<bool>, raw: seq<real>, vals: seq<real>, avail: seq<bool>,
                       n: nat, nch: nat, lo: seq<real>, hi: seq<real>) {
    && |source| == |reach| == |avail| == n && |lo| == |hi| == nch
    && IsPlane(|raw|, n, nch) && IsPlane(|vals|, n, nch)
    && forall j :: 0 <= j < n ==>
         && (source[j] || !reach[j] ==> SameAt(raw, vals, n, nch, j))
         && (avail[j] ==> Within(vals, n, nch, j, lo, hi))
         && (SameAt(raw, vals, n, nch, j) || Within(vals, n, nch, j, lo, hi))
  }

  ghost predicate Pending(unfilled: seq<nat>, source: seq<bool>, reach: seq<bool>, avail: seq<bool>) {
    && |source| == |reach| == |avail|
    && InRange(unfilled, |avail|)
    && (forall k, l :: 0 <= k < l < |unfilled| ==> unfilled[k] != unfilled[l])
    && (forall k :: 0 <= k < |unfilled| ==> !avail[unfilled[k]] && reach[unfilled[k]] && !source[unfilled[k]])
  }

  lemma {:induction false} PassSane(source: seq<bool>, reach: seq<bool>, raw: seq<real>, vals: seq<real>,
                                    avail: seq<bool>, w: nat, h: nat, nch: nat, lo: seq<real>, hi: seq<real>,
                                    unfilled: seq<nat>, vals': seq<real>, avail': seq<bool>)
    requires Sane(source, reach, raw, vals, avail, w * h, nch, lo, hi) && Pending(unfilled, source, reach, avail)
    requires IsPass(vals, avail, unfilled, vals', w, h, nch)
    requires |avail'| == w * h
    requires forall j :: 0 <= j < w * h ==>
               (avail'[j] <==> avail[j] || (j in unfilled && Neighbours(avail, w, h, j) > 0))
    ensures Sane(source, reach, raw, vals', avail', w * h, nch, lo, hi)
  {
    hide Cell, IsPlane, Neighbours, Mean;
    forall j, c | 0 <= j < w * h && 0 <= c < nch && j in unfilled && Neighbours(avail, w, h, j) > 0
      ensures lo[c] <= Mean(avail, vals, w, h, nch, j, c) <= hi[c]
    {
      MeanBounds(avail, vals, w, h, nch, j, c, lo[c], hi[c]);
    }
    forall j | 0 <= j < w * h
      ensures j in unfilled && Neighbours(avail, w, h, j) > 0 ==> Within(vals', w * h, nch, j, lo, hi)
      ensures !(j in unfilled && Neighbours(avail, w, h, j) > 0) ==> SameAt(vals, vals', w * h, nch, j)
    {
    }
    assert forall j :: 0 <= j < w * h && j in unfilled ==> reach[j] && !source[j];
  }

  lemma {:induction false} PassIsLayer(source: seq<bool>, reach: seq<bool>, vals: seq<real>, w: nat, h: nat, nch: nat,
                                       k: nat, unfilled: seq<nat>, vals': seq<real>)
    requires |source| == |reach| == w * h
    requires IsPass(vals, Ball(source, reach, w, h, k), unfilled, vals', w, h, nch)
    requires forall j: nat :: j in unfilled <==> j < w * h && reach[j] && !Ball(source, reach, w, h, k)[j]
    ensures IsLayer(source, reach, w, h, nch, k, vals, vals')
  {
    hide Cell, IsPlane, Neighbours, Mean;
  }

  /** Drop the available cells that are too bright in some channel. */
  method CutBright(vals: array<real>, avail: array<bool>, bounds: seq<real>, n: nat, nch: nat)
    requires IsPlane(vals.Length, n, nch) && avail.Length == n && |bounds| == nch
    modifies avail
    ensures forall j :: 0 <= j < n ==> (avail[j] <==> old(avail[j]) && !IsBright(vals[..], bounds, n, nch, j))
  {
    hide IsPlane, Cell;
    for i := 0 to n
      invariant forall j :: 0 <= j < n ==>
                  (avail[j] <==> old(avail[j]) && (j < i ==> !IsBright(vals[..], bounds, n, nch, j)))
    {
      var bright := false;
      ghost var A := avail[..];
      for c := 0 to nch
        invariant avail[..] == A
        invariant bright <==> exists d :: 0 <= d < c && Cell(vals[..], n, nch, i, d) > bounds[d]
      {
        var v := Read(vals, n, nch, i, c);
        if v > bounds[c] {
          bright := true;
        }
      }
      assert bright <==> IsBright(vals[..], bounds, n, nch, i);
      if avail[i] && bright {
        avail[i] := false;
      }
    }
  }

  ghost predicate IsBright(vals: seq<real>, bounds: seq<real>, n: nat, nch: nat, j: int)
    requires IsPlane(|vals|, n, nch) && 0 <= j < n && |bounds| == nch
  {
    exists d :: 0 <= d < nch && Cell(vals, n, nch, j, d) > bounds[d]
  }

  /** The state at the head of a round. Up to the last local round the plane is the next layer and
      the available cells are the ball; afterwards the ball's values are final. */
  ghost predicate AtRound(round: nat, source: seq<bool>, reach: seq<bool>, w: nat, h: nat, nch: nat,
                          layers: seq<seq<real>>, vals: seq<real>, avail: seq<bool>, unfilled: seq<nat>) {
    && |source| == |reach| == |avail| == w * h && Pending(unfilled, source, reach, avail) && IsPlane(|vals|, w * h, nch)
    && if round <= FILL_LOCAL_LAYERS then
         && |layers| == round + 1 && layers[round] == vals
         && avail == Ball(source, reach, w, h, round)
         && forall j: nat :: j in unfilled <==> j < w * h && reach[j] && !avail[j]
       else
         && |layers| == FILL_LOCAL_LAYERS + 1 && IsPlane(|layers[FILL_LOCAL_LAYERS]|, w * h, nch)
         && (forall j: nat :: j in unfilled ==> j < w * h && !Ball(source, reach, w, h, FILL_LOCAL_LAYERS)[j])
         && (forall j :: 0 <= j < w * h && Ball(source, reach, w, h, FILL_LOCAL_LAYERS)[j] ==>
               SameAt(layers[FILL_LOCAL_LAYERS], vals, w * h, nch, j))
  }

  /** The finished plane agrees with the last layer on every cell within the local radius. */
  ghost predicate LocalResult(source: seq<bool>, reach: seq<bool>, w: nat, h: nat, nch: nat, layers: seq<seq<real>>,
                              vals: seq<real>) {
    && |source| == |reach| == w * h && 0 < |layers| && IsPlane(|vals|, w * h, nch)
    && IsPlane(|layers[|layers| - 1]|, w * h, nch)
    && Ball(source, reach, w, h, FILL_LOCAL_LAYERS) == Ball(source, reach, w, h, |layers| - 1)
    && forall j :: 0 <= j < w * h && Ball(source, reach, w, h, FILL_LOCAL_LAYERS)[j] ==>
         SameAt(layers[|layers| - 1], vals, w * h, nch, j)
  }

  // ---------------------------------------------------------------- the rounds one by one

  /** The plane at the head of a round, the cells that may be averaged from, the cells still to fill. */
  datatype Front = Front(vals: seq<real>, avail: seq<bool>, open: set<nat>)

  ghost function Open(unfilled: seq<nat>): set<nat> {
    set j | j in unfilled
  }

  /** The cells a round averages from: past the local layers, only those that are not too bright. */
  ghost function Spreading(f: Front, round: nat, bounds: seq<real>, n: nat, nch: nat): (r: seq<bool>)
    requires |f.avail| == n && IsPlane(|f.vals|, n, nch) && |bounds| == nch
    ensures |r| == n
  {
    seq(n, j requires 0 <= j < n && |f.avail| == n && IsPlane(|f.vals|, n, nch) && |bounds| == nch =>
      f.avail[j] && (round == FILL_LOCAL_LAYERS ==> !IsBright(f.vals, bounds, n, nch, j)))
  }

  /** Every cell still to fill that touches a spreading cell is filled, with the means of the spreading
      cells around it; nothing else changes. */
  ghost predicate IsAdvance(f: Front, spreading: seq<bool>, f': Front, w: nat, h: nat, nch: nat) {
    && |spreading| == |f'.avail| == w * h && IsPlane(|f.vals|, w * h, nch) && IsPlane(|f'.vals|, w * h, nch)
    && (forall j: nat :: j < w * h ==>
          (f'.avail[j] <==> spreading[j] || (j in f.open && Neighbours(spreading, w, h, j) > 0)))
    && (forall j: nat :: j in f'.open <==> j in f.open && j < w * h && Neighbours(spreading, w, h, j) == 0)
    && (forall j, c :: 0 <= j < w * h && 0 <= c < nch ==>
          Cell(f'.vals, w * h, nch, j, c) ==
            if j in f.open && Neighbours(spreading, w, h, j) > 0 then Mean(spreading, f.vals, w, h, nch, j, c)
            else Cell(f.vals, w * h, nch, j, c))
  }

  ghost predicate IsStep(f: Front, f': Front, round: nat, bounds: seq<real>, w: nat, h: nat, nch: nat) {
    && |f.avail| == w * h && IsPlane(|f.vals|, w * h, nch) && |bounds| == nch
    && IsAdvance(f, Spreading(f, round, bounds, w * h, nch), f', w, h, nch)
  }

  /** The fronts of the rounds from the first on. A round that fills nothing is the last. */
  ghost predicate IsTrace(trace: seq<Front>, bounds: seq<real>, w: nat, h: nat, nch: nat) {
    && 0 < |trace| <= MAX_ROUNDS + 1
    && (forall k :: 0 <= k < |trace| - 1 ==>
          IsStep(trace[k], trace[k + 1], k, bounds, w, h, nch) && trace[k].open != {})
    && (forall k :: 0 <= k < |trace| - 2 ==> trace[k + 1].open != trace[k].open)
  }

  /** Why no further round runs: none allowed, nothing left to fill, or nothing filled by the last. */
  ghost predicate IsOver(trace: seq<Front>) {
    && 0 < |trace|
    && (|trace| == MAX_ROUNDS + 1 || trace[|trace| - 1].open == {}
        || (2 <= |trace| && trace[|trace| - 1].open == trace[|trace| - 2].open))
  }

  lemma {:induction false} PassIsStep(round: nat, bounds: seq<real>, vals: seq<real>, avail0: seq<bool>,
                                      avail: seq<bool>, unfilled: seq<nat>, vals': seq<real>, avail': seq<bool>,
                                      next: seq<nat>, w: nat, h: nat, nch: nat)
    requires IsPass(vals, avail, unfilled, vals', w, h, nch) && |avail0| == |avail'| == w * h && |bounds| == nch
    requires forall j :: 0 <= j < w * h ==>
               (avail[j] <==> avail0[j] && (round == FILL_LOCAL_LAYERS ==> !IsBright(vals, bounds, w * h, nch, j)))
    requires forall j :: 0 <= j < w * h ==>
               (avail'[j] <==> avail[j] || (j in unfilled && Neighbours(avail, w, h, j) > 0))
    requires forall j: nat :: j in next <==> j in unfilled && j < w * h && Neighbours(avail, w, h, j) == 0
    ensures IsStep(Front(vals, avail0, Open(unfilled)), Front(vals', avail', Open(next)), round, bounds, w, h, nch)
  {
    hide Cell, IsPlane, Neighbours, Mean, IsBright;
    assert Spreading(Front(vals, avail0, Open(unfilled)), round, bounds, w * h, nch) == avail;
  }

  lemma {:induction false} TraceGrows(trace: seq<Front>, f: Front, bounds: seq<real>, w: nat, h: nat, nch: nat)
    requires IsTrace(trace, bounds, w, h, nch) && |trace| <= MAX_ROUNDS && !IsOver(trace)
    requires IsStep(trace[|trace| - 1], f, |trace| - 1, bounds, w, h, nch)
    ensures IsTrace(trace + [f], bounds, w, h, nch)
  {
    hide IsStep;
    var t := trace + [f];
    forall k | 0 <= k < |t| - 1 ensures IsStep(t[k], t[k + 1], k, bounds, w, h, nch) {
      if k == |trace| - 1 { assert t[k + 1] == f; }
    }
  }

  lemma {:induction false} CutSane(source: seq<bool>, reach: seq<bool>, raw: seq<real>, vals: seq<real>,
                                   avail: seq<bool>, avail': seq<bool>, n: nat, nch: nat, lo: seq<real>, hi: seq<real>)
    requires Sane(source, reach, raw, vals, avail, n, nch, lo, hi) && |avail'| == n
    requires forall j :: 0 <= j < n && avail'[j] ==> avail[j]
    ensures Sane(source, reach, raw, vals, avail', n, nch, lo, hi)
  {
    hide SameAt, Within;
  }

  /** The head of a round beyond the local layers, or with nothing left to fill, is the result. */
  lemma {:induction false} HeadResult(round: nat, source: seq<bool>, reach: seq<bool>, w: nat, h: nat, nch: nat,
                                      layers: seq<seq<real>>, vals: seq<real>, avail: seq<bool>, unfilled: seq<nat>)
    requires AtRound(round, source, reach, w, h, nch, layers, vals, avail, unfilled)
    requires unfilled == [] || round > FILL_LOCAL_LAYERS
    ensures LocalResult(source, reach, w, h, nch, layers, vals)
  {
    hide IsPlane, Cell, Neighbours, Pending;
    if round <= FILL_LOCAL_LAYERS {
      assert Ball(source, reach, w, h, round + 1) == Ball(source, reach, w, h, round);
      BallStable(source, reach, w, h, round, FILL_LOCAL_LAYERS);
    }
  }

  /** A pass at the head of a local round adds the next layer, or nothing at all. */
  lemma {:induction false} LocalRound(round: nat, source: seq<bool>, reach: seq<bool>, w: nat, h: nat, nch: nat,
                                      layers: seq<seq<real>>, vals: seq<real>, avail: seq<bool>, unfilled: seq<nat>,
                                      vals': seq<real>, avail': seq<bool>, next: seq<nat>)
    requires AtRound(round, source, reach, w, h, nch, layers, vals, avail, unfilled) && round < FILL_LOCAL_LAYERS
    requires IsPass(vals, avail, unfilled, vals', w, h, nch) && Pending(next, source, reach, avail')
    requires |avail'| == w * h
    requires forall j :: 0 <= j < w * h ==>
               (avail'[j] <==> avail[j] || (j in unfilled && Neighbours(avail, w, h, j) > 0))
    requires forall j: nat :: j in next <==> j in unfilled && j < w * h && Neighbours(avail, w, h, j) == 0
    ensures |layers| == round + 1 && layers[round] == vals && IsLayer(source, reach, w, h, nch, round, vals, vals')
    ensures AtRound(round + 1, source, reach, w, h, nch, layers + [vals'], vals', avail', next)
    ensures avail' == avail ==> LocalResult(source, reach, w, h, nch, layers, vals')
  {
    hide IsPlane, Cell, Neighbours, Mean, Pending;
    PassIsLayer(source, reach, vals, w, h, nch, round, unfilled, vals');
    assert avail' == Ball(source, reach, w, h, round + 1);
    if avail' == avail {
      BallStable(source, reach, w, h, round, FILL_LOCAL_LAYERS);
    }
  }

  /** A pass at the head of a later round leaves the ball's values alone. */
  lemma {:induction false} LateRound(round: nat, source: seq<bool>, reach: seq<bool>, w: nat, h: nat, nch: nat,
                                     layers: seq<seq<real>>, vals: seq<real>, avail0: seq<bool>, unfilled: seq<nat>,
                                     avail: seq<bool>, vals': seq<real>, avail': seq<bool>, next: seq<nat>)
    requires AtRound(round, source, reach, w, h, nch, layers, vals, avail0, unfilled) && round >= FILL_LOCAL_LAYERS
    requires IsPass(vals, avail, unfilled, vals', w, h, nch) && Pending(next, source, reach, avail')
    requires |avail'| == w * h && forall j: nat :: j in next ==> j in unfilled
    ensures AtRound(round + 1, source, reach, w, h, nch, layers, vals', avail', next)
    ensures LocalResult(source, reach, w, h, nch, layers, vals')
  {
    hide IsPlane, Cell, Neighbours, Mean, Pending;
    var b := Ball(source, reach, w, h, FILL_LOCAL_LAYERS);
    forall j | 0 <= j < w * h && b[j] ensures SameAt(layers[FILL_LOCAL_LAYERS], vals', w * h, nch, j) {
      assert j !in unfilled;
      assert SameAt(layers[FILL_LOCAL_LAYERS], vals, w * h, nch, j);
    }
  }

  lemma {:induction false} RoundPending(round: nat, source: seq<bool>, reach: seq<bool>, w: nat, h: nat, nch: nat,
                                        layers: seq<seq<real>>, vals: seq<real>, avail: seq<bool>, unfilled: seq<nat>)
    requires AtRound(round, source, reach, w, h, nch, layers, vals, avail, unfilled)
    ensures Pending(unfilled, source, reach, avail) && |avail| == w * h
  {
  }

  lemma {:induction false} PendingParts(unfilled: seq<nat>, source: seq<bool>, reach: seq<bool>, avail: seq<bool>)
    requires Pending(unfilled, source, reach, avail)
    ensures |source| == |reach| == |avail| && InRange(unfilled, |avail|)
    ensures forall k, l :: 0 <= k < l < |unfilled| ==> unfilled[k] != unfilled[l]
    ensures forall k :: 0 <= k < |unfilled| ==> !avail[unfilled[k]] && reach[unfilled[k]] && !source[unfilled[k]]
  {
  }

  /** What stays unfilled after a pass is still pending. */
  lemma {:induction false} StillPending(unfilled: seq<nat>, source: seq<bool>, reach: seq<bool>, avail: seq<bool>,
                                        next: seq<nat>, avail': seq<bool>)
    requires Pending(unfilled, source, reach, avail) && |avail'| == |avail|
    requires forall j: nat :: j in next ==> j in unfilled && j < |avail| && (avail'[j] ==> avail[j])
    requires forall k, l :: 0 <= k < l < |next| ==> next[k] != next[l]
    ensures Pending(next, source, reach, avail')
  {
    forall k | 0 <= k < |next| ensures next[k] < |avail| && !avail'[next[k]] && reach[next[k]] && !source[next[k]] {
      assert next[k] in next;
      var l :| 0 <= l < |unfilled| && unfilled[l] == next[k];
    }
  }

  /** Every filled cell of the reach is within the bounds. */
  ghost predicate FilledWithin(source: seq<bool>, reach: seq<bool>, vals: seq<real>, open: set<nat>,
                               n: nat, nch: nat, lo: seq<real>, hi: seq<real>) {
    && |source| == |reach| == n && IsPlane(|vals|, n, nch) && |lo| == |hi| == nch
    && forall j: nat :: j < n && reach[j] && !source[j] && j !in open ==> Within(vals, n, nch, j, lo, hi)
  }

  lemma {:induction false} PassFills(source: seq<bool>, reach: seq<bool>, raw: seq<real>, vals: seq<real>,
                                     avail: seq<bool>, w: nat, h: nat, nch: nat, lo: seq<real>, hi: seq<real>,
                                     unfilled: seq<nat>, vals': seq<real>, avail': seq<bool>, next: seq<nat>)
    requires FilledWithin(source, reach, vals, Open(unfilled), w * h, nch, lo, hi)
    requires IsPass(vals, avail, unfilled, vals', w, h, nch)
             && Sane(source, reach, raw, vals', avail', w * h, nch, lo, hi)
    requires forall j: nat :: j < w * h && j in unfilled && Neighbours(avail, w, h, j) > 0 ==> avail'[j]
    requires forall j: nat :: j in next <==> j in unfilled && j < w * h && Neighbours(avail, w, h, j) == 0
    ensures FilledWithin(source, reach, vals', Open(next), w * h, nch, lo, hi)
  {
    hide IsPlane, Cell, Neighbours, Mean, SameAt;
    forall j: nat | j < w * h && reach[j] && !source[j] && j !in Open(next)
      ensures Within(vals', w * h, nch, j, lo, hi)
    {
      if j !in unfilled {
        assert j !in Open(unfilled);
        assert Within(vals, w * h, nch, j, lo, hi);
      }
    }
  }

  /** Make the newly filled cells available. */
  method MarkAvailable(avail: array<bool>, newly: seq<nat>)
    requires InRange(newly, avail.Length)
    modifies avail
    ensures forall j: nat :: j < avail.Length ==> (avail[j] <==> old(avail[j]) || j in newly)
  {
    assert newly[..0] == [];
    for k := 0 to |newly|
      invariant forall j: nat :: j < avail.Length ==> (avail[j] <==> old(avail[j]) || j in newly[..k])
    {
      avail[newly[k]] := true;
      assert newly[..k + 1] == newly[..k] + [newly[k]];
    }
    assert newly[..|newly|] == newly;
  }

  /** One round: at the end of the local layers the bright cells stop propagating; then one pass runs
      and its newly filled cells become available. */
  method Round(vals: array<real>, avail: array<bool>, sums: array<real>, unfilled: seq<nat>, bounds: seq<real>,
               round: nat, w: nat, h: nat, nch: nat, ghost source: seq<bool>, ghost reach: seq<bool>,
               ghost raw: seq<real>, ghost lo: seq<real>, ghost hi: seq<real>, ghost layers: seq<seq<real>>)
    returns (next: seq<nat>, stuck: bool, ghost layers': seq<seq<real>>)
    requires IsPlane(vals.Length, w * h, nch) && avail.Length == w * h && sums.Length == nch && |bounds| == nch
             && sums != vals
    requires AtRound(round, source, reach, w, h, nch, layers, vals[..], avail[..], unfilled)
    requires AreLayers(source, reach, w, h, nch, raw, layers)
    requires Sane(source, reach, raw, vals[..], avail[..], w * h, nch, lo, hi)
    requires FilledWithin(source, reach, vals[..], Open(unfilled), w * h, nch, lo, hi)
    modifies vals, avail, sums
    ensures Sane(source, reach, raw, vals[..], avail[..], w * h, nch, lo, hi)
    ensures FilledWithin(source, reach, vals[..], Open(next), w * h, nch, lo, hi)
    ensures AreLayers(source, reach, w, h, nch, raw, layers')
    ensures !stuck ==> AtRound(round + 1, source, reach, w, h, nch, layers', vals[..], avail[..], next)
    ensures IsStep(Front(old(vals[..]), old(avail[..]), Open(unfilled)), Front(vals[..], avail[..], Open(next)), round,
                   bounds, w, h, nch)
    ensures stuck <==> Open(next) == Open(unfilled)
    ensures stuck ==> LocalResult(source, reach, w, h, nch, layers', vals[..])
  {
    hide IsPlane, Cell, Neighbours, Mean, AreLayers, AtRound, Sane, Pending, IsLayer, LocalResult, IsPass, Ball,
         IsBright, IsStep, FilledWithin;
    ghost var V, A0 := vals[..], avail[..];
    RoundPending(round, source, reach, w, h, nch, layers, V, A0, unfilled);
    PendingParts(unfilled, source, reach, A0);
    if round == FILL_LOCAL_LAYERS {
      CutBright(vals, avail, bounds, w * h, nch);
      assert vals[..] == V;
      CutSane(source, reach, raw, V, A0, avail[..], w * h, nch, lo, hi);
    }
    ghost var A := avail[..];
    forall j | j in unfilled ensures j < |A| && (A[j] ==> A0[j]) { var k :| 0 <= k < |unfilled| && unfilled[k] == j; }
    StillPending(unfilled, source, reach, A0, unfilled, A);
    PendingParts(unfilled, source, reach, A);
    var newly;
    newly, next := Pass(vals, avail, sums, unfilled, w, h, nch);
    assert avail[..] == A;
    ghost var P := vals[..];
    NewlyInRange(newly, w * h);
    MarkAvailable(avail, newly);
    assert vals[..] == P;
    ghost var B := avail[..];
    StillPending(unfilled, source, reach, A, next, B);
    PassSane(source, reach, raw, V, A, w, h, nch, lo, hi, unfilled, P, B);
    PassFills(source, reach, raw, V, A, w, h, nch, lo, hi, unfilled, P, B, next);
    PassIsStep(round, bounds, V, A0, A, unfilled, P, B, next, w, h, nch);
    stuck := newly == [];
    if !stuck { assert newly[0] in newly && newly[0] in Open(unfilled) && newly[0] !in Open(next); }
    layers' := layers;
    if round < FILL_LOCAL_LAYERS {
      LocalRound(round, source, reach, w, h, nch, layers, V, A, unfilled, P, B, next);
      if stuck {
        assert B == A;
      } else {
        layers' := layers + [P];
        MoreLayers(source, reach, w, h, nch, raw, layers, round, V, P);
      }
    } else {
      LateRound(round, source, reach, w, h, nch, layers, V, A0, unfilled, A, P, B, next);
    }
  }

  lemma {:induction false} NewlyInRange(newly: seq<nat>, n: nat)
    requires forall j: nat :: j in newly ==> j < n
    ensures InRange(newly, n)
  {
    forall k | 0 <= k < |newly| ensures newly[k] < n { assert newly[k] in newly; }
  }

  lemma {:induction false} MoreLayers(source: seq<bool>, reach: seq<bool>, w: nat, h: nat, nch: nat, raw: seq<real>,
                                      layers: seq<seq<real>>, round: nat, vals: seq<real>, vals': seq<real>)
    requires AreLayers(source, reach, w, h, nch, raw, layers) && round < FILL_LOCAL_LAYERS
    requires |layers| == round + 1 && layers[round] == vals && IsLayer(source, reach, w, h, nch, round, vals, vals')
    ensures AreLayers(source, reach, w, h, nch, raw, layers + [vals'])
  {
    hide IsLayer;
  }

  // ---------------------------------------------------------------- reach

  ghost predicate HasNear(prev: seq<bool>, w: nat, h: nat, i: nat)
    requires |prev| == w * h
  {
    exists j: nat :: j < w * h && prev[j] && Adjacent(Eight, w, i, j)
  }

  lemma {:induction false} CountMore(cells: seq<nat>, avail: seq<bool>, j: nat)
    requires InRange(cells, |avail|) && j < |avail|
    ensures InRange(cells + [j], |avail|)
    ensures CountAvail(cells + [j], avail) == CountAvail(cells, avail) + if avail[j] then 1 else 0
  {
    assert (cells + [j])[..|cells|] == cells;
  }

  /** Whether the window around `i` holds a set cell. */
  method AnyNear(prev: seq<bool>, w: nat, h: nat, i: nat) returns (near: bool)
    requires |prev| == w * h && i < w * h
    ensures near <==> HasNear(prev, w, h, i)
  {
    hide Col, Row, Adjacent, CountAvail;
    CellRange(w, h, i);
    var x, y := Col(w, i), Row(w, i);
    ghost var cells: seq<nat> := [];
    near := false;
    assert CountAvail([], prev) == 0 by { CountNone(prev); }
    for yy := Lo(y) to Hi(y, h) + 1
      invariant cells == ScanRows(w, Lo(y), Lo(x), Hi(x, w) + 1 - Lo(x), yy - Lo(y))
      invariant InRange(cells, |prev|) && (near <==> CountAvail(cells, prev) > 0)
    {
      ghost var above := cells;
      assert cells == above + ScanRow(w, yy, Lo(x), 0);
      for xx := Lo(x) to Hi(x, w) + 1
        invariant cells == above + ScanRow(w, yy, Lo(x), xx - Lo(x))
        invariant InRange(cells, |prev|) && (near <==> CountAvail(cells, prev) > 0)
      {
        IndexCell(w, h, xx, yy);
        ScanMore(w, yy, Lo(x), xx - Lo(x));
        var j: nat := yy * w + xx;
        CountMore(cells, prev, j);
        if prev[j] {
          near := true;
        }
        cells := cells + [j];
      }
    }
    assert cells == Window(w, h, i);
    NeighboursPositive(prev, w, h, i);
  }

  lemma {:induction false} CountNone(avail: seq<bool>)
    ensures CountAvail([], avail) == 0
  {
  }

  /** Set every cell with a set cell in its window, reading from a copy. */
  method Dilate(reach: array<bool>, w: nat, h: nat)
    requires reach.Length == w * h
    modifies reach
    ensures forall i: nat :: i < w * h ==> (reach[i] <==> HasNear(old(reach[..]), w, h, i))
  {
    hide HasNear;
    var prev := reach[..];
    for i := 0 to w * h
      invariant forall j: nat :: j < w * h && j >= i ==> reach[j] == prev[j]
      invariant forall j: nat :: j < i ==> (reach[j] <==> HasNear(prev, w, h, j))
    {
      if prev[i] {
        NearSelf(prev, w, h, i);
      } else {
        var near := AnyNear(prev, w, h, i);
        if near {
          reach[i] := true;
        }
      }
    }
  }

  lemma {:induction false} NearSelf(prev: seq<bool>, w: nat, h: nat, i: nat)
    requires |prev| == w * h && i < w * h && prev[i]
    ensures HasNear(prev, w, h, i)
  {
    CellRange(w, h, i);
    assert Adjacent(Eight, w, i, i);
  }

  /** Within two columns and two rows. */
  ghost predicate TwoApart(w: nat, i: nat, j: nat) {
    && w > 0
    && -2 <= Col(w, i) - Col(w, j) <= 2 && -2 <= Row(w, i) - Row(w, j) <= 2
  }

  function Toward(a: nat, b: nat): nat {
    if a < b then a + 1 else if b < a then a - 1 else a
  }

  lemma {:induction false} NearTwice(w: nat, i: nat, k: nat, j: nat)
    requires Adjacent(Eight, w, i, k) && Adjacent(Eight, w, k, j)
    ensures TwoApart(w, i, j)
  {
    hide Col, Row;
  }

  /** A cell between two cells that are two apart. */
  lemma {:induction false} Between(w: nat, h: nat, i: nat, j: nat) returns (k: nat)
    requires i < w * h && j < w * h && TwoApart(w, i, j)
    ensures k < w * h && Adjacent(Eight, w, i, k) && Adjacent(Eight, w, k, j)
  {
    CellRange(w, h, i);
    CellRange(w, h, j);
    var x, y := Toward(Col(w, i), Col(w, j)), Toward(Row(w, i), Row(w, j));
    IndexCell(w, h, x, y);
    k := y * w + x;
    hide Col, Row;
  }

  /** Two dilations reach exactly the cells within two columns and rows. */
  lemma {:induction false} TwiceNear(base: seq<bool>, once: seq<bool>, w: nat, h: nat, i: nat)
    requires |base| == |once| == w * h && i < w * h
    requires forall k: nat :: k < w * h ==> (once[k] <==> HasNear(base, w, h, k))
    ensures HasNear(once, w, h, i) <==> exists j: nat :: j < w * h && base[j] && TwoApart(w, i, j)
  {
    hide Adjacent, TwoApart;
    if HasNear(once, w, h, i) {
      var k: nat :| k < w * h && once[k] && Adjacent(Eight, w, i, k);
      var j: nat :| j < w * h && base[j] && Adjacent(Eight, w, k, j);
      NearTwice(w, i, k, j);
    }
    if j: nat :| j < w * h && base[j] && TwoApart(w, i, j) {
      var k := Between(w, h, i, j);
      assert HasNear(base, w, h, k);
    }
  }

  /** Cells within two columns and rows of a covered cell. */
  method BaseReach(coverage: seq<real>, w: nat, h: nat) returns (reach: array<bool>)
    requires |coverage| == w * h
    ensures fresh(reach) && reach.Length == w * h
    ensures forall i: nat :: i < w * h ==>
              (reach[i] <==> exists j: nat :: j < w * h && coverage[j] > 0.0 && TwoApart(w, i, j))
  {
    hide HasNear, TwoApart;
    reach := new bool[w * h](i requires 0 <= i < |coverage| => coverage[i] > 0.0);
    ghost var base := reach[..];
    Dilate(reach, w, h);
    ghost var once := reach[..];
    Dilate(reach, w, h);
    forall i: nat | i < w * h
      ensures HasNear(once, w, h, i) <==> exists j: nat :: j < w * h && base[j] && TwoApart(w, i, j)
    {
      TwiceNear(base, once, w, h, i);
    }
  }

  // ---------------------------------------------------------------- the fill

  /** Bounds of every channel's source values. */
  ghost predicate SourcesWithin(source: seq<bool>, vals: seq<real>, n: nat, nch: nat, lo: seq<real>, hi: seq<real>) {
    && |source| == n && IsPlane(|vals|, n, nch) && |lo| == |hi| == nch
    && forall j :: 0 <= j < n && source[j] ==> Within(vals, n, nch, j, lo, hi)
  }

  function Sources(coverage: seq<real>, mask: seq<bool>): (r: seq<bool>)
    requires |coverage| == |mask|
    ensures |r| == |mask| && forall i :: 0 <= i < |mask| ==> r[i] == (coverage[i] >= 1.0 && !mask[i])
  {
    seq(|mask|, i requires 0 <= i < |mask| && |coverage| == |mask| => coverage[i] >= 1.0 && !mask[i])
  }

  /** The rounds, until nothing is left to fill, a round fills nothing, or they run out. */
  method FillRounds(vals: array<real>, avail: array<bool>, sums: array<real>, first: seq<nat>, bounds: seq<real>,
                    w: nat, h: nat, nch: nat, ghost source: seq<bool>, ghost reach: seq<bool>, ghost raw: seq<real>,
                    ghost lo: seq<real>, ghost hi: seq<real>)
    returns (ghost layers: seq<seq<real>>, ghost trace: seq<Front>)
    requires IsPlane(vals.Length, w * h, nch) && avail.Length == w * h && sums.Length == nch && |bounds| == nch
             && sums != vals
    requires vals[..] == raw && avail[..] == source && |source| == |reach|
             && Open(first) == FirstFront(raw, source, reach).open
    requires AtRound(0, source, reach, w, h, nch, [raw], raw, source, first)
             && AreLayers(source, reach, w, h, nch, raw, [raw])
    requires Sane(source, reach, raw, raw, source, w * h, nch, lo, hi)
    requires FilledWithin(source, reach, raw, Open(first), w * h, nch, lo, hi)
    modifies vals, avail, sums
    ensures Sane(source, reach, raw, vals[..], avail[..], w * h, nch, lo, hi)
    ensures |trace| > 0 && FilledWithin(source, reach, vals[..], trace[|trace| - 1].open, w * h, nch, lo, hi)
    ensures AreLayers(source, reach, w, h, nch, raw, layers) && LocalResult(source, reach, w, h, nch, layers, vals[..])
    ensures IsTrace(trace, bounds, w, h, nch) && IsOver(trace)
    ensures trace[0] == FirstFront(raw, source, reach) && trace[|trace| - 1].vals == vals[..]
  {
    hide IsPlane, Cell, Sane, AtRound, AreLayers, LocalResult, Within, SameAt, IsTrace, IsStep, FilledWithin;
    layers, trace := [raw], [FirstFront(raw, source, reach)];
    StartTrace(trace, bounds, w, h, nch);
    var unfilled := first;
    var round, done := 0, false;
    while round < MAX_ROUNDS && !done
      invariant round <= MAX_ROUNDS
      invariant Sane(source, reach, raw, vals[..], avail[..], w * h, nch, lo, hi)
      invariant FilledWithin(source, reach, vals[..], Open(unfilled), w * h, nch, lo, hi)
      invariant AreLayers(source, reach, w, h, nch, raw, layers)
      invariant !done ==> AtRound(round, source, reach, w, h, nch, layers, vals[..], avail[..], unfilled)
      invariant done ==> LocalResult(source, reach, w, h, nch, layers, vals[..])
      invariant IsTrace(trace, bounds, w, h, nch) && |trace| == round + 1
      invariant trace[0] == FirstFront(raw, source, reach) && trace[round] == Front(vals[..], avail[..], Open(unfilled))
      invariant done ==> IsOver(trace)
      invariant !done ==> round == 0 || Open(unfilled) != trace[round - 1].open
      decreases MAX_ROUNDS - round, !done
    {
      if unfilled == [] {
        HeadResult(round, source, reach, w, h, nch, layers, vals[..], avail[..], unfilled);
        done := true;
      } else {
        assert unfilled[0] in Open(unfilled);
        unfilled, done, layers := Round(vals, avail, sums, unfilled, bounds, round, w, h, nch, source, reach, raw, lo,
                                        hi, layers);
        TraceGrows(trace, Front(vals[..], avail[..], Open(unfilled)), bounds, w, h, nch);
        trace := trace + [Front(vals[..], avail[..], Open(unfilled))];
        round := round + 1;
      }
    }
    if !done {
      HeadResult(round, source, reach, w, h, nch, layers, vals[..], avail[..], unfilled);
    }
  }

  /** Replace masked and rim cells of the base plane by onion-peel averages of the trusted cells. The
      ghost `layers` are the planes after each local pass. */
  method SuppressStars(vals: array<real>, coverage: seq<real>, w: nat, h: nat, nch: nat, mask: seq<bool>,
                       ghost lo: seq<real>, ghost hi: seq<real>)
    returns (ghost layers: seq<seq<real>>, ghost reach: seq<bool>, ghost trace: seq<Front>, ghost bounds: seq<real>)
    requires IsPlane(vals.Length, w * h, nch) && |coverage| == |mask| == w * h
    requires SourcesWithin(Sources(coverage, mask), vals[..], w * h, nch, lo, hi)
    modifies vals
    ensures (forall i :: 0 <= i < w * h ==> !Sources(coverage, mask)[i]) ==> vals[..] == old(vals[..])
    ensures |reach| == w * h && forall i: nat :: i < w * h ==>
              (reach[i] <==> exists j: nat :: j < w * h && coverage[j] > 0.0 && TwoApart(w, i, j))
    ensures IsPlane(|vals[..]|, w * h, nch)
    ensures forall j :: 0 <= j < w * h && (Sources(coverage, mask)[j] || !reach[j]) ==>
              SameAt(old(vals[..]), vals[..], w * h, nch, j)
    ensures forall j :: 0 <= j < w * h ==>
              SameAt(old(vals[..]), vals[..], w * h, nch, j) || Within(vals[..], w * h, nch, j, lo, hi)
    ensures (exists i :: 0 <= i < w * h && Sources(coverage, mask)[i]) ==>
              && AreLayers(Sources(coverage, mask), reach, w, h, nch, old(vals[..]), layers)
              && LocalResult(Sources(coverage, mask), reach, w, h, nch, layers, vals[..])
    ensures (exists i :: 0 <= i < w * h && Sources(coverage, mask)[i]) ==>
              && AreBounds(bounds, old(vals[..]), Sources(coverage, mask), w * h, nch)
              && IsTrace(trace, bounds, w, h, nch) && IsOver(trace)
              && trace[0] == FirstFront(old(vals[..]), Sources(coverage, mask), reach)
              && trace[|trace| - 1].vals == vals[..]
    ensures forall j: nat :: 0 < |trace| && j in trace[0].open && j !in trace[|trace| - 1].open ==>
              j < w * h && Within(vals[..], w * h, nch, j, lo, hi)
  {
    hide IsPlane, Cell, Sane, AtRound, AreLayers, LocalResult, Within, SameAt, TwoApart, SourcesWithin, IsTrace, IsStep,
         AreBounds, FilledWithin;
    ghost var raw := vals[..];
    var source := Sources(coverage, mask);
    var reachPlane := BaseReach(coverage, w, h);
    var reachSeq := reachPlane[..];
    reach, layers, trace, bounds := reachSeq, [raw], [], [];
    StartSane(source, reach, raw, w * h, nch, lo, hi);
    SaneParts(source, reach, raw, raw, source, w * h, nch, lo, hi);
    if !exists i :: 0 <= i < w * h && source[i] {
      return;
    }
    var limits := BrightBounds(vals, source, w * h, nch);
    bounds := limits;
    var avail := new bool[w * h](i requires 0 <= i < |source| => source[i]);
    assert avail[..] == source;
    var sums := new real[nch](_ => 0.0);
    var unfilled := Unfilled(source, reachSeq, w * h);
    StartRound(source, reach, raw, w, h, nch, unfilled);
    StartFilled(source, reach, raw, Open(unfilled), w * h, nch, lo, hi);
    layers, trace := FillRounds(vals, avail, sums, unfilled, limits, w, h, nch, source, reach, raw, lo, hi);
    SaneParts(source, reach, raw, vals[..], avail[..], w * h, nch, lo, hi);
    FilledParts(source, reach, vals[..], trace[|trace| - 1].open, w * h, nch, lo, hi);
  }

  lemma {:induction false} StartFilled(source: seq<bool>, reach: seq<bool>, raw: seq<real>, open: set<nat>,
                                       n: nat, nch: nat, lo: seq<real>, hi: seq<real>)
    requires Sane(source, reach, raw, raw, source, n, nch, lo, hi)
    requires forall j: nat :: j < n && reach[j] && !source[j] ==> j in open
    ensures FilledWithin(source, reach, raw, open, n, nch, lo, hi)
  {
  }

  lemma {:induction false} FilledParts(source: seq<bool>, reach: seq<bool>, vals: seq<real>, open: set<nat>,
                                       n: nat, nch: nat, lo: seq<real>, hi: seq<real>)
    requires FilledWithin(source, reach, vals, open, n, nch, lo, hi)
    ensures |source| == |reach| == n && IsPlane(|vals|, n, nch) && |lo| == |hi| == nch
    ensures forall j: nat :: j < n && reach[j] && !source[j] && j !in open ==> Within(vals, n, nch, j, lo, hi)
  {
    hide Within;
  }

  /** Before the first round the sources are available and the rest of the reach is to be filled. */
  ghost function FirstFront(raw: seq<real>, source: seq<bool>, reach: seq<bool>): Front
    requires |source| == |reach|
  {
    Front(raw, source, set j: nat | j < |reach| && reach[j] && !source[j])
  }

  lemma {:induction false} StartTrace(trace: seq<Front>, bounds: seq<real>, w: nat, h: nat, nch: nat)
    requires |trace| == 1
    ensures IsTrace(trace, bounds, w, h, nch)
  {
  }

  /** One bound for each channel, from its source values. */
  ghost predicate AreBounds(bounds: seq<real>, vals: seq<real>, source: seq<bool>, n: nat, nch: nat) {
    && |bounds| == nch && |source| == n
    && forall c :: 0 <= c < nch ==>
         c * n + n <= |vals| && SourceValues(vals, source, n, c * n) != []
         && bounds[c] == BrightBound(SourceValues(vals, source, n, c * n))
  }

  lemma {:induction false} DeviationsAre(s: seq<real>, med: real, k: nat)
    requires k < |s|
    ensures Deviations(s, med)[k] >= 0.0
    ensures Deviations(s, med)[k] == s[k] - med || Deviations(s, med)[k] == med - s[k]
  {
    if k < |s| - 1 { DeviationsAre(s[..|s| - 1], med, k); }
  }

  /** How many source cells come before cell `i`. */
  function Before(source: seq<bool>, i: nat): nat
    requires i <= |source|
  {
    if i == 0 then 0 else Before(source, i - 1) + if source[i - 1] then 1 else 0
  }

  /** The values a bound is computed from are the channel's, at the source cells, once each and in cell order. */
  lemma {:induction false} SourceListed(vals: seq<real>, source: seq<bool>, n: nat, base: nat, i: nat)
    requires i <= n <= |source| && base + |source| <= |vals|
    ensures |SourceValues(vals, source, n, base)| == Before(source, n) && Before(source, i) <= Before(source, n)
    ensures i < n && source[i] ==>
              Before(source, i) < Before(source, n)
              && SourceValues(vals, source, n, base)[Before(source, i)] == vals[base + i]
  {
    if n > 0 { SourceListed(vals, source, n - 1, base, if i < n then i else n - 1); }
  }

  /** A channel's bound: the median of its source values, and on top twenty times the median distance from it, or
      times the floor where that is larger. */
  ghost predicate IsSpreadBound(bound: real, values: seq<real>) {
    exists med: real, away: seq<real>, mad: real ::
      && Order.IsMiddle(values, med) && |away| == |values|
      && (forall k :: 0 <= k < |values| ==>
            away[k] >= 0.0 && (away[k] == values[k] - med || away[k] == med - values[k]))
      && Order.IsMiddle(away, mad)
      && bound == med + 20.0 * (if mad > 0.0000001 then mad else 0.0000001)
  }

  lemma {:induction false} BoundIsSpread(sources: seq<real>)
    requires sources != []
    ensures IsSpreadBound(BrightBound(sources), sources)
  {
    var med := Order.UpperMedian(sources);
    var away := Deviations(sources, med);
    var mad := Order.UpperMedian(away);
    Order.MedianIsMiddle(sources, med);
    Order.MedianIsMiddle(away, mad);
    forall k | 0 <= k < |sources|
      ensures away[k] >= 0.0 && (away[k] == sources[k] - med || away[k] == med - sources[k])
    {
      DeviationsAre(sources, med, k);
    }
    assert BrightBound(sources) == med + 20.0 * (if mad > 0.0000001 then mad else 0.0000001);
    hide Deviations, Order.IsMiddle, Order.UpperMedian, BrightBound;
  }

  /** Each channel's bound, from its values at the source cells. */
  lemma {:induction false} BoundsAreSpread(bounds: seq<real>, vals: seq<real>, source: seq<bool>, n: nat, nch: nat,
                                           c: nat)
    returns (values: seq<real>)
    requires AreBounds(bounds, vals, source, n, nch) && IsPlane(|vals|, n, nch) && c < nch
    ensures |values| == Before(source, n)
    ensures forall i: nat :: i < n && source[i] ==>
              Before(source, i) < |values| && values[Before(source, i)] == Cell(vals, n, nch, i, c)
    ensures IsSpreadBound(bounds[c], values)
  {
    values := SourceValues(vals, source, n, c * n);
    SourceListed(vals, source, n, c * n, n);
    BoundIsSpread(values);
    forall i: nat | i < n && source[i]
      ensures Before(source, i) < |values| && values[Before(source, i)] == Cell(vals, n, nch, i, c)
    {
      SourceListed(vals, source, n, c * n, i);
      CellAt(vals, n, nch, i, c);
    }
    hide SourceValues, BrightBound, IsSpreadBound, Cell;
  }

  method BrightBounds(vals: array<real>, source: seq<bool>, n: nat, nch: nat) returns (bounds: seq<real>)
    requires IsPlane(vals.Length, n, nch) && |source| == n && exists i :: 0 <= i < n && source[i]
    ensures |bounds| == nch && AreBounds(bounds, vals[..], source, n, nch)
  {
    bounds := [];
    for c := 0 to nch
      invariant |bounds| == c
      invariant forall d :: 0 <= d < c ==>
                  d * n + n <= vals.Length && SourceValues(vals[..], source, n, d * n) != []
                  && bounds[d] == BrightBound(SourceValues(vals[..], source, n, d * n))
    {
      Indexing.InBounds(n, nch, 0, c);
      SomeSource(vals[..], source, n, c * n);
      bounds := bounds + [BrightBound(SourceValues(vals[..], source, n, c * n))];
    }
  }

  lemma {:induction false} SomeSource(vals: seq<real>, source: seq<bool>, n: nat, base: nat)
    requires n <= |source| && base + |source| <= |vals| && exists i :: 0 <= i < n && source[i]
    ensures SourceValues(vals, source, n, base) != []
  {
    var i :| 0 <= i < n && source[i];
    if i < n - 1 { SomeSource(vals, source, n - 1, base); }
  }

  method Unfilled(source: seq<bool>, reach: seq<bool>, n: nat) returns (unfilled: seq<nat>)
    requires |source| == |reach| == n
    ensures Pending(unfilled, source, reach, source)
    ensures forall j: nat :: j in unfilled <==> j < n && reach[j] && !source[j]
  {
    unfilled := [];
    for i := 0 to n
      invariant forall k :: 0 <= k < |unfilled| ==> unfilled[k] < i
      invariant Pending(unfilled, source, reach, source)
      invariant forall j: nat :: j in unfilled <==> j < i && reach[j] && !source[j]
    {
      if reach[i] && !source[i] {
        unfilled := unfilled + [i];
      }
    }
  }

  lemma {:induction false} StartSane(source: seq<bool>, reach: seq<bool>, raw: seq<real>, n: nat, nch: nat,
                                     lo: seq<real>, hi: seq<real>)
    requires SourcesWithin(source, raw, n, nch, lo, hi) && |reach| == n
    ensures Sane(source, reach, raw, raw, source, n, nch, lo, hi)
  {
  }

  lemma {:induction false} SaneParts(source: seq<bool>, reach: seq<bool>, raw: seq<real>, vals: seq<real>,
                                     avail: seq<bool>, n: nat, nch: nat, lo: seq<real>, hi: seq<real>)
    requires Sane(source, reach, raw, vals, avail, n, nch, lo, hi)
    ensures |source| == |reach| == n && IsPlane(|raw|, n, nch) && IsPlane(|vals|, n, nch) && |lo| == |hi| == nch
    ensures forall j :: 0 <= j < n && (source[j] || !reach[j]) ==> SameAt(raw, vals, n, nch, j)
    ensures forall j :: 0 <= j < n ==> SameAt(raw, vals, n, nch, j) || Within(vals, n, nch, j, lo, hi)
  {
    hide SameAt, Within;
  }

  lemma {:induction false} StartRound(source: seq<bool>, reach: seq<bool>, raw: seq<real>, w: nat, h: nat, nch: nat,
                                      unfilled: seq<nat>)
    requires |source| == |reach| == w * h && IsPlane(|raw|, w * h, nch) && Pending(unfilled, source, reach, source)
    requires forall j: nat :: j in unfilled <==> j < w * h && reach[j] && !source[j]
    ensures AtRound(0, source, reach, w, h, nch, [raw], raw, source, unfilled)
    ensures AreLayers(source, reach, w, h, nch, raw, [raw])
  {
  }
}
