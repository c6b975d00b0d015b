/** Reachability over a grid of cells: walks through allowed cells, and what a set closed under
    them contains. */
module Reach {
  import opened Naturals
  import Grid
  import Indexing

  /** Neighbourhoods: all eight surrounding cells, or the four that share a side. */
  datatype Conn = Eight | Four

  function Col(w: nat, i: nat): (x: nat)
    requires w > 0
    ensures x < w
  {
    i % w
  }

  function Row(w: nat, i: nat): nat
    requires w > 0
  {
    i / w
  }

  ghost predicate Adjacent(conn: Conn, w: nat, i: nat, j: nat) {
    && w > 0
    && Near(Col(w, i), Col(w, j)) && Near(Row(w, i), Row(w, j))
    && (conn == Four ==> Col(w, i) == Col(w, j) || Row(w, i) == Row(w, j))
  }

  /** A sequence of cells, each next one adjacent and allowed. */
  ghost predicate IsWalk(conn: Conn, w: nat, allowed: seq<bool>, p: seq<nat>) {
    && p != [] && p[0] < |allowed|
    && forall k :: 0 < k < |p| ==> CanStep(conn, w, allowed, p[k - 1], p[k])
  }

  ghost predicate CanStep(conn: Conn, w: nat, allowed: seq<bool>, i: nat, j: nat) {
    j < |allowed| && allowed[j] && Adjacent(conn, w, i, j)
  }

  /** Cell `i` is joined to cell `start` by a walk through allowed cells. */
  ghost predicate Joined(conn: Conn, w: nat, allowed: seq<bool>, start: nat, i: nat) {
    exists p: seq<nat> :: IsWalk(conn, w, allowed, p) && p[0] == start && p[|p| - 1] == i
  }

  /** Cell `i` is joined to some seed. */
  ghost predicate Reached(conn: Conn, w: nat, seeds: seq<bool>, allowed: seq<bool>, i: nat) {
    exists s: nat :: s < |seeds| && seeds[s] && Joined(conn, w, allowed, s, i)
  }

  /** `marked` contains every allowed neighbour of its cells. */
  ghost predicate Closed(conn: Conn, w: nat, allowed: seq<bool>, marked: seq<bool>) {
    && |marked| == |allowed|
    && forall i: nat, j: nat :: i < |marked| && marked[i] && CanStep(conn, w, allowed, i, j) ==> marked[j]
  }

  lemma {:induction false} JoinedSelf(conn: Conn, w: nat, allowed: seq<bool>, i: nat)
    requires i < |allowed|
    ensures Joined(conn, w, allowed, i, i)
  {
    assert IsWalk(conn, w, allowed, [i]);
  }

  lemma {:induction false} JoinedStep(conn: Conn, w: nat, allowed: seq<bool>, s: nat, i: nat, j: nat)
    requires Joined(conn, w, allowed, s, i) && CanStep(conn, w, allowed, i, j)
    ensures Joined(conn, w, allowed, s, j)
  {
    var p: seq<nat> :| IsWalk(conn, w, allowed, p) && p[0] == s && p[|p| - 1] == i;
    var q := p + [j];
    forall k | 0 < k < |q| ensures CanStep(conn, w, allowed, q[k - 1], q[k]) {
      if k < |p| { assert CanStep(conn, w, allowed, p[k - 1], p[k]); }
    }
    assert IsWalk(conn, w, allowed, q) && q[|q| - 1] == j;
  }

  lemma {:induction false} JoinedTransitive(conn: Conn, w: nat, allowed: seq<bool>, r: nat, s: nat, i: nat)
    requires Joined(conn, w, allowed, r, s) && Joined(conn, w, allowed, s, i)
    ensures Joined(conn, w, allowed, r, i)
  {
    var p: seq<nat> :| IsWalk(conn, w, allowed, p) && p[0] == s && p[|p| - 1] == i;
    WalkExtends(conn, w, allowed, r, s, p);
  }

  lemma {:induction false} WalkExtends(conn: Conn, w: nat, allowed: seq<bool>, r: nat, s: nat, p: seq<nat>)
    requires Joined(conn, w, allowed, r, s) && IsWalk(conn, w, allowed, p) && p[0] == s
    ensures Joined(conn, w, allowed, r, p[|p| - 1])
    decreases |p|
  {
    if |p| > 1 {
      var init := p[..|p| - 1];
      forall k | 0 < k < |init| ensures CanStep(conn, w, allowed, init[k - 1], init[k]) {
        assert CanStep(conn, w, allowed, p[k - 1], p[k]);
      }
      WalkExtends(conn, w, allowed, r, s, init);
      var k := |p| - 1;
      assert CanStep(conn, w, allowed, p[k - 1], p[k]);
      JoinedStep(conn, w, allowed, r, p[k - 1], p[k]);
    }
  }

  /** Walks between allowed cells can be walked back. */
  lemma {:induction false} JoinedSymmetric(conn: Conn, w: nat, allowed: seq<bool>, s: nat, i: nat)
    requires Joined(conn, w, allowed, s, i) && s < |allowed| && allowed[s]
    ensures i < |allowed| && allowed[i] && Joined(conn, w, allowed, i, s)
  {
    var p: seq<nat> :| IsWalk(conn, w, allowed, p) && p[0] == s && p[|p| - 1] == i;
    WalkBack(conn, w, allowed, p);
  }

  lemma {:induction false} WalkBack(conn: Conn, w: nat, allowed: seq<bool>, p: seq<nat>)
    requires IsWalk(conn, w, allowed, p) && allowed[p[0]]
    ensures p[|p| - 1] < |allowed| && allowed[p[|p| - 1]] && Joined(conn, w, allowed, p[|p| - 1], p[0])
    decreases |p|
  {
    if |p| == 1 {
      JoinedSelf(conn, w, allowed, p[0]);
    } else {
      var init, k := p[..|p| - 1], |p| - 1;
      forall l | 0 < l < |init| ensures CanStep(conn, w, allowed, init[l - 1], init[l]) {
        assert CanStep(conn, w, allowed, p[l - 1], p[l]);
      }
      WalkBack(conn, w, allowed, init);
      assert CanStep(conn, w, allowed, p[k - 1], p[k]);
      JoinedSelf(conn, w, allowed, p[k]);
      JoinedStep(conn, w, allowed, p[k], p[k], p[k - 1]);
      JoinedTransitive(conn, w, allowed, p[k], p[k - 1], p[0]);
    }
  }

  /** A closed set that contains the start of a walk contains its end. */
  lemma {:induction false} ClosedKeepsWalk(conn: Conn, w: nat, allowed: seq<bool>, marked: seq<bool>, p: seq<nat>)
    requires Closed(conn, w, allowed, marked) && IsWalk(conn, w, allowed, p) && marked[p[0]]
    ensures p[|p| - 1] < |marked| && marked[p[|p| - 1]]
    decreases |p|
  {
    if |p| > 1 {
      var init, k := p[..|p| - 1], |p| - 1;
      forall l | 0 < l < |init| ensures CanStep(conn, w, allowed, init[l - 1], init[l]) {
        assert CanStep(conn, w, allowed, p[l - 1], p[l]);
      }
      ClosedKeepsWalk(conn, w, allowed, marked, init);
      assert CanStep(conn, w, allowed, p[k - 1], p[k]);
    }
  }

  /** The reached cells are the least closed set that contains the seeds. */
  lemma {:induction false} ReachedIsLeast(conn: Conn, w: nat, seeds: seq<bool>, allowed: seq<bool>, marked: seq<bool>,
                                          i: nat)
    requires Closed(conn, w, allowed, marked) && |seeds| == |marked|
    requires forall s: nat :: s < |seeds| && seeds[s] ==> marked[s]
    requires Reached(conn, w, seeds, allowed, i)
    ensures i < |marked| && marked[i]
  {
    var s: nat :| s < |seeds| && seeds[s] && Joined(conn, w, allowed, s, i);
    var p: seq<nat> :| IsWalk(conn, w, allowed, p) && p[0] == s && p[|p| - 1] == i;
    ClosedKeepsWalk(conn, w, allowed, marked, p);
  }

  lemma {:induction false} ReachedStep(conn: Conn, w: nat, seeds: seq<bool>, allowed: seq<bool>, i: nat, j: nat)
    requires Reached(conn, w, seeds, allowed, i) && CanStep(conn, w, allowed, i, j)
    ensures Reached(conn, w, seeds, allowed, j)
  {
    var s: nat :| s < |seeds| && seeds[s] && Joined(conn, w, allowed, s, i);
    JoinedStep(conn, w, allowed, s, i, j);
  }

  lemma {:induction false} ReachedSeed(conn: Conn, w: nat, seeds: seq<bool>, allowed: seq<bool>, i: nat)
    requires |seeds| == |allowed| && i < |seeds| && seeds[i]
    ensures Reached(conn, w, seeds, allowed, i)
  {
    JoinedSelf(conn, w, allowed, i);
  }

  // ---------------------------------------------------------------- counting for termination

  /** Number of cells not marked yet. */
  ghost function Unmarked(marked: seq<bool>): nat {
    if marked == [] then 0 else Unmarked(marked[..|marked| - 1]) + if marked[|marked| - 1] then 0 else 1
  }

  lemma {:induction false} MarkingCounts(marked: seq<bool>, i: nat)
    requires i < |marked| && !marked[i]
    ensures Unmarked(marked[i := true]) == Unmarked(marked) - 1
  {
    var n := |marked| - 1;
    if i < n {
      MarkingCounts(marked[..n], i);
      assert marked[i := true][..n] == marked[..n][i := true];
    } else {
      assert marked[i := true][..n] == marked[..n];
    }
  }

  // ---------------------------------------------------------------- windows

  /** Columns (or rows) from one before to one after `x`, clipped to the grid. */
  function Lo(x: nat): nat {
    if x == 0 then 0 else x - 1
  }

  function Hi(x: nat, n: nat): nat
    requires x < n
  {
    if x + 1 < n then x + 1 else n - 1
  }

  lemma {:induction false} CellRange(w: nat, h: nat, i: nat)
    requires i < w * h
    ensures w > 0 && Row(w, i) < h && i == Row(w, i) * w + Col(w, i)
  {
    var x, y := Grid.CellOf(w, h, i);
  }

  lemma {:induction false} IndexCell(w: nat, h: nat, x: nat, y: nat)
    requires x < w && y < h
    ensures y * w + x < w * h && Col(w, y * w + x) == x && Row(w, y * w + x) == y
  {
    Indexing.InBounds(w, h, x, y);
    var x', y' := Grid.CellOf(w, h, y * w + x);
    Indexing.Injective(w, x', y', x, y);
  }
}

/** The flood fills of the core crate: star mask growth, its split into connected components, and
    hole filling (crates/mmm-core/src/seam.rs and crates/mmm-core/src/blend.rs). */
module Flood {
  import opened Reach
  import Order

  ghost predicate Distinct(s: seq<nat>) {
    forall a, b :: 0 <= a < b < |s| ==> s[a] != s[b]
  }

  /** `added` lists, once each, the cells marked now but not before. */
  ghost predicate Adds(before: seq<bool>, marked: seq<bool>, added: seq<nat>) {
    && |marked| == |before| && Distinct(added)
    && Unmarked(marked) + |added| == Unmarked(before)
    && (forall j: nat :: j < |marked| && before[j] ==> marked[j])
    && (forall j: nat :: j in added <==> j < |marked| && marked[j] && !before[j])
  }

  /** Marking one more cell adds it. */
  lemma {:induction false} AddsOne(before: seq<bool>, marked: seq<bool>, added: seq<nat>, j: nat)
    requires Adds(before, marked, added) && j < |marked| && !marked[j]
    ensures Adds(before, marked[j := true], added + [j])
  {
    MarkingCounts(marked, j);
    assert j !in added;
    assert forall k: nat :: k in added + [j] <==> k in added || k == j;
  }

  /** `marked` gains exactly the steps from `i`. */
  ghost predicate Visits(conn: Conn, w: nat, allowed: seq<bool>, i: nat, before: seq<bool>, marked: seq<bool>) {
    && |before| == |marked| == |allowed|
    && forall j: nat :: j < |marked| ==> (marked[j] <==> before[j] || CanStep(conn, w, allowed, i, j))
  }

  /** Mark and push every unmarked allowed cell of the 3 by 3 window around `i`. */
  method VisitWindow(marked: array<bool>, stack: seq<nat>, allowed: seq<bool>, w: nat, h: nat, i: nat)
    returns (stack': seq<nat>, ghost added: seq<nat>)
    requires marked.Length == |allowed| == w * h && i < w * h
    modifies marked
    ensures Visits(Eight, w, allowed, i, old(marked[..]), marked[..])
    ensures Adds(old(marked[..]), marked[..], added) && stack' == stack + added
  {
    hide Unmarked, Col, Row;
    CellRange(w, h, i);
    var x, y := Col(w, i), Row(w, i);
    stack', added := stack, [];
    ghost var before := marked[..];
    for yy := Lo(y) to Hi(y, h) + 1
      invariant stack' == stack + added && Adds(before, marked[..], added)
      invariant WindowDone(before, marked[..], allowed, w, h, i, Lo(x), yy)
    {
      for xx := Lo(x) to Hi(x, w) + 1
        invariant stack' == stack + added && Adds(before, marked[..], added)
        invariant WindowDone(before, marked[..], allowed, w, h, i, xx, yy)
      {
        IndexCell(w, h, xx, yy);
        var j := yy * w + xx;
        WindowStep(before, marked[..], allowed, w, h, i, xx, yy);
        if !marked[j] && allowed[j] {
          AddsOne(before, marked[..], added, j);
          ghost var m := marked[..];
          marked[j] := true;
          assert marked[..] == m[j := true];
          stack', added := stack' + [j], added + [j];
        }
      }
      WindowRow(before, marked[..], allowed, w, h, i, yy);
    }
    WindowAll(before, marked[..], allowed, w, h, i);
  }

  /** Cell `j` lies in the window around `i` and the scan has passed it. */
  ghost predicate Passed(w: nat, i: nat, j: nat, xx: int, yy: int)
    requires w > 0
  {
    Adjacent(Eight, w, i, j) && (Row(w, j) < yy || (Row(w, j) == yy && Col(w, j) < xx))
  }

  ghost predicate WindowDone(before: seq<bool>, marked: seq<bool>, allowed: seq<bool>, w: nat, h: nat, i: nat, xx: int,
                             yy: int) {
    && |before| == |marked| == |allowed| == w * h && w > 0
    && forall j: nat :: j < |marked| ==> (marked[j] <==> before[j] || (allowed[j] && Passed(w, i, j, xx, yy)))
  }

  lemma {:induction false} WindowStep(before: seq<bool>, marked: seq<bool>, allowed: seq<bool>, w: nat, h: nat, i: nat,
                                      xx: nat, yy: nat)
    requires i < w * h && w > 0 && Row(w, i) < h
    requires Lo(Col(w, i)) <= xx <= Hi(Col(w, i), w) && Lo(Row(w, i)) <= yy <= Hi(Row(w, i), h)
    requires WindowDone(before, marked, allowed, w, h, i, xx, yy)
    ensures 0 <= yy * w + xx < |marked|
    ensures var j := yy * w + xx;
            WindowDone(before, if !marked[j] && allowed[j] then marked[j := true] else marked, allowed, w, h, i, xx + 1,
                       yy)
  {
    IndexCell(w, h, xx, yy);
    var c := yy * w + xx;
    forall j: nat | j < |marked| && Row(w, j) == yy && Col(w, j) == xx ensures j == c {
      CellRange(w, h, j);
    }
    hide Col, Row;
  }

  lemma {:induction false} WindowRow(before: seq<bool>, marked: seq<bool>, allowed: seq<bool>, w: nat, h: nat, i: nat,
                                     yy: nat)
    requires i < w * h && w > 0
    requires WindowDone(before, marked, allowed, w, h, i, Hi(Col(w, i), w) + 1, yy)
    ensures WindowDone(before, marked, allowed, w, h, i, Lo(Col(w, i)), yy + 1)
  {
    hide Row;
  }

  lemma {:induction false} WindowAll(before: seq<bool>, marked: seq<bool>, allowed: seq<bool>, w: nat, h: nat, i: nat)
    requires i < w * h && w > 0 && Row(w, i) < h
    requires WindowDone(before, marked, allowed, w, h, i, Lo(Col(w, i)), Hi(Row(w, i), h) + 1)
    ensures Visits(Eight, w, allowed, i, before, marked)
  {
    forall j: nat | j < |marked| ensures Row(w, j) < h { CellRange(w, h, j); }
    hide Col, Row;
  }

  // ---------------------------------------------------------------- flood state

  /** Everything marked is reached, the seeds are marked, and every allowed step from a marked cell
      that is not waiting on the frontier leads to a marked cell. */
  ghost predicate Flooding(conn: Conn, w: nat, seeds: seq<bool>, allowed: seq<bool>, marked: seq<bool>,
                           frontier: seq<nat>) {
    && |seeds| == |allowed| == |marked|
    && (forall i: nat :: i < |marked| && marked[i] ==> Reached(conn, w, seeds, allowed, i))
    && (forall i: nat :: i < |marked| && seeds[i] ==> marked[i])
    && (forall i: nat :: i in frontier ==> i < |marked| && marked[i])
    && (forall i: nat, j: nat :: i < |marked| && marked[i] && i !in frontier && CanStep(conn, w, allowed, i, j) ==>
          marked[j])
  }

  /** Taking `i` off the frontier and marking its steps, in whatever order, keeps the state. */
  lemma {:induction false} FloodStep(conn: Conn, w: nat, seeds: seq<bool>, allowed: seq<bool>, before: seq<bool>,
                                     frontier: seq<nat>, i: nat, marked: seq<bool>, frontier': seq<nat>)
    requires Flooding(conn, w, seeds, allowed, before, frontier) && i in frontier
    requires Visits(conn, w, allowed, i, before, marked)
    requires forall k: nat :: k in frontier && k != i ==> k in frontier'
    requires forall k: nat :: k in frontier' ==> k in frontier || (k < |marked| && marked[k])
    requires forall k: nat :: k < |marked| && marked[k] && !before[k] ==> k in frontier'
    ensures Flooding(conn, w, seeds, allowed, marked, frontier')
  {
    hide Reached, Adjacent;
    forall j: nat | j < |marked| && marked[j] ensures Reached(conn, w, seeds, allowed, j) {
      if !before[j] { ReachedStep(conn, w, seeds, allowed, i, j); }
    }
    forall k: nat, j: nat | k < |marked| && marked[k] && k !in frontier' && CanStep(conn, w, allowed, k, j)
      ensures marked[j]
    {
      if k != i { assert before[k] && before[j]; }
    }
  }

  lemma {:induction false} FloodDone(conn: Conn, w: nat, seeds: seq<bool>, allowed: seq<bool>, marked: seq<bool>)
    requires Flooding(conn, w, seeds, allowed, marked, [])
    ensures Closed(conn, w, allowed, marked)
    ensures forall i: nat :: i < |marked| ==> (marked[i] <==> Reached(conn, w, seeds, allowed, i))
  {
    hide Reached, CanStep;
    forall i: nat | i < |marked| && Reached(conn, w, seeds, allowed, i) ensures marked[i] {
      ReachedIsLeast(conn, w, seeds, allowed, marked, i);
    }
  }

  // ---------------------------------------------------------------- star mask

  const MASK_SEED_FACTOR: real := 3.0
  const MASK_GROW_FACTOR: real := 1.5

  /** Largest detail energy over the channels, at least zero. */
  function ChannelMax(detail: seq<seq<real>>, i: nat): (m: real)
    requires forall c :: 0 <= c < |detail| ==> i < |detail[c]|
    ensures m >= 0.0 && forall c :: 0 <= c < |detail| ==> detail[c][i] <= m
  {
    if detail == [] then 0.0
    else
      var m, v := ChannelMax(detail[..|detail| - 1], i), detail[|detail| - 1][i];
      assert forall c :: 0 <= c < |detail| - 1 ==> detail[..|detail| - 1][c] == detail[c];
      if m < v then v else m
  }

  ghost predicate DetailOn(detail: seq<seq<real>>, n: nat) {
    forall c :: 0 <= c < |detail| ==> |detail[c]| == n
  }

  /** Detail of the fully covered cells, in cell order. */
  function CoveredDetail(coverage: seq<real>, detail: seq<seq<real>>, n: nat): seq<real>
    requires n <= |coverage| && DetailOn(detail, |coverage|)
  {
    if n == 0 then []
    else
      CoveredDetail(coverage, detail, n - 1)
      + if coverage[n - 1] >= 1.0 then [ChannelMax(detail, n - 1)] else []
  }

  /** Covered cells whose detail exceeds `factor` times the median detail of the covered cells. */
  function Exceeds(coverage: seq<real>, detail: seq<seq<real>>, factor: real): (r: seq<bool>)
    requires DetailOn(detail, |coverage|) && CoveredDetail(coverage, detail, |coverage|) != []
    ensures |r| == |coverage|
  {
    var median := Order.UpperMedian(CoveredDetail(coverage, detail, |coverage|));
    seq(|coverage|, i requires 0 <= i < |coverage| && DetailOn(detail, |coverage|) =>
      coverage[i] > 0.0 && ChannelMax(detail, i) > factor * median)
  }

  /** The details listed are those of the fully covered cells, once each and in cell order. */
  lemma {:induction false} CoveredDetailLists(coverage: seq<real>, detail: seq<seq<real>>, n: nat)
    returns (cells: seq<nat>)
    requires n <= |coverage| && DetailOn(detail, |coverage|)
    ensures |cells| == |CoveredDetail(coverage, detail, n)| && forall k :: 0 <= k < |cells| ==> cells[k] < n
    ensures forall i: nat :: i in cells <==> i < n && coverage[i] >= 1.0
    ensures forall k, l :: 0 <= k < l < |cells| ==> cells[k] < cells[l]
    ensures forall k :: 0 <= k < |cells| ==>
              cells[k] < |coverage| && CoveredDetail(coverage, detail, n)[k] == ChannelMax(detail, cells[k])
  {
    hide ChannelMax;
    if n == 0 {
      cells := [];
    } else {
      cells := CoveredDetailLists(coverage, detail, n - 1);
      if coverage[n - 1] >= 1.0 { cells := cells + [n - 1]; }
    }
  }

  lemma {:induction false} ChannelMaxExceeds(detail: seq<seq<real>>, i: nat, bound: real)
    requires (forall c :: 0 <= c < |detail| ==> i < |detail[c]|) && bound >= 0.0
    ensures ChannelMax(detail, i) > bound <==> exists c :: 0 <= c < |detail| && detail[c][i] > bound
  {
    if detail != [] {
      var head := detail[..|detail| - 1];
      ChannelMaxExceeds(head, i, bound);
      assert forall c :: 0 <= c < |head| ==> head[c] == detail[c];
      hide ChannelMax;
      assert ChannelMax(detail, i) == (if ChannelMax(head, i) < detail[|detail| - 1][i] then detail[|detail| - 1][i]
                                       else ChannelMax(head, i)) by { ChannelMaxStep(detail, i); }
    }
  }

  lemma {:induction false} ChannelMaxStep(detail: seq<seq<real>>, i: nat)
    requires detail != [] && forall c :: 0 <= c < |detail| ==> i < |detail[c]|
    ensures var m, v := ChannelMax(detail[..|detail| - 1], i), detail[|detail| - 1][i];
            ChannelMax(detail, i) == if m < v then v else m
  {
  }

  /** Exactly the cells with any coverage whose detail exceeds, in some channel, `factor` times the median of the
      details of the fully covered cells. */
  lemma {:induction false} ExceedsIff(coverage: seq<real>, detail: seq<seq<real>>, factor: real, i: nat)
    returns (details: seq<real>, median: real)
    requires DetailOn(detail, |coverage|) && CoveredDetail(coverage, detail, |coverage|) != []
    requires factor >= 0.0 && i < |coverage|
    ensures details == CoveredDetail(coverage, detail, |coverage|) && Order.IsMiddle(details, median)
    ensures Exceeds(coverage, detail, factor)[i] <==>
              coverage[i] > 0.0 && exists c :: 0 <= c < |detail| && detail[c][i] > factor * median
  {
    details := CoveredDetail(coverage, detail, |coverage|);
    median := Order.UpperMedian(details);
    Order.MedianIsMiddle(details, median);
    MedianNotNegative(coverage, detail);
    Scaled(factor, median);
    var bound := factor * median;
    ExceedsUnfolds(coverage, detail, factor, i, bound);
    hide Exceeds, ChannelMax, CoveredDetail, Order.UpperMedian, Order.IsMiddle;
    ChannelMaxExceeds(detail, i, bound);
  }

  lemma {:induction false} MedianNotNegative(coverage: seq<real>, detail: seq<seq<real>>)
    requires DetailOn(detail, |coverage|) && CoveredDetail(coverage, detail, |coverage|) != []
    ensures Order.UpperMedian(CoveredDetail(coverage, detail, |coverage|)) >= 0.0
  {
    var details := CoveredDetail(coverage, detail, |coverage|);
    var cells := CoveredDetailLists(coverage, detail, |coverage|);
    var k :| 0 <= k < |details| && details[k] == Order.UpperMedian(details);
    hide CoveredDetail, Order.UpperMedian;
    assert details[k] == ChannelMax(detail, cells[k]);
  }

  lemma {:induction false} ExceedsUnfolds(coverage: seq<real>, detail: seq<seq<real>>, factor: real, i: nat,
                                          bound: real)
    requires DetailOn(detail, |coverage|) && CoveredDetail(coverage, detail, |coverage|) != [] && i < |coverage|
    requires bound == factor * Order.UpperMedian(CoveredDetail(coverage, detail, |coverage|))
    ensures Exceeds(coverage, detail, factor)[i] <==> coverage[i] > 0.0 && ChannelMax(detail, i) > bound
  {
    hide ChannelMax, Order.UpperMedian;
  }

  lemma {:induction false} Scaled(a: real, b: real)
    requires a >= 0.0 && b >= 0.0
    ensures a * b >= 0.0
  {
  }

  /** Star cores and everything of raised detail connected to them. */
  method StarMask(coverage: seq<real>, detail: seq<seq<real>>, w: nat, h: nat) returns (mask: array<bool>)
    requires |coverage| == w * h && DetailOn(detail, w * h)
    ensures fresh(mask) && mask.Length == w * h
    ensures CoveredDetail(coverage, detail, w * h) == [] ==> forall i :: 0 <= i < w * h ==> !mask[i]
    ensures CoveredDetail(coverage, detail, w * h) != [] ==>
              var seeds, grow := Exceeds(coverage, detail, MASK_SEED_FACTOR),
                  Exceeds(coverage, detail, MASK_GROW_FACTOR);
              && (forall i: nat :: i < w * h ==> (mask[i] <==> Reached(Eight, w, seeds, grow, i)))
              && Closed(Eight, w, grow, mask[..])
  {
    hide Unmarked, Reached, CanStep, Exceeds, Closed;
    mask := new bool[w * h](_ => false);
    if CoveredDetail(coverage, detail, w * h) == [] {
      return;
    }
    var seeds, grow := Exceeds(coverage, detail, MASK_SEED_FACTOR), Exceeds(coverage, detail, MASK_GROW_FACTOR);
    var stack: seq<nat> := [];
    for i := 0 to w * h
      invariant forall j: nat :: j < w * h ==> (mask[j] <==> j < i && seeds[j])
      invariant forall j: nat :: j in stack <==> j < i && seeds[j]
    {
      if seeds[i] {
        mask[i] := true;
        stack := stack + [i];
      }
    }
    FloodStart(Eight, w, seeds, grow, mask[..], stack);
    while stack != []
      invariant Flooding(Eight, w, seeds, grow, mask[..], stack)
      decreases Unmarked(mask[..]), |stack|
    {
      var i := stack[|stack| - 1];
      assert i in stack;
      ghost var before, whole := mask[..], stack;
      stack := stack[..|stack| - 1];
      ghost var added;
      stack, added := VisitWindow(mask, stack, grow, w, h, i);
      FloodStep(Eight, w, seeds, grow, before, whole, i, mask[..], stack);
    }
    FloodDone(Eight, w, seeds, grow, mask[..]);
  }

  lemma {:induction false} FloodStart(conn: Conn, w: nat, seeds: seq<bool>, allowed: seq<bool>, marked: seq<bool>,
                                      frontier: seq<nat>)
    requires |seeds| == |allowed| == |marked|
    requires forall j: nat :: j < |marked| ==> (marked[j] <==> seeds[j])
    requires forall j: nat :: j in frontier <==> j < |marked| && seeds[j]
    ensures Flooding(conn, w, seeds, allowed, marked, frontier)
  {
    hide CanStep, Reached;
    forall i: nat | i < |marked| && marked[i] ensures Reached(conn, w, seeds, allowed, i) {
      ReachedSeed(conn, w, seeds, allowed, i);
    }
  }

  // ---------------------------------------------------------------- hole filling

  ghost predicate OnBorder(w: nat, h: nat, i: nat)
    requires w > 0
  {
    Row(w, i) == 0 || Row(w, i) == h - 1 || Col(w, i) == 0 || Col(w, i) == w - 1
  }

  function Negated(plane: seq<bool>): (r: seq<bool>)
    ensures |r| == |plane| && forall i :: 0 <= i < |plane| ==> r[i] == !plane[i]
  {
    seq(|plane|, i requires 0 <= i < |plane| => !plane[i])
  }

  ghost function BorderGaps(plane: seq<bool>, w: nat, h: nat): (r: seq<bool>)
    requires |plane| == w * h
    ensures |r| == |plane|
    ensures forall i :: 0 <= i < |plane| ==> w > 0 && (r[i] <==> !plane[i] && OnBorder(w, h, i))
  {
    if |plane| == 0 then []
    else
      CellRange(w, h, 0);
      seq(|plane|, i requires 0 <= i < |plane| && w > 0 => !plane[i] && OnBorder(w, h, i))
  }

  /** Mark and queue a false cell that is not marked yet. */
  method Push(reach: array<bool>, queue: seq<nat>, plane: seq<bool>, i: nat) returns (queue': seq<nat>)
    requires reach.Length == |plane| && i < |plane|
    modifies reach
    ensures reach[..] == old(reach[..])[i := old(reach[i]) || !plane[i]]
    ensures queue' == queue + if !plane[i] && !old(reach[i]) then [i] else []
  {
    queue' := queue;
    if !plane[i] && !reach[i] {
      reach[i] := true;
      queue' := queue' + [i];
    }
  }

  /** What one push adds to the cells found from `i` so far. */
  lemma {:induction false} PushAdds(before: seq<bool>, marked: seq<bool>, added: seq<nat>, plane: seq<bool>, j: nat)
    requires Adds(before, marked, added) && |plane| == |marked| && j < |marked|
    ensures Adds(before, marked[j := marked[j] || !plane[j]], added + if !plane[j] && !marked[j] then [j] else [])
  {
    if !plane[j] && !marked[j] {
      AddsOne(before, marked, added, j);
    } else {
      assert marked[j := marked[j] || !plane[j]] == marked;
      assert added + [] == added;
    }
  }

  /** What is marked now: what was, and the false cells among `tried`. */
  ghost predicate MarkedBy(before: seq<bool>, marked: seq<bool>, plane: seq<bool>, tried: set<int>) {
    && |before| == |marked| == |plane|
    && forall j :: 0 <= j < |plane| ==> (marked[j] <==> before[j] || (!plane[j] && j in tried))
  }

  method PushFrom(reach: array<bool>, queue: seq<nat>, plane: seq<bool>, i: nat, ghost base: seq<nat>,
                  ghost before: seq<bool>, ghost added: seq<nat>, ghost tried: set<int>)
    returns (queue': seq<nat>, ghost added': seq<nat>)
    requires reach.Length == |plane| && i < |plane| && MarkedBy(before, reach[..], plane, tried)
    requires queue == base + added && Adds(before, reach[..], added)
    modifies reach
    ensures MarkedBy(before, reach[..], plane, tried + {i})
    ensures queue' == base + added' && Adds(before, reach[..], added')
  {
    hide Unmarked;
    PushAdds(before, reach[..], added, plane, i);
    added' := added + if !plane[i] && !reach[i] then [i] else [];
    queue' := Push(reach, queue, plane, i);
  }

  /** Push the side neighbours of `i`: left, right, up, down. */
  method VisitSides(reach: array<bool>, queue: seq<nat>, plane: seq<bool>, w: nat, h: nat, i: nat)
    returns (queue': seq<nat>, ghost added: seq<nat>)
    requires reach.Length == |plane| == w * h && i < w * h && reach[i]
    modifies reach
    ensures Visits(Four, w, Negated(plane), i, old(reach[..]), reach[..])
    ensures Adds(old(reach[..]), reach[..], added) && queue' == queue + added
  {
    hide Unmarked, Col, Row, Adds, Visits, Negated, MarkedBy;
    CellRange(w, h, i);
    var x, y := Col(w, i), Row(w, i);
    ghost var before := reach[..];
    ghost var tried: set<int> := {};
    queue', added := queue, [];
    AddsNone(before);
    NoneTried(before, plane);
    if x > 0 {
      SideIsCell(w, h, i, i - 1);
      queue', added := PushFrom(reach, queue', plane, i - 1, queue, before, added, tried);
      tried := tried + {i - 1};
    }
    if x + 1 < w {
      SideIsCell(w, h, i, i + 1);
      queue', added := PushFrom(reach, queue', plane, i + 1, queue, before, added, tried);
      tried := tried + {i + 1};
    }
    if y > 0 {
      SideIsCell(w, h, i, i - w);
      queue', added := PushFrom(reach, queue', plane, i - w, queue, before, added, tried);
      tried := tried + {i - w};
    }
    if y + 1 < h {
      SideIsCell(w, h, i, i + w);
      queue', added := PushFrom(reach, queue', plane, i + w, queue, before, added, tried);
      tried := tried + {i + w};
    }
    assert forall j: int :: j in tried <==> IsSide(w, h, i, j);
    SidesVisited(before, reach[..], plane, w, h, i, tried);
  }

  lemma {:induction false} NoneTried(before: seq<bool>, plane: seq<bool>)
    requires |before| == |plane|
    ensures MarkedBy(before, before, plane, {})
  {
  }

  lemma {:induction false} AddsNone(before: seq<bool>)
    ensures Adds(before, before, [])
  {
  }

  /** The side neighbours by flat index. */
  ghost predicate IsSide(w: nat, h: nat, i: nat, j: int)
    requires w > 0
  {
    || (j == i - 1 && Col(w, i) > 0)
    || (j == i + 1 && Col(w, i) + 1 < w)
    || (j == i - w && Row(w, i) > 0)
    || (j == i + w && Row(w, i) + 1 < h)
  }

  lemma {:induction false} RowAbove(w: nat, y: nat)
    ensures (y + 1) * w == y * w + w
  {
  }

  lemma {:induction false} SideIsCell(w: nat, h: nat, i: nat, j: int)
    requires i < w * h && w > 0 && IsSide(w, h, i, j)
    ensures 0 <= j < w * h && Adjacent(Four, w, i, j)
  {
    CellRange(w, h, i);
    var x, y := Col(w, i), Row(w, i);
    if j == i - 1 && x > 0 {
      IndexCell(w, h, x - 1, y);
    } else if j == i + 1 && x + 1 < w {
      IndexCell(w, h, x + 1, y);
    } else if j == i - w && y > 0 {
      RowAbove(w, y - 1);
      IndexCell(w, h, x, y - 1);
    } else {
      RowAbove(w, y);
      IndexCell(w, h, x, y + 1);
    }
    hide Col, Row;
  }

  lemma {:induction false} CellIsSide(w: nat, h: nat, i: nat, j: nat)
    requires i < w * h && j < w * h && Adjacent(Four, w, i, j)
    ensures j == i || IsSide(w, h, i, j)
  {
    CellRange(w, h, i);
    CellRange(w, h, j);
    hide Col, Row;
    var y, v := Row(w, i), Row(w, j);
    if v == y + 1 { RowAbove(w, y); }
    if y == v + 1 { RowAbove(w, v); }
  }

  lemma {:induction false} SidesVisited(before: seq<bool>, marked: seq<bool>, plane: seq<bool>, w: nat, h: nat, i: nat,
                                        tried: set<int>)
    requires |before| == |marked| == |plane| == w * h && i < w * h && before[i] && w > 0
    requires MarkedBy(before, marked, plane, tried) && forall j: int :: j in tried <==> IsSide(w, h, i, j)
    ensures Visits(Four, w, Negated(plane), i, before, marked)
  {
    forall j: nat | j < w * h
      ensures marked[j] <==> before[j] || CanStep(Four, w, Negated(plane), i, j)
    {
      if IsSide(w, h, i, j) { SideIsCell(w, h, i, j); }
      if Adjacent(Four, w, i, j) { CellIsSide(w, h, i, j); }
    }
  }

  method PushGap(reach: array<bool>, queue: seq<nat>, plane: seq<bool>, w: nat, h: nat, i: nat)
    returns (queue': seq<nat>)
    requires |plane| == w * h && OnlyGaps(plane, w, h, reach[..], queue) && i < w * h && w > 0 && OnBorder(w, h, i)
    modifies reach
    ensures OnlyGaps(plane, w, h, reach[..], queue')
    ensures reach[i] || plane[i]
    ensures forall j :: 0 <= j < w * h && old(reach[j]) ==> reach[j]
  {
    GapGrows(plane, w, h, reach[..], queue, i);
    queue' := Push(reach, queue, plane, i);
  }

  /** Every gap in the listed part of the border rows (or columns) is marked. */
  ghost predicate RowsPushed(plane: seq<bool>, w: nat, h: nat, reach: seq<bool>, x: nat)
    requires |plane| == |reach| == w * h
  {
    forall j: nat :: j < w * h && w > 0 && (Row(w, j) == 0 || Row(w, j) == h - 1) && Col(w, j) < x ==>
          reach[j] || plane[j]
  }

  ghost predicate ColsPushed(plane: seq<bool>, w: nat, h: nat, reach: seq<bool>, y: nat)
    requires |plane| == |reach| == w * h
  {
    forall j: nat :: j < w * h && w > 0 && (Col(w, j) == 0 || Col(w, j) == w - 1) && Row(w, j) < y ==>
          reach[j] || plane[j]
  }

  method PushRows(reach: array<bool>, queue: seq<nat>, plane: seq<bool>, w: nat, h: nat) returns (queue': seq<nat>)
    requires |plane| == w * h && OnlyGaps(plane, w, h, reach[..], queue) && (w > 0 <==> h > 0)
    modifies reach
    ensures OnlyGaps(plane, w, h, reach[..], queue') && RowsPushed(plane, w, h, reach[..], w)
  {
    hide Col, Row, OnlyGaps, OnBorder;
    queue' := queue;
    GapsFit(plane, w, h, reach[..], queue');
    for x := 0 to w
      invariant OnlyGaps(plane, w, h, reach[..], queue') && reach.Length == w * h
      invariant RowsPushed(plane, w, h, reach[..], x)
    {
      BorderCells(plane, w, h, x, 0);
      queue' := PushGap(reach, queue', plane, w, h, x);
      queue' := PushGap(reach, queue', plane, w, h, (h - 1) * w + x);
    }
  }

  method PushCols(reach: array<bool>, queue: seq<nat>, plane: seq<bool>, w: nat, h: nat) returns (queue': seq<nat>)
    requires |plane| == w * h && OnlyGaps(plane, w, h, reach[..], queue) && (w > 0 <==> h > 0)
    modifies reach
    ensures OnlyGaps(plane, w, h, reach[..], queue') && ColsPushed(plane, w, h, reach[..], h)
    ensures forall j :: 0 <= j < w * h && old(reach[j]) ==> reach[j]
  {
    hide Col, Row, OnlyGaps, OnBorder;
    queue' := queue;
    GapsFit(plane, w, h, reach[..], queue');
    for y := 0 to h
      invariant OnlyGaps(plane, w, h, reach[..], queue') && reach.Length == w * h
      invariant ColsPushed(plane, w, h, reach[..], y)
      invariant forall j :: 0 <= j < w * h && old(reach[j]) ==> reach[j]
    {
      BorderCells(plane, w, h, 0, y);
      queue' := PushGap(reach, queue', plane, w, h, y * w);
      queue' := PushGap(reach, queue', plane, w, h, y * w + w - 1);
    }
  }

  lemma {:induction false} GapsFit(plane: seq<bool>, w: nat, h: nat, reach: seq<bool>, queue: seq<nat>)
    requires |plane| == w * h && OnlyGaps(plane, w, h, reach, queue)
    ensures |reach| == w * h
  {
  }

  /** Push the gaps along the top and bottom rows, then along the left and right columns. */
  method PushBorder(reach: array<bool>, plane: seq<bool>, w: nat, h: nat) returns (queue: seq<nat>)
    requires reach.Length == |plane| == w * h && (w > 0 <==> h > 0)
    requires forall i :: 0 <= i < reach.Length ==> !reach[i]
    modifies reach
    ensures forall j: nat :: j < w * h ==> (reach[j] <==> BorderGaps(plane, w, h)[j])
    ensures forall j: nat :: j in queue <==> j < w * h && reach[j]
  {
    hide Col, Row, BorderGaps;
    queue := PushRows(reach, [], plane, w, h);
    queue := PushCols(reach, queue, plane, w, h);
    RowsInGrid(w, h);
  }

  lemma {:induction false} GapGrows(plane: seq<bool>, w: nat, h: nat, reach: seq<bool>, queue: seq<nat>, i: nat)
    requires |plane| == w * h && OnlyGaps(plane, w, h, reach, queue) && i < w * h && w > 0 && OnBorder(w, h, i)
    ensures OnlyGaps(plane, w, h, reach[i := reach[i] || !plane[i]], queue + if !plane[i] && !reach[i] then [i] else [])
  {
    hide Col, Row;
    var q := queue + if !plane[i] && !reach[i] then [i] else [];
    assert forall j: nat :: j in q <==> j in queue || (j == i && !plane[i] && !reach[i]);
  }

  /** The plane with every false cell filled that no walk through false cells joins to the border. */
  method FillHoles(plane: seq<bool>, w: nat, h: nat) returns (filled: seq<bool>)
    requires |plane| == w * h && (w > 0 <==> h > 0)
    ensures |filled| == w * h
    ensures forall i: nat :: i < w * h ==>
              (filled[i] <==> plane[i] || !Reached(Four, w, BorderGaps(plane, w, h), Negated(plane), i))
  {
    hide Unmarked, Reached, CanStep, Closed, BorderGaps;
    var reach := new bool[w * h](_ => false);
    var queue := PushBorder(reach, plane, w, h);
    ghost var seeds, allowed := BorderGaps(plane, w, h), Negated(plane);
    FloodStart(Four, w, seeds, allowed, reach[..], queue);
    while queue != []
      invariant Flooding(Four, w, seeds, allowed, reach[..], queue)
      decreases Unmarked(reach[..]), |queue|
    {
      var i := queue[0];
      assert i in queue;
      ghost var before, whole := reach[..], queue;
      queue := queue[1..];
      ghost var added;
      queue, added := VisitSides(reach, queue, plane, w, h, i);
      FloodStep(Four, w, seeds, allowed, before, whole, i, reach[..], queue);
    }
    FloodDone(Four, w, seeds, allowed, reach[..]);
    filled := [];
    for i := 0 to w * h
      invariant |filled| == i
      invariant forall j: nat :: j < i ==> (filled[j] <==> plane[j] || !reach[j])
    {
      filled := filled + [plane[i] || !reach[i]];
    }
  }

  /** Only border gaps are marked, and they are on the queue. */
  ghost predicate OnlyGaps(plane: seq<bool>, w: nat, h: nat, reach: seq<bool>, queue: seq<nat>)
    requires |plane| == w * h
  {
    && |reach| == |plane|
    && (forall j: nat :: j < |reach| && reach[j] ==> BorderGaps(plane, w, h)[j])
    && (forall j: nat :: j in queue <==> j < |reach| && reach[j])
  }

  lemma {:induction false} RowsInGrid(w: nat, h: nat)
    ensures forall j: nat :: j < w * h ==> w > 0 && Row(w, j) < h
  {
    forall j: nat | j < w * h ensures w > 0 && Row(w, j) < h { CellRange(w, h, j); }
  }

  /** The border cells of one column step and one row step, by flat index. */
  lemma {:induction false} BorderCells(plane: seq<bool>, w: nat, h: nat, x: nat, y: nat)
    requires |plane| == w * h && x < w && y < h
    ensures x < w * h && 0 <= (h - 1) * w + x < w * h && y * w < w * h && 0 <= y * w + w - 1 < w * h
    ensures OnBorder(w, h, x) && OnBorder(w, h, (h - 1) * w + x) && OnBorder(w, h, y * w)
            && OnBorder(w, h, y * w + w - 1)
    ensures forall j: nat :: j < w * h && Row(w, j) == 0 && Col(w, j) == x ==> j == x
    ensures forall j: nat :: j < w * h && Row(w, j) == h - 1 && Col(w, j) == x ==> j == (h - 1) * w + x
    ensures forall j: nat :: j < w * h && Col(w, j) == 0 && Row(w, j) == y ==> j == y * w
    ensures forall j: nat :: j < w * h && Col(w, j) == w - 1 && Row(w, j) == y ==> j == y * w + w - 1
  {
    IndexCell(w, h, x, 0);
    IndexCell(w, h, x, h - 1);
    IndexCell(w, h, 0, y);
    IndexCell(w, h, w - 1, y);
    forall j: nat | j < w * h ensures j == Row(w, j) * w + Col(w, j) { CellRange(w, h, j); }
    hide Col, Row;
  }
}
