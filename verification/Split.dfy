/** Splitting a star mask into compact components and extended structure
    (crates/mmm-core/src/seam.rs, `split_mask_components`). */
module Split {
  import opened Flood
  import opened Reach

  const COMPACT_MAX_AREA: nat := 40
  const COMPACT_MAX_DIM: nat := 12
  const COMPACT_THIN_RATIO: nat := 6

  // ---------------------------------------------------------------- specification

  /** The maximal 8-connected part of the mask around cell `i`. */
  ghost function Component(mask: seq<bool>, w: nat, i: nat): set<nat> {
    set j: nat | j < |mask| && Joined(Eight, w, mask, i, j)
  }

  datatype Box = Box(x0: nat, y0: nat, x1: nat, y1: nat) {
    /** The box grown to hold column x of row y. */
    function With(x: nat, y: nat): Box {
      Box(if x < x0 then x else x0, if y < y0 then y else y0, if x > x1 then x else x1, if y > y1 then y else y1)
    }

    function MaxDim(): int {
      if x1 as int - x0 < y1 as int - y0 then y1 - y0 + 1 else x1 - x0 + 1
    }
  }

  /** The box's size is its longer side, counted in cells. */
  lemma {:induction false} MaxDimIsLonger(b: Box)
    requires b.x0 <= b.x1 && b.y0 <= b.y1
    ensures b.MaxDim() >= b.x1 - b.x0 + 1 && b.MaxDim() >= b.y1 - b.y0 + 1
    ensures b.MaxDim() == b.x1 - b.x0 + 1 || b.MaxDim() == b.y1 - b.y0 + 1
  {
  }

  /** A solid square is a compact component up to twelve cells a side; a line, and all that covers at most six times
      its length, is compact at any length; so are forty cells however they lie. */
  lemma {:induction false} CompactByShape(side: nat, area: nat, length: nat)
    requires side > 0
    ensures CompactShape(side * side, side) <==> side <= 12
    ensures length > 12 && area > 40 ==> (CompactShape(area, length) <==> area <= 6 * length)
    ensures area <= 40 ==> CompactShape(area, length)
  {
    if side > 12 {
      var d := side - 12;
      assert side * side == 12 * side + d * side;
      assert d * side >= 0 by { Squares(d, side); }
      assert 12 * side > 6 * side;
    }
  }

  lemma {:induction false} Squares(a: nat, b: nat)
    ensures a * b >= 0
  {
  }

  /** The tightest box around the cells of `c`. */
  ghost predicate IsBoxOf(b: Box, c: set<nat>, w: nat) {
    && w > 0
    && (forall i :: i in c ==> b.x0 <= Col(w, i) <= b.x1 && b.y0 <= Row(w, i) <= b.y1)
    && (exists i :: i in c && Col(w, i) == b.x0) && (exists i :: i in c && Col(w, i) == b.x1)
    && (exists i :: i in c && Row(w, i) == b.y0) && (exists i :: i in c && Row(w, i) == b.y1)
  }

  lemma {:induction false} BoxUnique(b: Box, b': Box, c: set<nat>, w: nat)
    requires IsBoxOf(b, c, w) && IsBoxOf(b', c, w)
    ensures b == b'
  {
    hide Col, Row;
  }

  /** Few cells, a small box, or thin for its box. */
  predicate CompactShape(area: nat, dim: int) {
    area <= COMPACT_MAX_AREA || dim <= COMPACT_MAX_DIM || area <= COMPACT_THIN_RATIO * dim
  }

  ghost predicate IsCompact(c: set<nat>, w: nat) {
    exists b: Box :: IsBoxOf(b, c, w) && CompactShape(|c|, b.MaxDim())
  }

  /** Components partition the masked cells: joined cells have the same one. */
  lemma {:induction false} ComponentShared(mask: seq<bool>, w: nat, i: nat, j: nat)
    requires i < |mask| && mask[i] && j in Component(mask, w, i)
    ensures mask[j] && Component(mask, w, j) == Component(mask, w, i)
  {
    JoinedSymmetric(Eight, w, mask, i, j);
    forall k: nat ensures k in Component(mask, w, j) <==> k in Component(mask, w, i) {
      if k in Component(mask, w, j) { JoinedTransitive(Eight, w, mask, i, j, k); }
      if k in Component(mask, w, i) { JoinedTransitive(Eight, w, mask, j, i, k); }
    }
  }

  // ---------------------------------------------------------------- one component

  ghost function Elements(s: seq<nat>): set<nat> {
    set i: nat | i in s
  }

  lemma {:induction false} DistinctSize(s: seq<nat>)
    requires Distinct(s)
    ensures |Elements(s)| == |s|
  {
    if s != [] {
      var init, last := s[..|s| - 1], s[|s| - 1];
      DistinctSize(init);
      assert s == init + [last];
      assert Elements(s) == Elements(init) + {last};
      assert last !in Elements(init);
    }
  }

  /** The flood from `start`: `comp` is finished, `stack` is waiting, and together they are what has
      been marked on top of `base`. */
  ghost predicate Collecting(mask: seq<bool>, w: nat, base: seq<bool>, seen: seq<bool>, start: nat, comp: seq<nat>,
                             stack: seq<nat>) {
    && |base| == |seen| == |mask| && start < |mask| && mask[start]
    && start in comp + stack && Distinct(comp + stack)
    && (forall j: nat :: j in comp + stack ==> j < |mask| && !base[j] && mask[j] && Joined(Eight, w, mask, start, j))
    && (forall j: nat :: j < |mask| ==> (seen[j] <==> base[j] || j in comp + stack))
    && (forall i: nat, j: nat :: i in comp && CanStep(Eight, w, mask, i, j) ==> seen[j])
  }

  lemma {:induction false} CollectStart(mask: seq<bool>, w: nat, base: seq<bool>, start: nat)
    requires |base| == |mask| && start < |mask| && mask[start] && !base[start]
    ensures Collecting(mask, w, base, base[start := true], start, [], [start])
  {
    JoinedSelf(Eight, w, mask, start);
    assert [] + [start] == [start];
  }

  lemma {:induction false} CollectStep(mask: seq<bool>, w: nat, base: seq<bool>, seen: seq<bool>, start: nat,
                                       comp: seq<nat>, stack: seq<nat>, i: nat, seen': seq<bool>, added: seq<nat>)
    requires Collecting(mask, w, base, seen, start, comp, stack + [i])
    requires Visits(Eight, w, mask, i, seen, seen') && Adds(seen, seen', added)
    ensures Collecting(mask, w, base, seen', start, comp + [i], stack + added)
  {
    hide Joined, Adjacent, Unmarked;
    var was, now := comp + (stack + [i]), comp + [i] + (stack + added);
    assert i in was;
    assert forall j: nat :: j in now <==> j in was || j in added;
    DistinctMoved(comp, stack, i, added);
    forall j: nat | j in now ensures j < |mask| && !base[j] && mask[j] && Joined(Eight, w, mask, start, j) {
      if j in added {
        JoinedStep(Eight, w, mask, start, i, j);
      }
    }
  }

  lemma {:induction false} DistinctMoved(comp: seq<nat>, stack: seq<nat>, i: nat, added: seq<nat>)
    requires Distinct(comp + (stack + [i])) && Distinct(added)
    requires forall j: nat :: j in added ==> j !in comp + (stack + [i])
    ensures Distinct(comp + [i] + (stack + added))
  {
    var was, now := comp + (stack + [i]), comp + [i] + (stack + added);
    var k, m := |comp|, |comp| + 1 + |stack|;
    assert forall c :: 0 <= c < k ==> now[c] == was[c];
    assert now[k] == i == was[m - 1];
    assert forall c :: k < c < m ==> now[c] == was[c - 1];
    assert forall c :: m <= c < |now| ==> now[c] == added[c - m];
    assert forall c :: m <= c < |now| ==> now[c] in added;
    assert forall c :: 0 <= c < m ==> now[c] in was;
  }

  /** With the stack empty, what was collected is the whole component, and the marks stay closed. */
  lemma {:induction false} CollectDone(mask: seq<bool>, w: nat, base: seq<bool>, seen: seq<bool>, start: nat,
                                       comp: seq<nat>)
    requires Collecting(mask, w, base, seen, start, comp, [])
    requires Closed(Eight, w, mask, base) && forall j: nat :: j < |base| && base[j] ==> mask[j]
    ensures Elements(comp) == Component(mask, w, start) && |Component(mask, w, start)| == |comp|
    ensures Closed(Eight, w, mask, seen) && forall j: nat :: j < |seen| && seen[j] ==> mask[j]
  {
    hide Joined, Adjacent;
    assert comp + [] == comp;
    forall j: nat | j < |mask| && Joined(Eight, w, mask, start, j) ensures j in comp {
      JoinedMarked(mask, w, seen, start, j);
      if base[j] {
        JoinedSymmetric(Eight, w, mask, start, j);
        JoinedMarked(mask, w, base, j, start);
      }
    }
    assert Elements(comp) == Component(mask, w, start);
    DistinctSize(comp);
  }

  lemma {:induction false} JoinedMarked(mask: seq<bool>, w: nat, marked: seq<bool>, s: nat, i: nat)
    requires Closed(Eight, w, mask, marked) && s < |mask| && marked[s] && Joined(Eight, w, mask, s, i)
    ensures i < |marked| && marked[i]
  {
    var p: seq<nat> :| IsWalk(Eight, w, mask, p) && p[0] == s && p[|p| - 1] == i;
    ClosedKeepsWalk(Eight, w, mask, marked, p);
  }

  /** Box of the collected cells, seeded at the start cell. */
  ghost predicate IsBoxSoFar(b: Box, comp: seq<nat>, start: nat, w: nat) {
    IsBoxOf(b, Elements(comp) + {start}, w)
  }

  lemma {:induction false} BoxGrows(b: Box, comp: seq<nat>, start: nat, w: nat, i: nat)
    requires IsBoxSoFar(b, comp, start, w)
    ensures IsBoxSoFar(b.With(Col(w, i), Row(w, i)), comp + [i], start, w)
  {
    hide Col, Row;
    var c, c' := Elements(comp) + {start}, Elements(comp + [i]) + {start};
    assert forall k: nat :: k in c' <==> k in c || k == i;
  }

  /** Flood one component, recording its cells and its bounding box. */
  method Collect(mask: seq<bool>, seen: array<bool>, w: nat, h: nat, start: nat) returns (comp: seq<nat>, box: Box)
    requires |mask| == seen.Length == w * h && start < w * h && mask[start] && !seen[start]
    requires Closed(Eight, w, mask, seen[..]) && forall j: nat :: j < |mask| && seen[j] ==> mask[j]
    modifies seen
    ensures Elements(comp) == Component(mask, w, start) && |Component(mask, w, start)| == |comp|
    ensures IsBoxOf(box, Component(mask, w, start), w)
    ensures Closed(Eight, w, mask, seen[..]) && forall j: nat :: j < |mask| && seen[j] ==> mask[j]
    ensures forall j: nat :: j < |mask| ==> (seen[j] <==> old(seen[j]) || j in comp)
  {
    hide Unmarked, Joined, CanStep, Closed, Col, Row, IsBoxOf;
    ghost var base := seen[..];
    CellRange(w, h, start);
    comp := [];
    var stack := [start];
    seen[start] := true;
    assert seen[..] == base[start := true];
    CollectStart(mask, w, base, start);
    box := Box(Col(w, start), Row(w, start), Col(w, start), Row(w, start));
    BoxStart(start, w);
    while stack != []
      invariant Collecting(mask, w, base, seen[..], start, comp, stack)
      invariant IsBoxSoFar(box, comp, start, w)
      decreases Unmarked(seen[..]), |stack|
    {
      var i := stack[|stack| - 1];
      assert i in stack && i in comp + stack;
      ghost var before := seen[..];
      assert stack == stack[..|stack| - 1] + [i];
      stack := stack[..|stack| - 1];
      BoxGrows(box, comp, start, w, i);
      ghost var rest, done := stack, comp;
      comp := comp + [i];
      box := box.With(Col(w, i), Row(w, i));
      ghost var added;
      stack, added := VisitWindow(seen, stack, mask, w, h, i);
      CollectStep(mask, w, base, before, start, done, rest, i, seen[..], added);
    }
    CollectDone(mask, w, base, seen[..], start, comp);
    assert comp + stack == comp;
    assert Elements(comp) + {start} == Elements(comp);
  }

  lemma {:induction false} BoxStart(start: nat, w: nat)
    requires w > 0
    ensures IsBoxSoFar(Box(Col(w, start), Row(w, start), Col(w, start), Row(w, start)), [], start, w)
  {
    hide Col, Row;
    assert Elements([]) + {start} == {start};
  }

  // ---------------------------------------------------------------- all components

  /** Seen cells carry the class of their component, unseen cells none. */
  ghost predicate Classified(mask: seq<bool>, w: nat, seen: seq<bool>, compact: seq<bool>, structure: seq<bool>) {
    && |seen| == |compact| == |structure| == |mask|
    && forall i: nat :: i < |mask| ==>
         && (compact[i] <==> seen[i] && IsCompact(Component(mask, w, i), w))
         && (structure[i] <==> seen[i] && !IsCompact(Component(mask, w, i), w))
  }

  method MarkAll(out: array<bool>, comp: seq<nat>)
    requires forall i: nat :: i in comp ==> i < out.Length
    modifies out
    ensures forall i: nat :: i < out.Length ==> (out[i] <==> old(out[i]) || i in comp)
  {
    for k := 0 to |comp|
      invariant forall i: nat :: i < out.Length ==> (out[i] <==> old(out[i]) || i in comp[..k])
    {
      assert comp[k] in comp;
      out[comp[k]] := true;
      assert comp[..k + 1] == comp[..k] + [comp[k]];
    }
    assert comp[..|comp|] == comp;
  }

  lemma {:induction false} ClassifyMore(mask: seq<bool>, w: nat, seen: seq<bool>, compact: seq<bool>,
                                        structure: seq<bool>, start: nat, comp: seq<nat>, seen': seq<bool>,
                                        compact': seq<bool>, structure': seq<bool>)
    requires Classified(mask, w, seen, compact, structure) && start < |mask| && mask[start]
    requires |seen'| == |compact'| == |structure'| == |mask|
    requires Elements(comp) == Component(mask, w, start) && forall i: nat :: i in comp ==> i < |mask| && !seen[i]
    requires forall i: nat :: i < |mask| ==> (seen'[i] <==> seen[i] || i in comp)
    requires forall i: nat :: i < |mask| ==>
               (compact'[i] <==> compact[i] || (i in comp && IsCompact(Component(mask, w, start), w)))
    requires forall i: nat :: i < |mask| ==>
               (structure'[i] <==> structure[i] || (i in comp && !IsCompact(Component(mask, w, start), w)))
    ensures Classified(mask, w, seen', compact', structure')
  {
    hide Component, IsCompact;
    forall i: nat | i < |mask|
      ensures compact'[i] <==> seen'[i] && IsCompact(Component(mask, w, i), w)
      ensures structure'[i] <==> seen'[i] && !IsCompact(Component(mask, w, i), w)
    {
      if i in comp {
        assert i in Elements(comp);
        ComponentShared(mask, w, start, i);
      }
    }
  }

  /** Compact and structure flags: disjoint, together the mask, each component wholly in one. */
  method SplitComponents(mask: seq<bool>, w: nat, h: nat) returns (compact: array<bool>, structure: array<bool>)
    requires |mask| == w * h
    ensures fresh(compact) && fresh(structure) && compact.Length == structure.Length == w * h
    ensures forall i: nat :: i < w * h ==>
              && (compact[i] <==> mask[i] && IsCompact(Component(mask, w, i), w))
              && (structure[i] <==> mask[i] && !IsCompact(Component(mask, w, i), w))
  {
    hide Closed, Component, IsCompact, IsBoxOf;
    compact := new bool[w * h](_ => false);
    structure := new bool[w * h](_ => false);
    var seen := new bool[w * h](_ => false);
    NothingClosed(mask, w, seen[..]);
    for start := 0 to w * h
      invariant Classified(mask, w, seen[..], compact[..], structure[..])
      invariant Closed(Eight, w, mask, seen[..]) && forall j: nat :: j < |mask| && seen[j] ==> mask[j]
      invariant forall j: nat :: j < start && mask[j] ==> seen[j]
    {
      if mask[start] && !seen[start] {
        ghost var seen0, compact0, structure0 := seen[..], compact[..], structure[..];
        var comp, box := Collect(mask, seen, w, h, start);
        NewCells(mask, w, seen0, start, comp);
        StartsIn(mask, w, start);
        var isCompact := CompactShape(|comp|, box.MaxDim());
        CompactByBox(Component(mask, w, start), w, box);
        if isCompact {
          MarkAll(compact, comp);
        } else {
          MarkAll(structure, comp);
        }
        ClassifyMore(mask, w, seen0, compact0, structure0, start, comp, seen[..], compact[..], structure[..]);
        assert start in Elements(comp);
      }
    }
  }

  lemma {:induction false} NothingClosed(mask: seq<bool>, w: nat, seen: seq<bool>)
    requires |seen| == |mask| && forall i :: 0 <= i < |seen| ==> !seen[i]
    ensures Closed(Eight, w, mask, seen)
  {
  }

  lemma {:induction false} StartsIn(mask: seq<bool>, w: nat, start: nat)
    requires start < |mask|
    ensures start in Component(mask, w, start)
  {
    JoinedSelf(Eight, w, mask, start);
  }

  /** A component that starts outside a closed set lies outside it. */
  lemma {:induction false} NewCells(mask: seq<bool>, w: nat, seen: seq<bool>, start: nat, comp: seq<nat>)
    requires Closed(Eight, w, mask, seen) && start < |mask| && mask[start] && !seen[start]
    requires Elements(comp) == Component(mask, w, start)
    ensures forall i: nat :: i in comp ==> i < |mask| && !seen[i]
  {
    forall i: nat | i in comp ensures i < |mask| && !seen[i] {
      assert i in Elements(comp);
      JoinedSymmetric(Eight, w, mask, start, i);
      if seen[i] { JoinedMarked(mask, w, seen, i, start); }
    }
  }

  lemma {:induction false} CompactByBox(c: set<nat>, w: nat, b: Box)
    requires IsBoxOf(b, c, w)
    ensures IsCompact(c, w) <==> CompactShape(|c|, b.MaxDim())
  {
    hide IsBoxOf, CompactShape;
    forall b': Box | IsBoxOf(b', c, w) ensures b' == b { BoxUnique(b, b', c, w); }
  }
}
