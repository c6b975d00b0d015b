/** Connected components of the overlap graph by union-find with path compression
    (crates/mmm-core/src/overlap.rs, `OverlapGraph::components`). */
module Components {

  /** One overlapping panel pair. */
  datatype Edge = Edge(a: nat, b: nat)

  // ---------------------------------------------------------------- specification

  ghost predicate InRange(edges: seq<Edge>, n: nat) {
    forall k :: 0 <= k < |edges| ==> edges[k].a < n && edges[k].b < n
  }

  ghost predicate Adjacent(edges: seq<Edge>, i: nat, j: nat) {
    Edge(i, j) in edges || Edge(j, i) in edges
  }

  /** `path` walks along edges, in either direction. */
  ghost predicate IsPath(edges: seq<Edge>, path: seq<nat>) {
    && path != []
    && forall k :: 0 <= k < |path| - 1 ==> Adjacent(edges, path[k], path[k + 1])
  }

  ghost predicate Joins(edges: seq<Edge>, path: seq<nat>, i: nat, j: nat) {
    IsPath(edges, path) && path[0] == i && path[|path| - 1] == j
  }

  /** `i` and `j` are joined by a path of edges. */
  ghost predicate Connected(edges: seq<Edge>, i: nat, j: nat) {
    exists path :: Joins(edges, path, i, j)
  }

  ghost predicate Ascending(s: seq<nat>) {
    forall k, l :: 0 <= k < l < |s| ==> s[k] < s[l]
  }

  ghost predicate Member(comps: seq<seq<nat>>, k: int, i: nat) {
    0 <= k < |comps| && i in comps[k]
  }

  ghost predicate Covered(comps: seq<seq<nat>>, i: nat) {
    exists k :: Member(comps, k, i)
  }

  /** `comps` is the partition of `0..n` into connected components: members ascending,
      components ordered by smallest member. */
  ghost predicate IsComponentPartition(edges: seq<Edge>, n: nat, comps: seq<seq<nat>>) {
    && (forall i: nat :: Covered(comps, i) <==> i < n)
    && (forall k, l, i: nat, j: nat :: Member(comps, k, i) && Member(comps, l, j) ==>
          (k == l <==> Connected(edges, i, j)))
    && (forall k :: 0 <= k < |comps| ==> comps[k] != [] && Ascending(comps[k]))
    && (forall k, l :: 0 <= k < l < |comps| ==> comps[k][0] < comps[l][0])
  }

  // ---------------------------------------------------------------- paths

  lemma {:induction false} ConnectedReflexive(edges: seq<Edge>, i: nat)
    ensures Connected(edges, i, i)
  {
    assert Joins(edges, [i], i, i);
  }

  lemma {:induction false} ConnectedEdge(edges: seq<Edge>, e: Edge)
    requires e in edges
    ensures Connected(edges, e.a, e.b)
  {
    assert Joins(edges, [e.a, e.b], e.a, e.b);
  }

  lemma {:induction false} ConnectedTransitive(edges: seq<Edge>, i: nat, j: nat, k: nat)
    requires Connected(edges, i, j) && Connected(edges, j, k)
    ensures Connected(edges, i, k)
  {
    var p: seq<nat> :| Joins(edges, p, i, j);
    var q: seq<nat> :| Joins(edges, q, j, k);
    var r := p + q[1..];
    forall l | 0 <= l < |r| - 1 ensures Adjacent(edges, r[l], r[l + 1]) {
      if l < |p| - 1 {
        assert Adjacent(edges, p[l], p[l + 1]);
      } else {
        var m := l - (|p| - 1);
        assert Adjacent(edges, q[m], q[m + 1]);
      }
    }
    assert Joins(edges, r, i, k);
  }

  ghost function Reversed(p: seq<nat>): (r: seq<nat>)
    ensures |r| == |p| && forall k :: 0 <= k < |p| ==> r[k] == p[|p| - 1 - k]
  {
    seq(|p|, k requires 0 <= k < |p| => p[|p| - 1 - k])
  }

  lemma {:induction false} ConnectedSymmetric(edges: seq<Edge>, i: nat, j: nat)
    requires Connected(edges, i, j)
    ensures Connected(edges, j, i)
  {
    var p: seq<nat> :| Joins(edges, p, i, j);
    var r := Reversed(p);
    forall l | 0 <= l < |r| - 1 ensures Adjacent(edges, r[l], r[l + 1]) {
      var m := |p| - 2 - l;
      assert Adjacent(edges, p[m], p[m + 1]);
    }
    assert Joins(edges, r, j, i);
  }

  lemma {:induction false} ConnectedMonotone(edges: seq<Edge>, more: seq<Edge>, i: nat, j: nat)
    requires Connected(edges, i, j) && forall e :: e in edges ==> e in more
    ensures Connected(more, i, j)
  {
    var p: seq<nat> :| Joins(edges, p, i, j);
    assert forall k :: 0 <= k < |p| - 1 ==> Adjacent(edges, p[k], p[k + 1]) ==> Adjacent(more, p[k], p[k + 1]);
    assert Joins(more, p, i, j);
  }

  // ---------------------------------------------------------------- forest

  /** Parents never exceed their child. */
  ghost predicate Forest(parent: seq<nat>) {
    forall i :: 0 <= i < |parent| ==> parent[i] <= i
  }

  ghost function Root(parent: seq<nat>, i: nat): (r: nat)
    requires Forest(parent) && i < |parent|
    ensures r <= i && parent[r] == r
  {
    if parent[i] == i then i else Root(parent, parent[i])
  }

  /** Pointing a node at its own root changes no root. */
  lemma {:induction false} CompressKeepsRoots(parent: seq<nat>, cur: nat, x: nat)
    requires Forest(parent) && cur < |parent| && x < |parent|
    ensures Forest(parent[cur := Root(parent, cur)])
    ensures Root(parent[cur := Root(parent, cur)], x) == Root(parent, x)
    decreases x
  {
    var r := Root(parent, cur);
    var parent' := parent[cur := r];
    if x == cur {
      assert parent'[r] == r;
    } else if parent[x] != x {
      CompressKeepsRoots(parent, cur, parent[x]);
    }
  }

  /** Hanging root `hi` below root `lo` sends every node that had root `hi` to `lo`. */
  lemma {:induction false} LinkMovesRoots(parent: seq<nat>, lo: nat, hi: nat, x: nat)
    requires Forest(parent) && lo < hi < |parent| && x < |parent|
    requires parent[lo] == lo && parent[hi] == hi
    ensures Forest(parent[hi := lo])
    ensures Root(parent[hi := lo], x) == if Root(parent, x) == hi then lo else Root(parent, x)
    decreases x
  {
    if x != hi && parent[x] != x {
      LinkMovesRoots(parent, lo, hi, parent[x]);
    }
  }

  /** The root of `i`, re-pointing every node on the way straight at it. */
  method Find(parent: array<nat>, i: nat) returns (root: nat)
    requires Forest(parent[..]) && i < parent.Length
    modifies parent
    ensures Forest(parent[..])
    ensures root == Root(old(parent[..]), i)
    ensures forall x :: 0 <= x < parent.Length ==> Root(parent[..], x) == Root(old(parent[..]), x)
    ensures parent[i] == root
  {
    root := i;
    while parent[root] != root
      invariant root < parent.Length && Root(parent[..], root) == Root(parent[..], i)
      decreases root
    {
      root := parent[root];
    }
    var cur: nat := i;
    while parent[cur] != root
      invariant Forest(parent[..]) && cur < parent.Length
      invariant Root(parent[..], cur) == root
      invariant cur == i || parent[i] == root
      invariant forall x :: 0 <= x < parent.Length ==> Root(parent[..], x) == Root(old(parent[..]), x)
      decreases cur
    {
      var next := parent[cur];
      ghost var before := parent[..];
      forall x | 0 <= x < parent.Length
        ensures Root(before[cur := root], x) == Root(before, x)
      {
        CompressKeepsRoots(before, cur, x);
      }
      parent[cur] := root;
      assert parent[..] == before[cur := root];
      assert Root(before, next) == root;
      cur := next;
    }
  }

  // ---------------------------------------------------------------- union phase

  /** The forest describes connectivity through `edges`: tree links and edges agree. */
  ghost predicate Describes(parent: seq<nat>, edges: seq<Edge>) {
    && Forest(parent) && InRange(edges, |parent|)
    && (forall i :: 0 <= i < |parent| ==> Connected(edges, i, Root(parent, i)))
    && (forall e :: e in edges ==> Root(parent, e.a) == Root(parent, e.b))
  }

  /** All nodes of a path share a root. */
  lemma {:induction false} PathSharesRoot(parent: seq<nat>, edges: seq<Edge>, path: seq<nat>)
    requires Describes(parent, edges) && IsPath(edges, path) && path[0] < |parent|
    ensures path[|path| - 1] < |parent| && Root(parent, path[|path| - 1]) == Root(parent, path[0])
  {
    if |path| > 1 {
      var init := path[..|path| - 1];
      assert forall k :: 0 <= k < |init| - 1 ==> Adjacent(edges, path[k], path[k + 1]);
      PathSharesRoot(parent, edges, init);
      var k := |path| - 2;
      assert Adjacent(edges, path[k], path[k + 1]);
    }
  }

  /** Same root if and only if joined by a path. */
  lemma {:induction false} RootsAreComponents(parent: seq<nat>, edges: seq<Edge>, i: nat, j: nat)
    requires Describes(parent, edges) && i < |parent| && j < |parent|
    ensures Root(parent, i) == Root(parent, j) <==> Connected(edges, i, j)
  {
    if Root(parent, i) == Root(parent, j) {
      ConnectedSymmetric(edges, j, Root(parent, j));
      ConnectedTransitive(edges, i, Root(parent, i), j);
    }
    if Connected(edges, i, j) {
      var p: seq<nat> :| Joins(edges, p, i, j);
      PathSharesRoot(parent, edges, p);
    }
  }

  /** The endpoints' roots are joined once the edge is there. */
  lemma {:induction false} RootsJoin(edges: seq<Edge>, e: Edge, ra: nat, rb: nat)
    requires Connected(edges, e.a, ra) && Connected(edges, e.b, rb)
    ensures Connected(edges + [e], ra, rb) && Connected(edges + [e], rb, ra)
  {
    var more := edges + [e];
    ConnectedMonotone(edges, more, e.a, ra);
    ConnectedMonotone(edges, more, e.b, rb);
    ConnectedEdge(more, e);
    ConnectedSymmetric(more, e.a, ra);
    ConnectedTransitive(more, ra, e.a, e.b);
    ConnectedTransitive(more, ra, e.b, rb);
    ConnectedSymmetric(more, ra, rb);
  }

  /** The link made for edge `e` extends the description from `edges` to `edges + [e]`. */
  lemma {:induction false} LinkDescribes(parent: seq<nat>, edges: seq<Edge>, e: Edge, lo: nat, hi: nat)
    requires Describes(parent, edges) && e.a < |parent| && e.b < |parent| && lo < hi
    requires (lo == Root(parent, e.a) && hi == Root(parent, e.b))
             || (hi == Root(parent, e.a) && lo == Root(parent, e.b))
    ensures Describes(parent[hi := lo], edges + [e])
  {
    hide Connected;
    var parent', more := parent[hi := lo], edges + [e];
    RootsJoin(edges, e, Root(parent, e.a), Root(parent, e.b));
    forall i | 0 <= i < |parent| ensures Connected(more, i, Root(parent', i)) {
      LinkMovesRoots(parent, lo, hi, i);
      ConnectedMonotone(edges, more, i, Root(parent, i));
      if Root(parent, i) == hi { ConnectedTransitive(more, i, hi, lo); }
    }
    forall f | f in more ensures Root(parent', f.a) == Root(parent', f.b) {
      LinkMovesRoots(parent, lo, hi, f.a);
      LinkMovesRoots(parent, lo, hi, f.b);
    }
  }

  lemma {:induction false} RedundantDescribes(parent: seq<nat>, edges: seq<Edge>, e: Edge)
    requires Describes(parent, edges) && e.a < |parent| && e.b < |parent|
    requires Root(parent, e.a) == Root(parent, e.b)
    ensures Describes(parent, edges + [e])
  {
    forall i | 0 <= i < |parent| ensures Connected(edges + [e], i, Root(parent, i)) {
      ConnectedMonotone(edges, edges + [e], i, Root(parent, i));
    }
  }

  lemma {:induction false} CompressedDescribes(before: seq<nat>, after: seq<nat>, edges: seq<Edge>)
    requires Describes(before, edges) && Forest(after) && |after| == |before|
    requires forall x :: 0 <= x < |before| ==> Root(after, x) == Root(before, x)
    ensures Describes(after, edges)
  {
  }

  method Unite(parent: array<nat>, edges: seq<Edge>)
    requires InRange(edges, parent.Length)
    requires forall i :: 0 <= i < parent.Length ==> parent[i] == i
    modifies parent
    ensures Describes(parent[..], edges)
  {
    forall i | 0 <= i < parent.Length ensures Connected([], i, i) { ConnectedReflexive([], i); }
    for k := 0 to |edges|
      invariant Describes(parent[..], edges[..k])
    {
      var e := edges[k];
      ghost var before := parent[..];
      var ra := Find(parent, e.a);
      CompressedDescribes(before, parent[..], edges[..k]);
      ghost var middle := parent[..];
      var rb := Find(parent, e.b);
      CompressedDescribes(middle, parent[..], edges[..k]);
      ghost var after := parent[..];
      assert edges[..k + 1] == edges[..k] + [e];
      if ra != rb {
        var lo, hi := if ra < rb then ra else rb, if ra < rb then rb else ra;
        LinkDescribes(parent[..], edges[..k], e, lo, hi);
        parent[hi] := lo;
        assert parent[..] == after[hi := lo];
      } else {
        RedundantDescribes(parent[..], edges[..k], e);
      }
    }
    assert edges[..|edges|] == edges;
  }

  // ---------------------------------------------------------------- grouping phase

  /** `comps` groups the first `i` nodes by root, in order of first appearance, and `slot` maps
      each root met so far to its group. */
  ghost predicate Groups(roots: seq<nat>, i: nat, comps: seq<seq<nat>>, slot: map<nat, nat>) {
    && i <= |roots|
    && (forall j :: 0 <= j < i ==> roots[j] in slot && Member(comps, slot[roots[j]], j))
    && (forall k :: 0 <= k < |comps| ==>
          comps[k] != [] && Ascending(comps[k]) && comps[k][0] in slot && slot[comps[k][0]] == k)
    && (forall k, j: nat :: Member(comps, k, j) ==> j < i && roots[j] == comps[k][0])
    && (forall k, l :: 0 <= k < l < |comps| ==> comps[k][0] < comps[l][0])
    && (forall r :: r in slot ==> slot[r] < |comps| && comps[slot[r]][0] == r)
  }

  lemma {:induction false} GroupsPartition(parent: seq<nat>, edges: seq<Edge>, roots: seq<nat>, comps: seq<seq<nat>>,
                                           slot: map<nat, nat>)
    requires Describes(parent, edges) && |roots| == |parent|
    requires forall i :: 0 <= i < |parent| ==> roots[i] == Root(parent, i)
    requires Groups(roots, |parent|, comps, slot)
    ensures IsComponentPartition(edges, |parent|, comps)
  {
    forall i: nat ensures Covered(comps, i) <==> i < |parent| {
      if i < |parent| { assert Member(comps, slot[roots[i]], i); }
    }
    forall k, l, i: nat, j: nat | Member(comps, k, i) && Member(comps, l, j)
      ensures k == l <==> Connected(edges, i, j)
    {
      RootsAreComponents(parent, edges, i, j);
    }
  }

  /** Adding node `i` to the group of its root, opening the group if the root is new. */
  ghost function Regrouped(roots: seq<nat>, i: nat, comps: seq<seq<nat>>, slot: map<nat, nat>): (seq<seq<nat>>,
                           map<nat, nat>)
    requires Groups(roots, i, comps, slot) && i < |roots|
  {
    var r := roots[i];
    if r in slot then (comps[slot[r] := comps[slot[r]] + [i]], slot)
    else (comps + [[i]], slot[r := |comps|])
  }

  lemma {:induction false} GroupsGrow(roots: seq<nat>, i: nat, comps: seq<seq<nat>>, slot: map<nat, nat>)
    requires Groups(roots, i, comps, slot) && i < |roots|
    requires forall j :: 0 <= j < |roots| ==> roots[j] <= j && roots[roots[j]] == roots[j]
    ensures var (comps', slot') := Regrouped(roots, i, comps, slot); Groups(roots, i + 1, comps', slot')
  {
    var r := roots[i];
    var (comps', slot') := Regrouped(roots, i, comps, slot);
    if r in slot {
      var c := comps[slot[r]];
      forall k, l | 0 <= k < l < |c + [i]| ensures (c + [i])[k] < (c + [i])[l] {
        if l == |c| { assert Member(comps, slot[r], c[k]); }
      }
      forall j | 0 <= j < i + 1 ensures roots[j] in slot' && Member(comps', slot'[roots[j]], j) {
        if j < i { assert Member(comps, slot[roots[j]], j); }
      }
      forall k, j: nat | Member(comps', k, j) ensures j < i + 1 && roots[j] == comps'[k][0] {
        if k != slot[r] || j != i { assert Member(comps, k, j); }
      }
    } else {
      assert forall j :: 0 <= j < i ==> roots[j] in slot;
      assert roots[r] == r && r == i;
      forall k | 0 <= k < |comps| ensures comps[k][0] < i { assert Member(comps, k, comps[k][0]); }
      forall j | 0 <= j < i + 1 ensures roots[j] in slot' && Member(comps', slot'[roots[j]], j) {
        if j < i { assert Member(comps, slot[roots[j]], j); }
      }
      forall k, j: nat | Member(comps', k, j) ensures j < i + 1 && roots[j] == comps'[k][0] {
        if k < |comps| { assert Member(comps, k, j); }
      }
    }
  }

  /** The connected components of panels `0..n`. */
  method ConnectedComponents(edges: seq<Edge>, n: nat) returns (comps: seq<seq<nat>>)
    requires InRange(edges, n)
    ensures IsComponentPartition(edges, n, comps)
  {
    hide IsComponentPartition, Describes, Groups;
    var parent := new nat[n](i => i);
    Unite(parent, edges);
    ghost var forest := parent[..];
    ghost var roots := seq(n, i requires 0 <= i < n => RootIn(forest, n, i));
    DescribesForest(forest, edges);
    comps := [];
    var compOfRoot := new int[n](_ => -1);
    ghost var slot: map<nat, nat> := map[];
    GroupsEmpty(roots);
    for i := 0 to n
      invariant Forest(parent[..])
      invariant forall x :: 0 <= x < n ==> Root(parent[..], x) == roots[x]
      invariant Groups(roots, i, comps, slot)
      invariant forall r :: 0 <= r < n ==> compOfRoot[r] == if r in slot then slot[r] else -1
    {
      var root := Find(parent, i);
      GroupsGrow(roots, i, comps, slot);
      GroupsSlots(roots, i, comps, slot);
      ghost var grown := Regrouped(roots, i, comps, slot);
      if compOfRoot[root] == -1 {
        compOfRoot[root] := |comps|;
        comps := comps + [[]];
        assert comps[|comps| - 1] + [i] == [i];
        assert comps[|comps| - 1 := [i]] == grown.0;
      }
      var k := compOfRoot[root];
      comps := comps[k := comps[k] + [i]];
      slot := grown.1;
    }
    GroupsPartition(forest, edges, roots, comps, slot);
  }

  ghost function RootIn(parent: seq<nat>, n: nat, i: nat): (r: nat)
    requires Forest(parent) && i < |parent| == n
    ensures r == Root(parent, i)
  {
    Root(parent, i)
  }

  lemma {:induction false} DescribesForest(parent: seq<nat>, edges: seq<Edge>)
    requires Describes(parent, edges)
    ensures Forest(parent) && forall i :: 0 <= i < |parent| ==> var r := Root(parent, i); r <= i && Root(parent, r) == r
  {
  }

  lemma {:induction false} GroupsEmpty(roots: seq<nat>)
    ensures Groups(roots, 0, [], map[])
  {
  }

  lemma {:induction false} GroupsSlots(roots: seq<nat>, i: nat, comps: seq<seq<nat>>, slot: map<nat, nat>)
    requires Groups(roots, i, comps, slot)
    ensures forall r :: r in slot ==> slot[r] < |comps|
  {
  }
}
