/** The dynamic-programming seam of one overlap band: one boundary position per slice of the long
    axis, moving by at most one cell per slice, of least total cost
    (crates/mmm-core/src/seam.rs, `edge_seam`). */
module SeamPath {
  import opened Grid
  import opened Naturals

  /** A 16-bit unsigned cast. */
  function Narrow16(n: nat): (r: nat)
    ensures r <= n && (n <= 0xFFFF ==> r == n)
  {
    n % 0x1_0000
  }

  // ---------------------------------------------------------------- specification

  /** Cost of running the seam between cells s - 1 and s of slice t: both adjacent cells count. */
  ghost function BoundaryCost(cost: seq<real>, S: nat, T: nat, t: int, s: int): real
    requires IsPlane(|cost|, S, T) && 0 <= t < T && 0 <= s <= S
  {
    (if s > 0 then Cell(cost, S, T, s - 1, t) else 0.0) + (if s < S then Cell(cost, S, T, s, t) else 0.0)
  }

  /** Boundary positions that move by at most one per slice. */
  ghost predicate IsSeam(p: seq<nat>, S: nat) {
    && (forall t :: 0 <= t < |p| ==> p[t] <= S)
    && (forall t :: 0 <= t < |p| - 1 ==> Near(p[t], p[t + 1]))
  }

  ghost function SeamCost(cost: seq<real>, S: nat, T: nat, p: seq<nat>): real
    requires IsPlane(|cost|, S, T) && |p| <= T && IsSeam(p, S)
  {
    if p == [] then 0.0
    else SeamCost(cost, S, T, p[..|p| - 1]) + BoundaryCost(cost, S, T, |p| - 1, p[|p| - 1])
  }

  /** No seam over the whole band costs less. */
  ghost predicate IsCheapestSeam(cost: seq<real>, S: nat, T: nat, p: seq<nat>) {
    && IsPlane(|cost|, S, T) && |p| == T && IsSeam(p, S)
    && forall q: seq<nat> :: |q| == T && IsSeam(q, S) ==> SeamCost(cost, S, T, p) <= SeamCost(cost, S, T, q)
  }

  /** Read from the end backwards, `t` is where two paths first differ. */
  ghost predicate LastDiffers(p: seq<nat>, q: seq<nat>, t: nat) {
    t < |p| == |q| && p[t] != q[t] && forall u :: t < u < |p| ==> p[u] == q[u]
  }

  /** There `p` ends lower, or else goes straight on, or goes to the lower boundary while `q` turns too. */
  ghost predicate Preferred(p: seq<nat>, q: seq<nat>, t: nat)
    requires t < |p| == |q|
  {
    if t == |p| - 1 then p[t] < q[t] else p[t] == p[t + 1] || (q[t] != p[t + 1] && p[t] < q[t])
  }

  /** Of all cheapest seams the one preferred. */
  ghost predicate IsTheSeam(cost: seq<real>, S: nat, T: nat, p: seq<nat>) {
    && IsCheapestSeam(cost, S, T, p)
    && forall q: seq<nat>, t: nat :: IsCheapestSeam(cost, S, T, q) && LastDiffers(p, q, t) ==> Preferred(p, q, t)
  }

  lemma {:induction false} OneIsPreferred(S: nat, p: seq<nat>, q: seq<nat>, t: nat)
    requires LastDiffers(p, q, t) && IsSeam(p, S) && IsSeam(q, S)
    ensures LastDiffers(q, p, t) && (Preferred(p, q, t) <==> !Preferred(q, p, t))
  {
    if t + 1 < |p| { assert p[t + 1] == q[t + 1] && Near(p[t], p[t + 1]) && Near(q[t], q[t + 1]); }
  }

  lemma {:induction false} LastDifference(p: seq<nat>, q: seq<nat>, k: nat, n: nat) returns (t: nat)
    requires k < n <= |p| == |q| && p[k] != q[k] && forall u :: n <= u < |p| ==> p[u] == q[u]
    ensures LastDiffers(p, q, t)
  {
    t := n - 1;
    if p[t] == q[t] { t := LastDifference(p, q, k, n - 1); }
  }

  /** A plane has no two such seams. */
  lemma {:induction false} OnlyOneSeam(cost: seq<real>, S: nat, T: nat, p: seq<nat>, q: seq<nat>)
    requires IsTheSeam(cost, S, T, p) && IsTheSeam(cost, S, T, q)
    ensures p == q
  {
    hide IsPlane, SeamCost, LastDiffers, Preferred, IsSeam;
    if p != q {
      var k :| 0 <= k < T && p[k] != q[k];
      var t := LastDifference(p, q, k, T);
      OneIsPreferred(S, p, q, t);
      assert false;
    }
  }

  // ---------------------------------------------------------------- table

  /** The table entry of boundary s in slice t. */
  ghost function Entry<E>(p: seq<E>, S: nat, T: nat, s: int, t: int): E
    requires IsPlane(|p|, S + 1, T) && 0 <= t < T && 0 <= s <= S
  {
    Cell(p, S + 1, T, s, t)
  }

  /** The entry of a row after the first extends the best of the three reachable entries above. */
  ghost predicate Extends(cost: seq<real>, S: nat, T: nat, dp: seq<real>, from: seq<nat>, t: int, s: int)
    requires IsPlane(|cost|, S, T) && IsPlane(|dp|, S + 1, T) && IsPlane(|from|, S + 1, T)
    requires 0 < t < T && 0 <= s <= S
  {
    exists arg: nat :: IsBestStep(S, T, dp, t, s, arg)
      && Entry(dp, S, T, s, t) == Entry(dp, S, T, arg, t - 1) + BoundaryCost(cost, S, T, t, s)
      && Entry<nat>(from, S, T, s, t) == Narrow16(arg)
  }

  /** Of two equally good entries above boundary `s` the one `a` is taken: straight on, else the lower. */
  predicate Prefers(s: int, a: int, b: int) {
    a == s || a == b || (b != s && a < b)
  }

  /** The best of the three entries above, and of equally good ones the one preferred. */
  ghost predicate IsBestStep(S: nat, T: nat, dp: seq<real>, t: int, s: int, arg: nat)
    requires IsPlane(|dp|, S + 1, T) && 0 < t < T && 0 <= s <= S
  {
    && arg <= S && Near(arg, s)
    && forall s' :: 0 <= s' <= S && Near(s', s) ==>
         var a, b := Entry(dp, S, T, arg, t - 1), Entry(dp, S, T, s', t - 1);
         a < b || (a == b && Prefers(s, arg, s'))
  }

  /** Rows before slice `t0`, and entries before `s0` of that row, are filled in. */
  ghost predicate Filled(cost: seq<real>, S: nat, T: nat, dp: seq<real>, from: seq<nat>, t0: int, s0: int) {
    && IsPlane(|cost|, S, T) && IsPlane(|dp|, S + 1, T) && IsPlane(|from|, S + 1, T)
    && (forall s :: 0 <= s <= S && 0 < T && (0 < t0 || (0 == t0 && s < s0)) ==>
          Entry(dp, S, T, s, 0) == BoundaryCost(cost, S, T, 0, s))
    && (forall t, s {:trigger Extends(cost, S, T, dp, from, t, s)} ::
          0 < t < T && 0 <= s <= S && (t < t0 || (t == t0 && s < s0)) ==> Extends(cost, S, T, dp, from, t, s))
  }

  lemma {:induction false} FilledExtends(cost: seq<real>, S: nat, T: nat, dp: seq<real>, from: seq<nat>, t: int, s: int)
    requires Filled(cost, S, T, dp, from, T, 0) && 0 < t < T && 0 <= s <= S
    ensures Extends(cost, S, T, dp, from, t, s)
  {
  }

  lemma {:induction false} StepTaken(cost: seq<real>, S: nat, T: nat, dp: seq<real>, from: seq<nat>, t: int, s: int)
    returns (arg: nat)
    requires IsPlane(|cost|, S, T) && IsPlane(|dp|, S + 1, T) && IsPlane(|from|, S + 1, T)
    requires 0 < t < T && 0 <= s <= S && Extends(cost, S, T, dp, from, t, s)
    ensures IsBestStep(S, T, dp, t, s, arg)
    ensures Entry(dp, S, T, s, t) == Entry(dp, S, T, arg, t - 1) + BoundaryCost(cost, S, T, t, s)
    ensures Entry<nat>(from, S, T, s, t) == Narrow16(arg)
  {
    hide IsPlane, Cell, Entry, BoundaryCost;
    arg :| IsBestStep(S, T, dp, t, s, arg)
      && Entry(dp, S, T, s, t) == Entry(dp, S, T, arg, t - 1) + BoundaryCost(cost, S, T, t, s)
      && Entry<nat>(from, S, T, s, t) == Narrow16(arg);
  }

  /** Every table entry bounds the seams that end there. */
  lemma {:induction false} EntryBounds(cost: seq<real>, S: nat, T: nat, dp: seq<real>, from: seq<nat>, q: seq<nat>)
    requires Filled(cost, S, T, dp, from, T, 0)
    requires 0 < |q| <= T && IsSeam(q, S)
    ensures Entry(dp, S, T, q[|q| - 1], |q| - 1) <= SeamCost(cost, S, T, q)
    decreases |q|
  {
    hide IsPlane, Cell, Entry, BoundaryCost, Extends;
    var t := |q| - 1;
    var s, head := q[t], q[..t];
    if t == 0 {
      assert SeamCost(cost, S, T, head) == 0.0;
    } else {
      EntryBounds(cost, S, T, dp, from, head);
      FilledExtends(cost, S, T, dp, from, t, s);
      var arg := StepTaken(cost, S, T, dp, from, t, s);
      assert Near(q[t - 1], q[t]);
    }
  }

  /** A path whose every step the table confirms costs exactly the entry it ends at. */
  ghost predicate Follows(cost: seq<real>, S: nat, T: nat, dp: seq<real>, p: seq<nat>, t: int)
    requires IsPlane(|cost|, S, T) && IsPlane(|dp|, S + 1, T) && |p| == T
    requires 0 < t < T
  {
    && p[t] <= S && p[t - 1] <= S && Near(p[t - 1], p[t])
    && Entry(dp, S, T, p[t], t) == Entry(dp, S, T, p[t - 1], t - 1) + BoundaryCost(cost, S, T, t, p[t])
  }

  lemma {:induction false} FollowedCost(cost: seq<real>, S: nat, T: nat, dp: seq<real>, from: seq<nat>, p: seq<nat>,
                                        n: nat)
    requires Filled(cost, S, T, dp, from, T, 0) && |p| == T && 0 < n <= T && p[0] <= S
    requires forall t :: 0 < t < T ==> Follows(cost, S, T, dp, p, t)
    ensures IsSeam(p[..n], S)
    ensures SeamCost(cost, S, T, p[..n]) == Entry(dp, S, T, p[n - 1], n - 1)
  {
    hide IsPlane, Cell, Entry, BoundaryCost, Extends;
    var q := p[..n];
    forall t | 0 <= t < n ensures q[t] <= S { if t > 0 { assert Follows(cost, S, T, dp, p, t); } }
    forall t | 0 <= t < n - 1 ensures Near(q[t], q[t + 1]) { var t' := t + 1; assert Follows(cost, S, T, dp, p, t'); }
    assert q[..n - 1] == p[..n - 1];
    if n == 1 {
      assert SeamCost(cost, S, T, q[..0]) == 0.0;
    } else {
      FollowedCost(cost, S, T, dp, from, p, n - 1);
      assert Follows(cost, S, T, dp, p, n - 1);
    }
  }

  // ---------------------------------------------------------------- algorithm

  method Boundary(cost: array<real>, S: nat, T: nat, t: nat, s: nat) returns (c: real)
    requires IsPlane(cost.Length, S, T) && t < T && s <= S
    ensures c == BoundaryCost(cost[..], S, T, t, s)
  {
    hide IsPlane, Cell;
    c := 0.0;
    if s > 0 {
      var v := Read(cost, S, T, s - 1, t);
      c := c + v;
    }
    if s < S {
      var v := Read(cost, S, T, s, t);
      c := c + v;
    }
  }

  /** The best of the three entries above boundary `s`, staying put on ties, then stepping down. */
  method BestStep(dp: array<real>, S: nat, T: nat, t: nat, s: nat) returns (best: real, arg: nat)
    requires IsPlane(dp.Length, S + 1, T) && 0 < t < T && s <= S
    ensures IsBestStep(S, T, dp[..], t, s, arg) && best == Entry(dp[..], S, T, arg, t - 1)
  {
    hide IsPlane, Cell;
    best := Read(dp, S + 1, T, s, t - 1);
    arg := s;
    if s > 0 {
      var v := Read(dp, S + 1, T, s - 1, t - 1);
      if v < best {
        best, arg := v, s - 1;
      }
    }
    if s + 1 < S + 1 {
      var v := Read(dp, S + 1, T, s + 1, t - 1);
      if v < best {
        best, arg := v, s + 1;
      }
    }
  }

  method FillTable(cost: array<real>, S: nat, T: nat, dp: array<real>, from: array<nat>)
    requires IsPlane(cost.Length, S, T) && IsPlane(dp.Length, S + 1, T) && IsPlane(from.Length, S + 1, T)
    requires 0 < T && dp != cost
    modifies dp, from
    ensures Filled(cost[..], S, T, dp[..], from[..], T, 0)
  {
    hide IsPlane, Cell, BoundaryCost, Extends;
    for s := 0 to S + 1
      invariant cost[..] == old(cost[..])
      invariant Filled(cost[..], S, T, dp[..], from[..], 0, s)
    {
      var c := Boundary(cost, S, T, 0, s);
      Write(dp, S + 1, T, s, 0, c);
    }
    for t := 1 to T
      invariant cost[..] == old(cost[..])
      invariant Filled(cost[..], S, T, dp[..], from[..], t, 0)
    {
      for s := 0 to S + 1
        invariant cost[..] == old(cost[..])
        invariant Filled(cost[..], S, T, dp[..], from[..], t, s)
      {
        ghost var dp0, from0 := dp[..], from[..];
        var best, arg := BestStep(dp, S, T, t, s);
        var c := Boundary(cost, S, T, t, s);
        Write(dp, S + 1, T, s, t, best + c);
        Write<nat>(from, S + 1, T, s, t, Narrow16(arg));
        FilledGrows(cost[..], S, T, dp0, from0, dp[..], from[..], t, s, arg);
      }
    }
  }

  lemma {:induction false} FilledGrows(cost: seq<real>, S: nat, T: nat, dp0: seq<real>, from0: seq<nat>,
                                       dp: seq<real>, from: seq<nat>, t: int, s: int, arg: nat)
    requires Filled(cost, S, T, dp0, from0, t, s) && 0 < t < T && 0 <= s <= S
    requires IsPlane(|dp|, S + 1, T) && IsPlane(|from|, S + 1, T)
    requires IsBestStep(S, T, dp0, t, s, arg)
    requires forall x, y :: 0 <= x <= S && 0 <= y < T ==>
               Entry(dp, S, T, x, y) == if x == s && y == t
                 then Entry(dp0, S, T, arg, t - 1) + BoundaryCost(cost, S, T, t, s) else Entry(dp0, S, T, x, y)
    requires forall x, y :: 0 <= x <= S && 0 <= y < T ==>
               Entry<nat>(from, S, T, x, y) == if x == s && y == t then Narrow16(arg) else Entry<nat>(from0, S, T, x, y)
    ensures Filled(cost, S, T, dp, from, t, s + 1)
  {
    hide IsPlane, Cell, Entry, BoundaryCost, Extends, Narrow16;
    forall t', s' | 0 < t' < T && 0 <= s' <= S && (t' < t || (t' == t && s' < s + 1))
      ensures Extends(cost, S, T, dp, from, t', s')
    {
      var a: nat := arg;
      if t' != t || s' != s {
        assert Extends(cost, S, T, dp0, from0, t', s');
        a := StepTaken(cost, S, T, dp0, from0, t', s');
      }
      StepStands(S, T, dp0, dp, t', s', a, t' - 1);
      ExtendsBy(cost, S, T, dp, from, t', s', a);
    }
  }

  lemma {:induction false} StepStands(S: nat, T: nat, dp0: seq<real>, dp: seq<real>, t: int, s: int, arg: nat, u: int)
    requires IsPlane(|dp0|, S + 1, T) && IsPlane(|dp|, S + 1, T) && 0 < t < T && 0 <= s <= S && u == t - 1
    requires IsBestStep(S, T, dp0, t, s, arg)
    requires forall s' :: 0 <= s' <= S ==> Entry(dp, S, T, s', u) == Entry(dp0, S, T, s', u)
    ensures IsBestStep(S, T, dp, t, s, arg)
  {
    hide IsPlane, Cell, Entry;
  }

  lemma {:induction false} ExtendsBy(cost: seq<real>, S: nat, T: nat, dp: seq<real>, from: seq<nat>, t: int, s: int,
                                     arg: nat)
    requires IsPlane(|cost|, S, T) && IsPlane(|dp|, S + 1, T) && IsPlane(|from|, S + 1, T)
    requires 0 < t < T && 0 <= s <= S && IsBestStep(S, T, dp, t, s, arg)
    requires Entry(dp, S, T, s, t) == Entry(dp, S, T, arg, t - 1) + BoundaryCost(cost, S, T, t, s)
    requires Entry<nat>(from, S, T, s, t) == Narrow16(arg)
    ensures Extends(cost, S, T, dp, from, t, s)
  {
    hide IsPlane, Cell, Entry, BoundaryCost;
  }

  /** The first boundary of least cost in the last row. */
  ghost predicate IsBestEnd(S: nat, T: nat, dp: seq<real>, last: int)
    requires IsPlane(|dp|, S + 1, T) && 0 < T
  {
    && 0 <= last <= S
    && var t := T - 1;
       (forall s :: 0 <= s <= S ==> Entry(dp, S, T, last, t) <= Entry(dp, S, T, s, t))
       && forall s :: 0 <= s < last ==> Entry(dp, S, T, last, t) < Entry(dp, S, T, s, t)
  }

  method BestEnd(dp: array<real>, S: nat, T: nat) returns (last: nat)
    requires IsPlane(dp.Length, S + 1, T) && 0 < T
    ensures last <= S
    ensures IsBestEnd(S, T, dp[..], last)
  {
    hide IsPlane, Cell;
    last := 0;
    ghost var end := T - 1;
    var best := Read(dp, S + 1, T, 0, T - 1);
    for s := 1 to S + 1
      invariant last < s && best == Entry(dp[..], S, T, last, T - 1)
      invariant forall s' :: 0 <= s' < s ==> best <= Entry(dp[..], S, T, s', end)
      invariant forall s' :: 0 <= s' < last ==> best < Entry(dp[..], S, T, s', end)
    {
      var v := Read(dp, S + 1, T, s, T - 1);
      if v < best {
        best, last := v, s;
      }
    }
  }

  /** `path` follows the stored steps of a filled table back from a best end. */
  ghost predicate IsWalk(cost: seq<real>, S: nat, T: nat, dp: seq<real>, from: seq<nat>, path: seq<nat>) {
    && Filled(cost, S, T, dp, from, T, 0) && |path| == T && 0 < T
    && (forall t :: 0 <= t < T ==> path[t] <= S)
    && IsBestEnd(S, T, dp, path[T - 1])
    && forall t :: 0 < t < T ==> path[t - 1] == Entry<nat>(from, S, T, path[t], t)
  }

  /** The seam: fill the table forwards, then walk the stored steps back from the best end. The
      stored steps are 16-bit, so the walk is the table's as long as positions fit. */
  method CheapestSeam(cost: array<real>, S: nat, T: nat) returns (path: seq<nat>, ghost table: (seq<real>, seq<nat>))
    requires IsPlane(cost.Length, S, T) && 0 < T
    ensures IsWalk(cost[..], S, T, table.0, table.1, path)
    ensures S <= 0xFFFF || T == 1 ==> IsTheSeam(cost[..], S, T, path)
  {
    hide IsPlane, Cell, BoundaryCost, Extends;
    var dp := NewPlane(S + 1, T, 0.0);
    var from := NewPlane<nat>(S + 1, T, 0);
    FillTable(cost, S, T, dp, from);
    var last := BestEnd(dp, S, T);
    ghost var C, D, F := cost[..], dp[..], from[..];
    table := (D, F);
    path := seq(T, _ => 0);
    path := path[T - 1 := last];
    var t := T - 1;
    while t > 0
      invariant 0 <= t < T && |path| == T
      invariant cost[..] == C && dp[..] == D && from[..] == F
      invariant forall j :: 0 <= j < T ==> path[j] <= S
      invariant path[T - 1] == last
      invariant forall j :: t < j < T ==> path[j - 1] == Entry<nat>(F, S, T, path[j], j)
    {
      var arg := Read<nat>(from, S + 1, T, path[t], t);
      FilledExtends(C, S, T, D, F, t, path[t]);
      StoredStep(C, S, T, D, F, t, path[t]);
      path := path[t - 1 := arg];
      t := t - 1;
    }
    if S <= 0xFFFF || T == 1 {
      WalkIsTheSeam(C, S, T, D, F, path);
    }
  }

  lemma {:induction false} StoredStep(cost: seq<real>, S: nat, T: nat, dp: seq<real>, from: seq<nat>, t: int, s: int)
    requires IsPlane(|cost|, S, T) && IsPlane(|dp|, S + 1, T) && IsPlane(|from|, S + 1, T)
    requires 0 < t < T && 0 <= s <= S && Extends(cost, S, T, dp, from, t, s)
    ensures Entry<nat>(from, S, T, s, t) <= S
    ensures var arg := Entry<nat>(from, S, T, s, t);
            S <= 0xFFFF ==>
              Near(arg, s) && Entry(dp, S, T, s, t) == Entry(dp, S, T, arg, t - 1) + BoundaryCost(cost, S, T, t, s)
  {
    hide IsPlane, Cell, Entry, BoundaryCost, Extends;
    var arg := StepTaken(cost, S, T, dp, from, t, s);
  }

  /** A walk whose positions fit in 16 bits is a cheapest seam. */
  lemma {:induction false} WalkIsCheapest(cost: seq<real>, S: nat, T: nat, dp: seq<real>, from: seq<nat>,
                                          path: seq<nat>)
    requires IsWalk(cost, S, T, dp, from, path) && (S <= 0xFFFF || T == 1)
    ensures IsCheapestSeam(cost, S, T, path)
  {
    hide IsPlane, Cell, Entry, BoundaryCost, Extends;
    forall t | 0 < t < T ensures Follows(cost, S, T, dp, path, t) {
      FilledExtends(cost, S, T, dp, from, t, path[t]);
      StoredStep(cost, S, T, dp, from, t, path[t]);
    }
    FollowedCost(cost, S, T, dp, from, path, T);
    assert path[..T] == path;
    forall q: seq<nat> | |q| == T && IsSeam(q, S)
      ensures SeamCost(cost, S, T, path) <= SeamCost(cost, S, T, q)
    {
      EntryBounds(cost, S, T, dp, from, q);
    }
  }

  // ---------------------------------------------------------------- which of the cheapest

  lemma {:induction false} SameSuffix(cost: seq<real>, S: nat, T: nat, p: seq<nat>, q: seq<nat>, t: nat, n: nat)
    requires IsPlane(|cost|, S, T) && |p| == |q| == T && IsSeam(p, S) && IsSeam(q, S) && t < n <= T
    requires forall u :: t < u < n ==> p[u] == q[u]
    ensures IsSeam(p[..n], S) && IsSeam(q[..n], S) && IsSeam(p[..t + 1], S) && IsSeam(q[..t + 1], S)
    ensures SeamCost(cost, S, T, p[..n]) - SeamCost(cost, S, T, p[..t + 1])
              == SeamCost(cost, S, T, q[..n]) - SeamCost(cost, S, T, q[..t + 1])
  {
    hide IsPlane, Cell, BoundaryCost;
    if n > t + 1 {
      SameSuffix(cost, S, T, p, q, t, n - 1);
      assert p[..n][..n - 1] == p[..n - 1] && q[..n][..n - 1] == q[..n - 1];
    }
  }

  lemma {:induction false} EquallyGood(cost: seq<real>, S: nat, T: nat, dp: seq<real>, from: seq<nat>,
                                       path: seq<nat>, q: seq<nat>, t: nat)
    requires IsWalk(cost, S, T, dp, from, path) && (S <= 0xFFFF || T == 1)
    requires IsCheapestSeam(cost, S, T, q) && t < T && forall u :: t < u < T ==> path[u] == q[u]
    ensures Entry(dp, S, T, q[t], t) <= Entry(dp, S, T, path[t], t)
  {
    hide IsPlane, Cell, Entry, BoundaryCost, Extends, Near;
    WalkIsCheapest(cost, S, T, dp, from, path);
    assert path[..T] == path && q[..T] == q;
    forall t | 0 < t < T ensures Follows(cost, S, T, dp, path, t) {
      FilledExtends(cost, S, T, dp, from, t, path[t]);
      StoredStep(cost, S, T, dp, from, t, path[t]);
    }
    FollowedCost(cost, S, T, dp, from, path, t + 1);
    SameSuffix(cost, S, T, path, q, t, T);
    EntryBounds(cost, S, T, dp, from, q[..t + 1]);
  }

  lemma {:induction false} WinsTie(cost: seq<real>, S: nat, T: nat, dp: seq<real>, from: seq<nat>, path: seq<nat>,
                                   q: seq<nat>, t: nat)
    requires IsWalk(cost, S, T, dp, from, path) && (S <= 0xFFFF || T == 1)
    requires IsCheapestSeam(cost, S, T, q) && LastDiffers(path, q, t)
    ensures Preferred(path, q, t)
  {
    hide IsPlane, Cell, Entry, BoundaryCost, Extends, IsBestStep, SeamCost;
    EquallyGood(cost, S, T, dp, from, path, q, t);
    if t < T - 1 {
      var u := t + 1;
      FilledExtends(cost, S, T, dp, from, u, path[u]);
      var arg := StepTaken(cost, S, T, dp, from, u, path[u]);
      assert path[u - 1] == Entry<nat>(from, S, T, path[u], u) == Narrow16(arg);
      assert arg <= S by { BestFits(S, T, dp, u, path[u], arg); }
      assert Near(q[t], q[u]);
      StepPrefers(S, T, dp, u, path[u], arg, q[t], t);
    }
  }

  lemma {:induction false} BestFits(S: nat, T: nat, dp: seq<real>, t: int, s: int, a: nat)
    requires IsPlane(|dp|, S + 1, T) && 0 < t < T && 0 <= s <= S && IsBestStep(S, T, dp, t, s, a)
    ensures a <= S
  {
  }

  lemma {:induction false} StepPrefers(S: nat, T: nat, dp: seq<real>, t: int, s: int, a: nat, b: nat, u: int)
    requires IsPlane(|dp|, S + 1, T) && 0 < t < T && 0 <= s <= S && IsBestStep(S, T, dp, t, s, a) && u == t - 1
    requires b <= S && Near(b, s) && Entry(dp, S, T, b, u) <= Entry(dp, S, T, a, u)
    ensures a == b || a == s || (b != s && a < b)
  {
    hide IsPlane, Cell, Entry;
  }

  /** A walk whose positions fit in 16 bits is the one seam preferred of the cheapest. */
  lemma {:induction false} WalkIsTheSeam(cost: seq<real>, S: nat, T: nat, dp: seq<real>, from: seq<nat>,
                                         path: seq<nat>)
    requires IsWalk(cost, S, T, dp, from, path) && (S <= 0xFFFF || T == 1)
    ensures IsTheSeam(cost, S, T, path)
  {
    WalkIsCheapest(cost, S, T, dp, from, path);
    hide IsCheapestSeam, IsWalk, LastDiffers, Preferred;
    forall q: seq<nat>, t: nat | IsCheapestSeam(cost, S, T, q) && LastDiffers(path, q, t)
      ensures LastDiffers(path, q, t) && t < |path| == |q| && Preferred(path, q, t)
    {
      WinsTie(cost, S, T, dp, from, path, q, t);
    }
  }
}

/** How wide a band the 16-bit stored steps can serve. */
module SeamWidth {
  import opened Grid
  import opened Naturals
  import opened SeamPath
  import Indexing

  ghost function PlaneOf<E>(w: nat, h: nat, f: (nat, nat) -> E): (p: seq<E>)
    ensures IsPlane(|p|, w, h)
    ensures forall x: nat, y: nat :: x < w && y < h ==> Cell(p, w, h, x, y) == f(x, y)
  {
    if w == 0 || h == 0 then []
    else
      var p := seq(w * h, i requires 0 <= i < w * h && w > 0 => f(i % w, i / w));
      assert forall x: nat, y: nat :: x < w && y < h ==> Cell(p, w, h, x, y) == f(x, y) by {
        forall x: nat, y: nat | x < w && y < h ensures Cell(p, w, h, x, y) == f(x, y) {
          Indexing.InBounds(w, h, x, y);
          var x', y' := CellOf(w, h, y * w + x);
          Indexing.Injective(w, x', y', x, y);
        }
      }
      p
  }

  /** All cells are free but those of the last slice, whose last cell alone is free. */
  ghost function LastCellFree(S: nat, T: nat): (cost: seq<real>)
    ensures IsPlane(|cost|, S, T)
  {
    PlaneOf(S, T, (s: nat, t: nat) => if t + 1 == T && s + 1 < S then 1.0 else 0.0)
  }

  /** The table the fill computes for it: nothing to pay before the last slice, so every step stays put. */
  ghost function StayPut(S: nat, T: nat): (table: (seq<real>, seq<nat>))
    requires 0 < T
    ensures IsPlane(|table.0|, S + 1, T) && IsPlane(|table.1|, S + 1, T)
  {
    var cost := LastCellFree(S, T);
    (PlaneOf(S + 1, T, (s: nat, t: nat) => if t + 1 == T && s <= S then BoundaryCost(cost, S, T, t, s) else 0.0),
     PlaneOf(S + 1, T, (s: nat, t: nat) => Narrow16(s)))
  }

  lemma {:induction false} FreeBoundary(S: nat, T: nat, t: nat, s: nat)
    requires t < T && s <= S && 2 <= S
    ensures t + 1 < T ==> BoundaryCost(LastCellFree(S, T), S, T, t, s) == 0.0
    ensures t + 1 == T ==> (BoundaryCost(LastCellFree(S, T), S, T, t, s) == 0.0 <==> s == S)
    ensures BoundaryCost(LastCellFree(S, T), S, T, t, s) >= 0.0
  {
    hide IsPlane, Cell;
    var cost, s' := LastCellFree(S, T), s - 1;
    if s > 0 { assert Cell(cost, S, T, s', t) == if t + 1 == T && s' + 1 < S then 1.0 else 0.0; }
    if s < S { assert Cell(cost, S, T, s, t) == if t + 1 == T && s + 1 < S then 1.0 else 0.0; }
  }

  lemma {:induction false} StayPutFilled(S: nat, T: nat)
    requires 0 < T && 2 <= S
    ensures Filled(LastCellFree(S, T), S, T, StayPut(S, T).0, StayPut(S, T).1, T, 0)
    ensures IsBestEnd(S, T, StayPut(S, T).0, S)
  {
    hide IsPlane, Cell, BoundaryCost, LastCellFree;
    var cost, dp, from := LastCellFree(S, T), StayPut(S, T).0, StayPut(S, T).1;
    forall s: nat, t: nat | s <= S && t < T
      ensures Entry(dp, S, T, s, t) == if t + 1 == T then BoundaryCost(cost, S, T, t, s) else 0.0
      ensures Entry<nat>(from, S, T, s, t) == Narrow16(s)
      ensures t + 1 < T ==> BoundaryCost(cost, S, T, t, s) == 0.0
      ensures BoundaryCost(cost, S, T, t, s) >= 0.0
      ensures t + 1 == T ==> (BoundaryCost(cost, S, T, t, s) == 0.0 <==> s == S)
    {
      FreeBoundary(S, T, t, s);
    }
    forall t: nat, s: nat | 0 < t < T && s <= S ensures Extends(cost, S, T, dp, from, t, s) {
      var t' := t - 1;
      assert forall s': nat :: s' <= S ==> Entry(dp, S, T, s', t') == 0.0;
      assert IsBestStep(S, T, dp, t, s, s);
    }
    FreeBoundary(S, T, T - 1, S);
  }

  /** Past 65535 positions the walk breaks: the cheapest end lies beyond what a stored step can name. */
  lemma {:induction false} WideBandBreaks(S: nat, T: nat) returns (path: seq<nat>)
    requires 0xFFFF < S && 1 < T
    ensures IsWalk(LastCellFree(S, T), S, T, StayPut(S, T).0, StayPut(S, T).1, path)
    ensures !IsSeam(path, S)
  {
    hide IsPlane, Cell, BoundaryCost, LastCellFree, Filled, IsBestEnd;
    var from := StayPut(S, T).1;
    StayPutFilled(S, T);
    path := seq(T, t requires 0 <= t < T => if t + 1 == T then S else Narrow16(S));
    forall t | 0 < t < T ensures path[t - 1] == Entry<nat>(from, S, T, path[t], t) {
      assert Entry<nat>(from, S, T, path[t], t) == Narrow16(path[t]);
    }
    var t := T - 2;
    assert !Near(path[t], path[t + 1]);
  }

  /** The seam is a cheapest one for every cost plane exactly when the band's short axis has at most 65535
      cells, or the band is a single slice. */
  lemma {:induction false} SeamsCheapestIff(S: nat, T: nat)
    requires 0 < T
    ensures (forall cost: seq<real>, dp: seq<real>, from: seq<nat>, path: seq<nat> ::
               IsWalk(cost, S, T, dp, from, path) ==> IsCheapestSeam(cost, S, T, path))
            <==> S <= 0xFFFF || T == 1
  {
    hide IsWalk, IsCheapestSeam;
    if S <= 0xFFFF || T == 1 {
      forall cost: seq<real>, dp: seq<real>, from: seq<nat>, path: seq<nat> | IsWalk(cost, S, T, dp, from, path)
        ensures IsCheapestSeam(cost, S, T, path)
      {
        WalkIsCheapest(cost, S, T, dp, from, path);
      }
    } else {
      var path := WideBandBreaks(S, T);
      NoSeam(LastCellFree(S, T), S, T, path);
    }
  }

  lemma {:induction false} NoSeam(cost: seq<real>, S: nat, T: nat, path: seq<nat>)
    requires !IsSeam(path, S)
    ensures !IsCheapestSeam(cost, S, T, path)
  {
  }
}
