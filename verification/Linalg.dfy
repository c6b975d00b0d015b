/** Dense linear solve: in-place Gaussian elimination with partial pivoting, over the reals
    (crates/mmm-core/src/linalg.rs). */
module Linalg {
  import opened Entrywise
  import Indexing

  type Vector = seq<real>
  type Matrix = seq<Vector>

  /** `Ok` carries the solution; `Singular` the column whose best pivot was too small. */
  datatype SolveResult = Ok(x: Vector) | Singular(column: nat)

  // ---------------------------------------------------------------- specification

  ghost predicate IsMatrix(A: Matrix, n: nat) {
    |A| == n && forall i :: 0 <= i < n ==> |A[i]| == n
  }

  ghost predicate IsSquare(length: nat, n: nat) {
    length == n * n
  }

  /** Row `i` of the row-major n-by-n buffer `s`. */
  ghost function RowAt(s: seq<real>, n: nat, i: nat): (row: Vector)
    requires IsSquare(|s|, n) && i < n
    ensures |row| == n
  {
    Indexing.InBounds(n, n, 0, i);
    s[i * n..i * n + n]
  }

  /** The row-major buffer `s` read as an n-by-n matrix. */
  ghost function Rows(s: seq<real>, n: nat): (A: Matrix)
    requires IsSquare(|s|, n)
    ensures IsMatrix(A, n)
  {
    seq(n, i requires 0 <= i < n => RowAt(s, n, i))
  }

  /** Reading the flat buffer at `i * n + j` reads entry (i, j). */
  lemma {:induction false} EntryAt(s: seq<real>, n: nat, i: nat, j: nat)
    requires IsSquare(|s|, n) && i < n && j < n
    ensures 0 <= i * n + j < |s| && Rows(s, n)[i][j] == s[i * n + j]
  {
    Indexing.InBounds(n, n, j, i);
    assert Rows(s, n)[i] == RowAt(s, n, i);
  }

  /** Writing the flat buffer at `i * n + j` writes entry (i, j) and no other. */
  lemma {:induction false} EntryWrite(s: seq<real>, n: nat, i: nat, j: nat, v: real)
    requires IsSquare(|s|, n) && i < n && j < n
    ensures 0 <= i * n + j < |s|
    ensures Rows(s[i * n + j := v], n) == Rows(s, n)[i := Rows(s, n)[i][j := v]]
  {
    Indexing.InBounds(n, n, j, i);
    var A, s' := Rows(s, n), s[i * n + j := v];
    var A' := Rows(s', n);
    assert A'[i] == A[i][j := v] by {
      assert A'[i] == RowAt(s', n, i) && A[i] == RowAt(s, n, i);
    }
    forall i' | 0 <= i' < n && i' != i
      ensures A'[i'] == A[i']
    {
      assert A'[i'] == RowAt(s', n, i') && A[i'] == RowAt(s, n, i');
      Indexing.InBounds(n, n, 0, i');
      if i' < i { Indexing.RowsApart(n, i', i); } else { Indexing.RowsApart(n, i, i'); }
    }
    assert A' == A[i := A[i][j := v]];
  }

  /** Sum of `u[c] * x[c]` over `lo <= c < hi`. */
  ghost function Dot(u: Vector, x: Vector, lo: nat, hi: nat): real
    requires hi <= |u| && hi <= |x|
    decreases hi
  {
    if hi <= lo then 0.0 else Dot(u, x, lo, hi - 1) + u[hi - 1] * x[hi - 1]
  }

  ghost predicate Solves(A: Matrix, b: Vector, x: Vector) {
    && IsMatrix(A, |x|) && |b| == |x|
    && forall i :: 0 <= i < |x| ==> Dot(A[i], x, 0, |x|) == b[i]
  }

  ghost predicate SoleSolution(A: Matrix, b: Vector, x: Vector) {
    Solves(A, b, x) && forall y: Vector :: |y| == |x| && Solves(A, b, y) ==> y == x
  }

  /** A maps some nonzero vector to zero. */
  ghost predicate IsSingular(A: Matrix, n: nat) {
    IsMatrix(A, n) && exists z: Vector :: |z| == n && z != Zeros(n) && Solves(A, Zeros(n), z)
  }

  function Abs(x: real): real {
    if x < 0.0 then -x else x
  }

  function Pow2(e: nat): (p: real)
    ensures p > 0.0
  {
    if e == 0 then 1.0 else 2.0 * Pow2(e - 1)
  }

  /** Largest absolute value in a buffer, 0 for an empty one. */
  function MaxAbs(s: seq<real>): (m: real)
    ensures m >= 0.0
    ensures forall i :: 0 <= i < |s| ==> Abs(s[i]) <= m
    ensures m == 0.0 || exists i :: 0 <= i < |s| && Abs(s[i]) == m
  {
    if s == [] then 0.0
    else
      var m := MaxAbs(s[..|s| - 1]);
      var v := Abs(s[|s| - 1]);
      assert forall i :: 0 <= i < |s| - 1 ==> s[..|s| - 1][i] == s[i];
      if m < v then v else m
  }

  /** Pivots below this count as zero: relative to the largest entry, and the smallest normal
      double (two to the power -1022) for the zero matrix. */
  function Tiny(s: seq<real>): (t: real)
    ensures t > 0.0
  {
    var anorm := MaxAbs(s);
    if anorm > 0.0 then anorm * 0.0000000000001 else 1.0 / Pow2(1022)
  }

  /** The first `k` rows annihilate `z` and every other row sends it below `t`. */
  ghost predicate SmallImage(A: Matrix, z: Vector, k: nat, t: real) {
    && IsMatrix(A, |z|)
    && (forall i :: 0 <= i < k && i < |z| ==> Dot(A[i], z, 0, |z|) == 0.0)
    && (forall i :: k <= i < |z| ==> Abs(Dot(A[i], z, 0, |z|)) < t)
  }

  /** A sends a vector with unit component `c` below `t` in every row. */
  ghost predicate NearlySingular(A: Matrix, n: nat, c: nat, t: real) {
    c < n && exists z: Vector :: |z| == n && z[c] == 1.0 && SmallImage(A, z, 0, t)
  }

  // ---------------------------------------------------------------- row operations

  ghost function SwapRows<T>(A: seq<T>, k: nat, p: nat): seq<T>
    requires k < |A| && p < |A|
  {
    A[k := A[p]][p := A[k]]
  }

  ghost function RowSub(u: Vector, m: real, v: Vector): (w: Vector)
    requires |u| == |v|
    ensures |w| == |u| && forall j :: 0 <= j < |u| ==> w[j] == u[j] - m * v[j]
  {
    seq(|u|, j requires 0 <= j < |u| => u[j] - m * v[j])
  }

  /** Subtract `m` times row `k` from row `r`. */
  ghost function Eliminate(A: Matrix, r: nat, m: real, k: nat): Matrix
    requires r < |A| && k < |A| && |A[r]| == |A[k]|
  {
    A[r := RowSub(A[r], m, A[k])]
  }

  ghost predicate SameSolutions(A: Matrix, b: Vector, A': Matrix, b': Vector, n: nat) {
    forall x: Vector :: |x| == n ==> (Solves(A, b, x) <==> Solves(A', b', x))
  }

  /** Whatever vector the later matrix `U` sends below a bound, leaving its first `k` rows at
      zero, the matrix `A` (with its first `k0` rows at zero) sends below the same bound. */
  ghost predicate PullsBack(A: Matrix, k0: nat, U: Matrix, k: nat, n: nat) {
    forall z: Vector, t: real :: |z| == n && 0.0 < t && SmallImage(U, z, k, t) ==> SmallImage(A, z, k0, t)
  }

  lemma {:induction false} DotZero(u: Vector, x: Vector, lo: nat, hi: nat)
    requires hi <= |u| && hi <= |x|
    requires forall c :: lo <= c < hi ==> u[c] == 0.0 || x[c] == 0.0
    ensures Dot(u, x, lo, hi) == 0.0
    decreases hi
  {
    if lo < hi { DotZero(u, x, lo, hi - 1); }
  }

  lemma {:induction false} DotSplit(u: Vector, x: Vector, lo: nat, mid: nat, hi: nat)
    requires lo <= mid <= hi <= |u| && hi <= |x|
    ensures Dot(u, x, lo, hi) == Dot(u, x, lo, mid) + Dot(u, x, mid, hi)
    decreases hi
  {
    if mid < hi { DotSplit(u, x, lo, mid, hi - 1); }
  }

  lemma {:induction false} DotAgree(u: Vector, x: Vector, x': Vector, lo: nat, hi: nat)
    requires hi <= |u| && hi <= |x| && hi <= |x'|
    requires forall c :: lo <= c < hi ==> x[c] == x'[c]
    ensures Dot(u, x, lo, hi) == Dot(u, x', lo, hi)
    decreases hi
  {
    if lo < hi { DotAgree(u, x, x', lo, hi - 1); }
  }

  lemma {:induction false} DotRowSub(u: Vector, m: real, v: Vector, x: Vector, hi: nat)
    requires |u| == |v| && hi <= |u| && hi <= |x|
    ensures Dot(RowSub(u, m, v), x, 0, hi) == Dot(u, x, 0, hi) - m * Dot(v, x, 0, hi)
    decreases hi
  {
    if 0 < hi { DotRowSub(u, m, v, x, hi - 1); }
  }

  lemma {:induction false} DotPlus(u: Vector, x: Vector, z: Vector, hi: nat)
    requires |x| == |z| && hi <= |u| && hi <= |x|
    ensures Dot(u, Plus(x, z), 0, hi) == Dot(u, x, 0, hi) + Dot(u, z, 0, hi)
    decreases hi
  {
    if 0 < hi { DotPlus(u, x, z, hi - 1); }
  }

  /** Swapping two equations keeps the solution set, and a bound on the image. */
  lemma {:induction false} SwapKeepsSolutions(A: Matrix, b: Vector, k: nat, p: nat, n: nat)
    requires IsMatrix(A, n) && |b| == n && k <= p < n
    ensures IsMatrix(SwapRows(A, k, p), n)
    ensures SameSolutions(A, b, SwapRows(A, k, p), SwapRows(b, k, p), n)
    ensures PullsBack(A, k, SwapRows(A, k, p), k, n)
  {
    var A', b' := SwapRows(A, k, p), SwapRows(b, k, p);
    forall x: Vector | |x| == n
      ensures Solves(A, b, x) <==> Solves(A', b', x)
    {
      assert A[k] == A'[p] && A[p] == A'[k] && b[k] == b'[p] && b[p] == b'[k];
      assert forall i :: 0 <= i < n && i != k && i != p ==> A[i] == A'[i] && b[i] == b'[i];
    }
    forall z: Vector, t: real | |z| == n && 0.0 < t && SmallImage(A', z, k, t)
      ensures SmallImage(A, z, k, t)
    {
      assert A[k] == A'[p] && A[p] == A'[k];
      assert forall i :: 0 <= i < n && i != k && i != p ==> A[i] == A'[i];
    }
  }

  lemma {:induction false} EliminateKeepsOne(A: Matrix, b: Vector, r: nat, m: real, k: nat, x: Vector, c: real)
    requires IsMatrix(A, |x|) && |b| == |x| && k < r < |x| && c == b[r] - m * b[k]
    ensures Solves(A, b, x) <==> Solves(Eliminate(A, r, m, k), b[r := c], x)
  {
    var n := |x|;
    var A', b' := Eliminate(A, r, m, k), b[r := c];
    var d, e := Dot(A[k], x, 0, n), Dot(A[r], x, 0, n);
    assert Dot(A'[r], x, 0, n) == e - m * d by { DotRowSub(A[r], m, A[k], x, n); }
    assert A'[k] == A[k] && b'[k] == b[k] && b'[r] == c;
    assert forall i :: 0 <= i < n && i != r ==> A[i] == A'[i] && b[i] == b'[i];
    hide Eliminate, RowSub;
    if d == b[k] {
      assert m * d == m * b[k];
      assert Dot(A'[r], x, 0, n) - b'[r] == e - b[r];
      hide Dot;
      if Solves(A, b, x) {
        assert forall i :: 0 <= i < n && i != r ==> Dot(A'[i], x, 0, n) == b'[i];
      }
      if Solves(A', b', x) {
        assert forall i :: 0 <= i < n && i != r ==> Dot(A[i], x, 0, n) == b[i];
      }
    }
  }

  lemma {:induction false} EliminatePullsBackOne(A: Matrix, r: nat, m: real, k: nat, z: Vector, t: real)
    requires IsMatrix(A, |z|) && k < r < |z|
    requires SmallImage(Eliminate(A, r, m, k), z, k + 1, t)
    ensures SmallImage(A, z, k + 1, t)
  {
    var A' := Eliminate(A, r, m, k);
    DotRowSub(A[r], m, A[k], z, |z|);
    assert A'[k] == A[k];
    assert Dot(A'[r], z, 0, |z|) == Dot(A[r], z, 0, |z|);
    assert forall i :: 0 <= i < |z| && i != r ==> A[i] == A'[i];
  }

  /** Eliminating with row `k` keeps the solution set, and a bound on the image of every
      vector that row `k` annihilates. */
  lemma {:induction false} EliminateKeepsSolutions(A: Matrix, b: Vector, r: nat, m: real, k: nat, n: nat, c: real)
    requires IsMatrix(A, n) && |b| == n && k < r < n && c == b[r] - m * b[k]
    ensures IsMatrix(Eliminate(A, r, m, k), n)
    ensures SameSolutions(A, b, Eliminate(A, r, m, k), b[r := c], n)
    ensures PullsBack(A, k + 1, Eliminate(A, r, m, k), k + 1, n)
  {
    var k' := k + 1;
    hide Solves, SmallImage, RowSub, Dot;
    forall x: Vector | |x| == n
      ensures Solves(A, b, x) <==> Solves(Eliminate(A, r, m, k), b[r := c], x)
    {
      EliminateKeepsOne(A, b, r, m, k, x, c);
    }
    forall z: Vector, t: real | |z| == n && 0.0 < t && SmallImage(Eliminate(A, r, m, k), z, k', t)
      ensures SmallImage(A, z, k', t)
    {
      EliminatePullsBackOne(A, r, m, k, z, t);
    }
  }

  /** A system with exactly one solution has a nonsingular matrix: adding a null vector to the
      solution would give a second one. */
  lemma {:induction false} SoleSolutionIsNonsingular(A: Matrix, b: Vector, x: Vector)
    requires SoleSolution(A, b, x)
    ensures !IsSingular(A, |x|)
  {
    forall z: Vector | |z| == |x| && Solves(A, Zeros(|x|), z)
      ensures z == Zeros(|x|)
    {
      forall i | 0 <= i < |x| ensures Dot(A[i], Plus(x, z), 0, |x|) == b[i] {
        DotPlus(A[i], x, z, |x|);
      }
      assert Solves(A, b, Plus(x, z));
      assert forall i :: 0 <= i < |x| ==> Plus(x, z)[i] == x[i];
    }
  }

  lemma {:induction false} SoleSolutionTransfers(A: Matrix, b: Vector, U: Matrix, c: Vector, x: Vector)
    requires SameSolutions(A, b, U, c, |x|) && SoleSolution(U, c, x)
    ensures SoleSolution(A, b, x)
  {
  }

  // ---------------------------------------------------------------- the solver

  /** The first `k` columns are zero below the diagonal and nonzero on it. */
  ghost predicate Reduced(U: Matrix, k: nat, n: nat) {
    && IsMatrix(U, n)
    && (forall r, c :: 0 <= c < k && c < r < n ==> U[r][c] == 0.0)
    && (forall c :: 0 <= c < k && c < n ==> U[c][c] != 0.0)
  }

  // ---------------------------------------------------------------- the elimination itself

  /** The first of the rows from `k` to before `hi` whose entry in column `k` is largest. */
  ghost function FirstLargest(U: Matrix, k: nat, hi: nat, n: nat): (p: nat)
    requires IsMatrix(U, n) && k < hi <= n
    ensures k <= p < hi
    ensures forall r :: k <= r < hi ==> Abs(U[r][k]) <= Abs(U[p][k])
    ensures forall r :: k <= r < p ==> Abs(U[r][k]) < Abs(U[p][k])
  {
    if hi == k + 1 then k
    else
      var p := FirstLargest(U, k, hi - 1, n);
      if Abs(U[hi - 1][k]) > Abs(U[p][k]) then hi - 1 else p
  }

  /** Every row below `k` and before `hi` cleared in column `k` by a multiple of row `k`. */
  ghost function Cleared(U: Matrix, k: nat, hi: nat, n: nat): (V: Matrix)
    requires IsMatrix(U, n) && k < hi <= n
    ensures IsMatrix(V, n)
  {
    if hi == k + 1 then U
    else
      var V := Cleared(U, k, hi - 1, n);
      Eliminate(V, hi - 1, if V[k][k] == 0.0 then 0.0 else Quotient(V[hi - 1][k], V[k][k]), k)
  }

  /** The matrix after the first `k` columns. */
  ghost function Forward(A: Matrix, k: nat, n: nat): (U: Matrix)
    requires IsMatrix(A, n) && k <= n
    ensures IsMatrix(U, n)
  {
    if k == 0 then A
    else
      var U := Forward(A, k - 1, n);
      Cleared(SwapRows(U, k - 1, FirstLargest(U, k - 1, n, n)), k - 1, n, n)
  }

  /** The size of the pivot of column `k`. */
  ghost function PivotSize(A: Matrix, k: nat, n: nat): real
    requires IsMatrix(A, n) && k < n
  {
    var U := Forward(A, k, n);
    Abs(U[FirstLargest(U, k, n, n)][k])
  }

  /** Column `k` is the first whose pivot is below the threshold. */
  ghost predicate GivesUp(s: seq<real>, n: nat, k: nat) {
    && IsSquare(|s|, n) && k < n
    && PivotSize(Rows(s, n), k, n) < Tiny(s)
    && forall j: nat :: j < k ==> Tiny(s) <= PivotSize(Rows(s, n), j, n)
  }

  /** Row `i` of a triangular system, written with the diagonal entry apart. */
  lemma {:induction false} TriangularRow(U: Matrix, k: nat, n: nat, i: nat, x: Vector)
    requires Reduced(U, k, n) && |x| == n && i < n && i <= k
    ensures Dot(U[i], x, 0, n) == U[i][i] * x[i] + Dot(U[i], x, i + 1, n)
    ensures Dot(U[i], x, i, n) == U[i][i] * x[i] + Dot(U[i], x, i + 1, n)
  {
    DotZero(U[i], x, 0, i);
    DotSplit(U[i], x, 0, i, n);
    DotSplit(U[i], x, i, i + 1, n);
  }

  function Quotient(v: real, p: real): (q: real)
    requires p != 0.0
    ensures q * p == v
    ensures q == 0.0 <==> v == 0.0
  {
    v / p
  }

  lemma {:induction false} Cancel(p: real, x: real, y: real, d: real, tail: real)
    requires p != 0.0 && d == p * x + tail && d == p * y + tail
    ensures x == y
  {
    assert p * (x - y) == 0.0;
  }

  /** A triangular system has at most one solution. */
  lemma {:induction false} TriangularUnique(U: Matrix, b: Vector, n: nat, x: Vector, y: Vector)
    requires Reduced(U, n, n) && |x| == n && |y| == n
    requires Solves(U, b, x) && Solves(U, b, y)
    ensures x == y
  {
    hide Dot;
    var i := n;
    while i > 0
      invariant 0 <= i <= n
      invariant forall c :: i <= c < n ==> x[c] == y[c]
    {
      i := i - 1;
      TriangularRow(U, n, n, i, x);
      TriangularRow(U, n, n, i, y);
      DotAgree(U[i], x, y, i + 1, n);
      var p, xi, yi := U[i][i], x[i], y[i];
      var tx, ty := Dot(U[i], x, i + 1, n), Dot(U[i], y, i + 1, n);
      assert tx == ty;
      assert Dot(U[i], x, 0, n) == p * xi + tx;
      assert Dot(U[i], y, 0, n) == p * yi + ty;
      assert Dot(U[i], x, 0, n) == b[i] == Dot(U[i], y, 0, n);
      Cancel(p, xi, yi, b[i], tx);
    }
  }

  /** A vector with unit component `k`, zero beyond it, that the first `k` rows annihilate. */
  lemma {:induction false} KernelOfHead(U: Matrix, k: nat, n: nat) returns (z: Vector)
    requires k < n && Reduced(U, k, n)
    ensures |z| == n && z[k] == 1.0 && forall c :: k < c < n ==> z[c] == 0.0
    ensures forall j :: 0 <= j < k ==> Dot(U[j], z, 0, n) == 0.0
  {
    hide Dot;
    z := Zeros(n)[k := 1.0];
    var i := k;
    while i > 0
      invariant 0 <= i <= k && |z| == n && z[k] == 1.0
      invariant forall c :: k < c < n ==> z[c] == 0.0
      invariant forall j :: i <= j < k ==> Dot(U[j], z, j, n) == 0.0
    {
      i := i - 1;
      var tail := Dot(U[i], z, i + 1, n);
      var q := -tail / U[i][i];
      assert U[i][i] * q == -tail;
      var z' := z[i := q];
      TriangularRow(U, k, n, i, z');
      DotAgree(U[i], z, z', i + 1, n);
      forall j | i < j < k ensures Dot(U[j], z', j, n) == 0.0 {
        DotAgree(U[j], z, z', j, n);
      }
      z := z';
    }
    forall j | 0 <= j < k ensures Dot(U[j], z, 0, n) == 0.0 {
      TriangularRow(U, k, n, j, z);
    }
  }

  /** A reduced matrix whose next column is tiny from the diagonal down sends some vector with
      unit component there below that bound, and so does the matrix it was reduced from. */
  lemma {:induction false} TinyColumnIsNearlySingular(A0: Matrix, U: Matrix, k: nat, n: nat, t: real)
    requires k < n && Reduced(U, k, n) && 0.0 < t
    requires forall r :: k <= r < n ==> Abs(U[r][k]) < t
    requires PullsBack(A0, 0, U, k, n)
    ensures NearlySingular(A0, n, k, t)
  {
    var z := KernelOfHead(U, k, n);
    forall r | k <= r < n ensures Abs(Dot(U[r], z, 0, n)) < t {
      OneEntryDot(U[r], z, k, n);
    }
    assert SmallImage(U, z, k, t);
  }

  /** With one nonzero product, the dot product is that product. */
  lemma {:induction false} OneEntryDot(u: Vector, z: Vector, k: nat, n: nat)
    requires |u| == n && |z| == n && k < n && z[k] == 1.0
    requires forall c :: 0 <= c < n && c != k ==> u[c] == 0.0 || z[c] == 0.0
    ensures Dot(u, z, 0, n) == u[k]
  {
    DotZero(u, z, 0, k);
    DotZero(u, z, k + 1, n);
    DotSplit(u, z, 0, k, n);
    DotSplit(u, z, k, k + 1, n);
    assert Dot(u, z, k, k) == 0.0;
  }

  method ReadEntry(a: array<real>, n: nat, i: nat, j: nat) returns (v: real)
    requires IsSquare(a.Length, n) && i < n && j < n
    ensures v == Rows(a[..], n)[i][j]
  {
    hide Rows, RowAt;
    EntryAt(a[..], n, i, j);
    v := a[i * n + j];
  }

  method WriteEntry(a: array<real>, n: nat, i: nat, j: nat, v: real)
    requires IsSquare(a.Length, n) && i < n && j < n
    modifies a
    ensures Rows(a[..], n) == Rows(old(a[..]), n)[i := Rows(old(a[..]), n)[i][j := v]]
  {
    hide Rows, RowAt;
    ghost var s := a[..];
    EntryWrite(s, n, i, j, v);
    a[i * n + j] := v;
    assert a[..] == s[i * n + j := v];
  }

  /** Row of the largest absolute entry of column `k`, at or below the diagonal. */
  method FindPivot(a: array<real>, n: nat, k: nat) returns (p: nat, pmax: real)
    requires IsSquare(a.Length, n) && k < n
    ensures k <= p < n && pmax == Abs(Rows(a[..], n)[p][k])
    ensures forall r :: k <= r < n ==> Abs(Rows(a[..], n)[r][k]) <= pmax
    ensures p == FirstLargest(Rows(a[..], n), k, n, n)
  {
    hide IsSquare, Rows, RowAt, Abs;
    var v := ReadEntry(a, n, k, k);
    p, pmax := k, Abs(v);
    for r := k + 1 to n
      invariant p == FirstLargest(Rows(a[..], n), k, r, n) && pmax == Abs(Rows(a[..], n)[p][k])
    {
      v := ReadEntry(a, n, r, k);
      if Abs(v) > pmax {
        pmax, p := Abs(v), r;
      }
    }
  }

  /** Swap rows `k` and `p` from column `k` on; the columns before are zero in both. */
  method SwapTails(a: array<real>, n: nat, k: nat, p: nat)
    requires IsSquare(a.Length, n) && k < p < n
    requires Reduced(Rows(a[..], n), k, n)
    modifies a
    ensures Rows(a[..], n) == SwapRows(Rows(old(a[..]), n), k, p)
  {
    hide IsSquare, Rows, RowAt;
    ghost var U := Rows(a[..], n);
    for c := k to n
      invariant IsMatrix(Rows(a[..], n), n)
      invariant forall i :: 0 <= i < n && i != k && i != p ==> Rows(a[..], n)[i] == U[i]
      invariant forall j :: 0 <= j < c ==> Rows(a[..], n)[k][j] == U[p][j] && Rows(a[..], n)[p][j] == U[k][j]
      invariant forall j :: c <= j < n ==> Rows(a[..], n)[k][j] == U[k][j] && Rows(a[..], n)[p][j] == U[p][j]
    {
      SwapEntry(a, n, k, p, c);
    }
    assert Rows(a[..], n)[k] == U[p] && Rows(a[..], n)[p] == U[k];
  }

  method SwapEntry(a: array<real>, n: nat, k: nat, p: nat, c: nat)
    requires IsSquare(a.Length, n) && k < p < n && c < n
    modifies a
    ensures var U := Rows(old(a[..]), n);
            Rows(a[..], n) == U[k := U[k][c := U[p][c]]][p := U[p][c := U[k][c]]]
  {
    hide IsSquare, Rows, RowAt;
    var vk := ReadEntry(a, n, k, c);
    var vp := ReadEntry(a, n, p, c);
    WriteEntry(a, n, k, c, vp);
    WriteEntry(a, n, p, c, vk);
  }

  /** Clear column `k` of row `r` by subtracting `m` times row `k`. */
  method EliminateRow(a: array<real>, n: nat, r: nat, k: nat, m: real)
    requires IsSquare(a.Length, n) && k < r < n
    requires Reduced(Rows(a[..], n), k, n)
    requires m * Rows(a[..], n)[k][k] == Rows(a[..], n)[r][k]
    modifies a
    ensures Rows(a[..], n) == Eliminate(Rows(old(a[..]), n), r, m, k)
  {
    hide IsSquare, Rows, RowAt;
    ghost var U := Rows(a[..], n);
    ghost var target := RowSub(U[r], m, U[k]);
    forall j | 0 <= j <= k ensures target[j] == 0.0 {
      if j < k { assert U[k][j] == 0.0; }
    }
    hide RowSub;
    WriteEntry(a, n, r, k, 0.0);
    for c := k + 1 to n
      invariant IsMatrix(Rows(a[..], n), n)
      invariant forall i :: 0 <= i < n && i != r ==> Rows(a[..], n)[i] == U[i]
      invariant forall j :: 0 <= j < c ==> Rows(a[..], n)[r][j] == target[j]
      invariant forall j :: c <= j < n ==> Rows(a[..], n)[r][j] == U[r][j]
    {
      var v := ReadEntry(a, n, r, c);
      var pv := ReadEntry(a, n, k, c);
      WriteEntry(a, n, r, c, v - m * pv);
    }
    assert Rows(a[..], n)[r] == target;
  }

  /** Eliminate column `k` below its nonzero pivot. */
  method EliminateColumn(a: array<real>, b: array<real>, n: nat, k: nat)
    requires IsSquare(a.Length, n) && b.Length == n && a != b && k < n
    requires Reduced(Rows(a[..], n), k, n) && Rows(a[..], n)[k][k] != 0.0
    modifies a, b
    ensures Reduced(Rows(a[..], n), k + 1, n)
    ensures SameSolutions(Rows(old(a[..]), n), old(b[..]), Rows(a[..], n), b[..], n)
    ensures PullsBack(Rows(old(a[..]), n), k + 1, Rows(a[..], n), k + 1, n)
    ensures Rows(a[..], n) == Cleared(Rows(old(a[..]), n), k, n, n)
  {
    hide IsSquare, Rows, RowAt, SameSolutions, PullsBack, RowSub, Cleared;
    ghost var U0, c0 := Rows(a[..], n), b[..];
    ClearedNone(U0, k, n);
    var pivot := ReadEntry(a, n, k, k);
    NoStep(U0, c0, k + 1, n);
    for r := k + 1 to n
      invariant Reduced(Rows(a[..], n), k, n)
      invariant Rows(a[..], n)[k][k] == pivot
      invariant Rows(a[..], n) == Cleared(U0, k, r, n)
      invariant forall i :: k < i < r ==> Rows(a[..], n)[i][k] == 0.0
      invariant SameSolutions(U0, c0, Rows(a[..], n), b[..], n)
      invariant PullsBack(U0, k + 1, Rows(a[..], n), k + 1, n)
    {
      ghost var U, c := Rows(a[..], n), b[..];
      var v := ReadEntry(a, n, r, k);
      var m := Quotient(v, pivot);
      if m != 0.0 {
        var rhs := b[r] - m * b[k];
        EliminateKeepsSolutions(U, c, r, m, k, n, rhs);
        EliminateRow(a, n, r, k, m);
        assert b[..] == c;
        b[r] := rhs;
        assert b[..] == c[r := rhs];
        ComposeSteps(U0, c0, U, c, Rows(a[..], n), b[..], k + 1, k + 1, k + 1, n);
      } else {
        EliminateNothing(U, r, k);
      }
      ClearedGrows(U0, k, r, n, U, m, Rows(a[..], n));
    }
  }

  lemma {:induction false} ClearedNone(U: Matrix, k: nat, n: nat)
    requires IsMatrix(U, n) && k < n
    ensures Cleared(U, k, k + 1, n) == U
  {
  }

  lemma {:induction false} NothingReduced(U: Matrix, n: nat)
    requires IsMatrix(U, n)
    ensures Reduced(U, 0, n) && Forward(U, 0, n) == U
  {
  }

  /** One more row cleared, whether or not there is anything to subtract. */
  lemma {:induction false} ClearedGrows(U: Matrix, k: nat, r: nat, n: nat, V: Matrix, m: real, W: Matrix)
    requires IsMatrix(U, n) && k < r < n && V == Cleared(U, k, r, n) && V[k][k] != 0.0
    requires m == Quotient(V[r][k], V[k][k]) && W == Eliminate(V, r, m, k)
    ensures Cleared(U, k, r + 1, n) == W
  {
  }

  lemma {:induction false} EliminateNothing(U: Matrix, r: nat, k: nat)
    requires r < |U| && k < |U| && |U[r]| == |U[k]|
    ensures Eliminate(U, r, 0.0, k) == U
  {
    assert RowSub(U[r], 0.0, U[k]) == U[r];
  }

  lemma {:induction false} NoStep(A: Matrix, a: Vector, k: nat, n: nat)
    ensures SameSolutions(A, a, A, a, n) && PullsBack(A, k, A, k, n)
  {
  }

  /** Solution-set equality and bound pull-back compose. */
  lemma {:induction false} ComposeSteps(A: Matrix, a: Vector, B: Matrix, b: Vector, C: Matrix, c: Vector,
                     kA: nat, kB: nat, kC: nat, n: nat)
    requires SameSolutions(A, a, B, b, n) && SameSolutions(B, b, C, c, n)
    requires PullsBack(A, kA, B, kB, n) && PullsBack(B, kB, C, kC, n)
    ensures SameSolutions(A, a, C, c, n) && PullsBack(A, kA, C, kC, n)
  {
  }

  /** The right-hand side of row `k` minus the part of the row beyond the diagonal. */
  method TailResidual(a: array<real>, b: array<real>, xs: array<real>, n: nat, k: nat) returns (s: real)
    requires IsSquare(a.Length, n) && b.Length == n && xs.Length == n && k < n
    ensures s == b[k] - Dot(Rows(a[..], n)[k], xs[..], k + 1, n)
  {
    hide IsSquare, Rows, RowAt;
    s := b[k];
    for c := k + 1 to n
      invariant s == b[k] - Dot(Rows(a[..], n)[k], xs[..], k + 1, c)
    {
      var v := ReadEntry(a, n, k, c);
      s := s - v * xs[c];
    }
  }

  /** Solve a triangular system from the last row up. */
  method BackSubstitute(a: array<real>, b: array<real>, n: nat) returns (x: Vector)
    requires IsSquare(a.Length, n) && b.Length == n
    requires Reduced(Rows(a[..], n), n, n)
    ensures |x| == n && SoleSolution(Rows(a[..], n), b[..], x)
  {
    hide IsSquare, Rows, RowAt, Dot;
    ghost var U := Rows(a[..], n);
    var xs := new real[n](_ => 0.0);
    var k := n;
    while k > 0
      invariant 0 <= k <= n && Rows(a[..], n) == U
      invariant forall i :: k <= i < n ==> Dot(U[i], xs[..], i, n) == b[i]
    {
      k := k - 1;
      var s := TailResidual(a, b, xs, n, k);
      ghost var before := xs[..];
      var p := ReadEntry(a, n, k, k);
      var q := Quotient(s, p);
      xs[k] := q;
      TailsStillSolved(U, n, k, before, xs[..], b[..], p, q);
    }
    x := xs[..];
    TriangularSolved(U, n, x, b[..]);
  }

  /** Setting component `k` solves row `k` and disturbs no later row. */
  lemma {:induction false} TailsStillSolved(U: Matrix, n: nat, k: nat, before: Vector, x: Vector, b: Vector, p: real,
                                            q: real)
    requires Reduced(U, n, n) && k < n && |before| == n && x == before[k := q] && |b| == n
    requires p == U[k][k] && p * q == b[k] - Dot(U[k], before, k + 1, n)
    requires forall i :: k < i < n ==> Dot(U[i], before, i, n) == b[i]
    ensures forall i :: k <= i < n ==> Dot(U[i], x, i, n) == b[i]
  {
    hide Dot;
    forall i | k <= i < n ensures Dot(U[i], x, i, n) == b[i] {
      if i == k {
        DotAgree(U[k], before, x, k + 1, n);
        RowSolved(U, n, k, x, p * q, b[k]);
      } else {
        DotAgree(U[i], before, x, i, n);
      }
    }
  }

  lemma {:induction false} RowSolved(U: Matrix, n: nat, k: nat, x: Vector, t: real, rhs: real)
    requires Reduced(U, n, n) && k < n == |x| && t == U[k][k] * x[k] && t == rhs - Dot(U[k], x, k + 1, n)
    ensures Dot(U[k], x, k, n) == rhs
  {
    TriangularRow(U, n, n, k, x);
    hide Dot;
  }

  lemma {:induction false} TriangularSolved(U: Matrix, n: nat, x: Vector, b: Vector)
    requires Reduced(U, n, n) && |x| == n && |b| == n
    requires forall i :: 0 <= i < n ==> Dot(U[i], x, i, n) == b[i]
    ensures SoleSolution(U, b, x)
  {
    hide Dot;
    forall i | 0 <= i < n ensures Dot(U[i], x, 0, n) == b[i] {
      TriangularRow(U, n, n, i, x);
    }
    forall y: Vector | |y| == n && Solves(U, b, y) ensures y == x {
      TriangularUnique(U, b, n, x, y);
    }
  }

  lemma {:induction false} PullBackWeaken(V: Matrix, U: Matrix, k: nat, n: nat)
    requires PullsBack(V, k + 1, U, k + 1, n)
    ensures PullsBack(V, k, U, k + 1, n)
  {
    var k' := k + 1;
    forall z: Vector, t: real | |z| == n && 0.0 < t && SmallImage(U, z, k', t)
      ensures SmallImage(V, z, k, t)
    {
      assert SmallImage(V, z, k', t);
    }
  }

  /** Bring row `p` to the diagonal and eliminate column `k` below it. */
  method ReduceColumn(a: array<real>, b: array<real>, n: nat, k: nat, p: nat)
    requires IsSquare(a.Length, n) && b.Length == n && a != b && k <= p < n
    requires Reduced(Rows(a[..], n), k, n) && Rows(a[..], n)[p][k] != 0.0
    modifies a, b
    ensures Reduced(Rows(a[..], n), k + 1, n)
    ensures SameSolutions(Rows(old(a[..]), n), old(b[..]), Rows(a[..], n), b[..], n)
    ensures PullsBack(Rows(old(a[..]), n), k, Rows(a[..], n), k + 1, n)
    ensures Rows(a[..], n) == Cleared(SwapRows(Rows(old(a[..]), n), k, p), k, n, n)
  {
    hide IsSquare, Rows, RowAt, SameSolutions, PullsBack, Cleared;
    ghost var U, c := Rows(a[..], n), b[..];
    SwapKeepsSolutions(U, c, k, p, n);
    if p != k {
      SwapTails(a, n, k, p);
      b[k], b[p] := b[p], b[k];
    }
    assert b[..] == SwapRows(c, k, p);
    ghost var V, d := Rows(a[..], n), b[..];
    assert V == SwapRows(U, k, p);
    EliminateColumn(a, b, n, k);
    PullBackWeaken(V, Rows(a[..], n), k, n);
    ComposeSteps(U, c, V, d, Rows(a[..], n), b[..], k, k, k + 1, n);
  }

  /** Solve A x = b by elimination with partial pivoting, reducing both buffers in place. */
  method SolveDense(a: array<real>, b: array<real>, n: nat) returns (res: SolveResult)
    requires IsSquare(a.Length, n) && b.Length == n && a != b
    modifies a, b
    ensures res.Ok? ==> |res.x| == n && SoleSolution(Rows(old(a[..]), n), old(b[..]), res.x)
    ensures IsSingular(Rows(old(a[..]), n), n) ==> res.Singular?
    ensures res.Singular? ==>
              NearlySingular(Rows(old(a[..]), n), n, res.column, Tiny(old(a[..])))
    ensures res.Singular? ==> GivesUp(old(a[..]), n, res.column)
    ensures res.Ok? ==> forall k :: !GivesUp(old(a[..]), n, k)
  {
    hide IsSquare, Rows, RowAt, SameSolutions, PullsBack, NearlySingular, SoleSolution, IsSingular, Cleared, SwapRows,
         Tiny, Reduced;
    ghost var A0, b0 := Rows(a[..], n), b[..];
    var tiny := Tiny(a[..]);
    NoStep(A0, b0, 0, n);
    NothingReduced(A0, n);
    var k := 0;
    while k < n
      invariant 0 <= k <= n
      invariant Reduced(Rows(a[..], n), k, n)
      invariant SameSolutions(A0, b0, Rows(a[..], n), b[..], n)
      invariant PullsBack(A0, 0, Rows(a[..], n), k, n)
      invariant Rows(a[..], n) == Forward(A0, k, n)
      invariant forall j: nat :: j < k ==> tiny <= PivotSize(A0, j, n)
    {
      ghost var U, c := Rows(a[..], n), b[..];
      var p, pmax := FindPivot(a, n, k);
      if pmax < tiny {
        TinyColumnIsNearlySingular(A0, U, k, n, tiny);
        return Singular(k);
      }
      ReduceColumn(a, b, n, k, p);
      ComposeSteps(A0, b0, U, c, Rows(a[..], n), b[..], 0, k, k + 1, n);
      k := k + 1;
    }
    var x := BackSubstitute(a, b, n);
    SoleSolutionTransfers(A0, b0, Rows(a[..], n), b[..], x);
    SoleSolutionIsNonsingular(A0, b0, x);
    res := Ok(x);
  }
}
