/** The global photometric adjustment: per-panel offsets and log-gain potentials from the edge
    statistics, gauged at one reference panel per connected component
    (crates/mmm-core/src/photometry.rs). */
module Photometry {
  import opened Components
  import opened Entrywise
  import opened LeastSquares
  import opened Linalg
  import opened Reals

  // ---------------------------------------------------------------- sparse accumulation

  type Sparse = seq<(nat, real)>

  ghost predicate SparseIn(coeffs: Sparse, n: nat) {
    forall k :: 0 <= k < |coeffs| ==> coeffs[k].0 < n
  }

  /** The coefficient vector a sparse list stands for; repeated indices add up. */
  ghost function Dense(coeffs: Sparse, n: nat): (d: Vector)
    requires SparseIn(coeffs, n)
    ensures |d| == n
  {
    if coeffs == [] then Zeros(n)
    else
      var (i, c) := coeffs[|coeffs| - 1];
      var d := Dense(coeffs[..|coeffs| - 1], n);
      d[i := d[i] + c]
  }

  ghost function Bump(A: Matrix, i: nat, j: nat, v: real): Matrix
    requires i < |A| && j < |A[i]|
  {
    A[i := A[i][j := A[i][j] + v]]
  }

  method AddEntry(a: array<real>, n: nat, i: nat, j: nat, v: real)
    requires IsSquare(a.Length, n) && i < n && j < n
    modifies a
    ensures Rows(a[..], n) == Bump(Rows(old(a[..]), n), i, j, v)
  {
    hide IsSquare, Rows, RowAt;
    var e := ReadEntry(a, n, i, j);
    WriteEntry(a, n, i, j, e + v);
  }

  /** One more coefficient of the outer index: row `i` of the outer sum gains `c` times `v`. */
  lemma {:induction false} OuterGrows(A: Matrix, u: Vector, v: Vector, i: nat, c: real)
    requires IsMatrix(A, |v|) && |u| == |v| && i < |v|
    ensures OuterAdd(A, u[i := u[i] + c], v) == OuterAdd(A, u, v)[i := AddScaled(OuterAdd(A, u, v)[i], c, v)]
  {
    var B, B' := OuterAdd(A, u, v), OuterAdd(A, u[i := u[i] + c], v);
    forall j | 0 <= j < |v| ensures B'[i][j] == AddScaled(B[i], c, v)[j] {
      Distribute(v[j], u[i], c);
      assert Mul(u[i] + c, v[j]) == Mul(u[i], v[j]) + Mul(c, v[j]);
    }
    assert B'[i] == AddScaled(B[i], c, v);
  }

  /** One more listed coefficient. */
  lemma {:induction false} DenseGrows(coeffs: Sparse, n: nat, p: nat)
    requires SparseIn(coeffs, n) && p < |coeffs|
    ensures SparseIn(coeffs[..p], n) && SparseIn(coeffs[..p + 1], n)
    ensures var d, (i, c) := Dense(coeffs[..p], n), coeffs[p];
            Dense(coeffs[..p + 1], n) == d[i := d[i] + c]
  {
    assert coeffs[..p + 1][..p] == coeffs[..p];
  }

  lemma {:induction false} ScaledBump(b: Vector, m: real, d: Vector, i: nat, c: real)
    requires |b| == |d| && i < |d|
    ensures AddScaled(b, m, d[i := d[i] + c]) == AddScaled(b, m, d)[i := AddScaled(b, m, d)[i] + Mul(m, c)]
  {
    Distribute(m, d[i], c);
    hide Mul;
  }

  lemma {:induction false} MulCommutes(x: real, y: real)
    ensures Mul(x, y) == Mul(y, x)
  {
  }

  /** Accumulate one least-squares row into the normal equations, listed coefficients only. */
  method AddRow(ata: array<real>, atb: array<real>, n: nat, coeffs: Sparse, rhs: real)
    requires IsSquare(ata.Length, n) && atb.Length == n && ata != atb && SparseIn(coeffs, n)
    modifies ata, atb
    ensures Rows(ata[..], n) == OuterAdd(Rows(old(ata[..]), n), Dense(coeffs, n), Dense(coeffs, n))
    ensures atb[..] == AddScaled(old(atb[..]), rhs, Dense(coeffs, n))
  {
    assert coeffs[..0] == [] && coeffs[..|coeffs|] == coeffs;
    ghost var A0, b0, D := Rows(ata[..], n), atb[..], Dense(coeffs, n);
    OuterNothing(A0, b0, rhs, D);
    assert Dense(coeffs[..0], n) == Zeros(n);
    hide IsSquare, Rows, RowAt, Dense, AddScaled, OuterAdd, Mul;
    for p := 0 to |coeffs|
      invariant Rows(ata[..], n) == OuterAdd(A0, Dense(coeffs[..p], n), D)
      invariant atb[..] == AddScaled(b0, rhs, Dense(coeffs[..p], n))
    {
      var (i, ci) := coeffs[p];
      ghost var d := Dense(coeffs[..p], n);
      DenseGrows(coeffs, n, p);
      AddRowOf(ata, n, coeffs, i, ci);
      OuterGrows(A0, d, D, i, ci);
      ScaledBump(b0, rhs, d, i, ci);
      MulCommutes(rhs, ci);
      ghost var b := atb[..];
      atb[i] := atb[i] + Mul(ci, rhs);
      assert atb[..] == b[i := b[i] + Mul(ci, rhs)];
    }
  }

  lemma {:induction false} OuterNothing(A: Matrix, b: Vector, rhs: real, v: Vector)
    requires IsMatrix(A, |v|) && |b| == |v|
    ensures OuterAdd(A, Zeros(|v|), v) == A
    ensures AddScaled(b, rhs, Zeros(|v|)) == b
  {
    var B := OuterAdd(A, Zeros(|v|), v);
    forall i | 0 <= i < |v| ensures B[i] == A[i] {}
  }

  /** The inner loop of `AddRow`: row `i` gains `ci` times the dense coefficients. */
  method AddRowOf(ata: array<real>, n: nat, coeffs: Sparse, i: nat, ci: real)
    requires IsSquare(ata.Length, n) && SparseIn(coeffs, n) && i < n
    modifies ata
    ensures var A := Rows(old(ata[..]), n);
            Rows(ata[..], n) == A[i := AddScaled(A[i], ci, Dense(coeffs, n))]
  {
    ghost var A := Rows(ata[..], n);
    assert coeffs[..0] == [] && coeffs[..|coeffs|] == coeffs;
    assert AddScaled(A[i], ci, Zeros(n)) == A[i];
    assert A[i := A[i]] == A;
    assert Dense(coeffs[..0], n) == Zeros(n);
    hide IsSquare, Rows, RowAt, Dense, AddScaled, Mul;
    for q := 0 to |coeffs|
      invariant Rows(ata[..], n) == A[i := AddScaled(A[i], ci, Dense(coeffs[..q], n))]
    {
      var (j, cj) := coeffs[q];
      DenseGrows(coeffs, n, q);
      ScaledBump(A[i], ci, Dense(coeffs[..q], n), j, cj);
      AddEntry(ata, n, i, j, Mul(ci, cj));
    }
  }

  /** `z` against a sparse row is the sum over the listed coefficients. */
  ghost function SparseDot(coeffs: Sparse, z: Vector): real
    requires SparseIn(coeffs, |z|)
  {
    if coeffs == [] then 0.0
    else SparseDot(coeffs[..|coeffs| - 1], z) + Mul(coeffs[|coeffs| - 1].1, z[coeffs[|coeffs| - 1].0])
  }

  lemma {:induction false} DotDense(coeffs: Sparse, z: Vector)
    requires SparseIn(coeffs, |z|)
    ensures Dot(Dense(coeffs, |z|), z, 0, |z|) == SparseDot(coeffs, z)
  {
    var n := |z|;
    if coeffs == [] {
      DotZero(Zeros(n), z, 0, n);
    } else {
      var init := coeffs[..|coeffs| - 1];
      var (i, c) := coeffs[|coeffs| - 1];
      DotDense(init, z);
      var d := Dense(init, n);
      var e := AddScaled(d, c, Unit(i, n));
      DotAddScaled(d, c, Unit(i, n), z, n);
      DotUnit(i, z);
      assert e == d[i := d[i] + c];
    }
  }

  /** Overwrite the listed rows with `z_r = 0`. */
  method OverwriteGauge(a: array<real>, b: array<real>, n: nat, refs: seq<nat>)
    requires IsSquare(a.Length, n) && b.Length == n && a != b
    requires forall r :: r in refs ==> r < n
    modifies a, b
    ensures IsGauged(Rows(old(a[..]), n), old(b[..]), refs, Rows(a[..], n), b[..], n)
  {
    hide IsSquare, Rows, RowAt;
    ghost var A, b0 := Rows(a[..], n), b[..];
    for k := 0 to |refs|
      invariant IsGauged(A, b0, refs[..k], Rows(a[..], n), b[..], n)
    {
      var r := refs[k];
      assert r in refs;
      ghost var G, d := Rows(a[..], n), b[..];
      for c := 0 to n
        invariant b[..] == d
        invariant Rows(a[..], n) == G[r := Rows(a[..], n)[r]] && |Rows(a[..], n)[r]| == n
        invariant forall j :: 0 <= j < c ==> Rows(a[..], n)[r][j] == 0.0
      {
        WriteEntry(a, n, r, c, 0.0);
      }
      WriteEntry(a, n, r, r, 1.0);
      b[r] := 0.0;
      assert Rows(a[..], n)[r] == Unit(r, n);
      assert refs[..k + 1] == refs[..k] + [r];
      assert Rows(a[..], n) == G[r := Unit(r, n)];
      forall i | 0 <= i < n
        ensures Rows(a[..], n)[i] == (if i in refs[..k + 1] then Unit(i, n) else A[i])
      {
        assert i in refs[..k + 1] <==> i in refs[..k] || i == r;
      }
    }
    assert refs[..|refs|] == refs;
  }

  /** The row x_i - x_j = rhs, scaled by `s`. */
  ghost function Difference(i: nat, j: nat, s: real): Sparse {
    [(i, s), (j, -s)]
  }

  lemma {:induction false} DotDifference(i: nat, j: nat, s: real, z: Vector)
    requires i < |z| && j < |z|
    ensures Dot(Dense(Difference(i, j, s), |z|), z, 0, |z|) == Mul(s, z[i] - z[j])
  {
    var coeffs := Difference(i, j, s);
    DotDense(coeffs, z);
    assert coeffs[..1] == [(i, s)] ;
    assert SparseDot(coeffs[..1], z) == Mul(s, z[i]);
    assert SparseDot(coeffs, z) == Mul(s, z[i]) + Mul(-s, z[j]);
  }

  /** A zeroed pair of buffers encodes the empty objective. */
  method ZeroSystem(n: nat) returns (a: array<real>, b: array<real>)
    ensures fresh(a) && fresh(b) && a != b && IsSquare(a.Length, n) && b.Length == n
    ensures Rows(a[..], n) == ZeroMatrix(n)
    ensures Encodes(Rows(a[..], n), b[..], Nil, n)
  {
    a := new real[n * n](_ => 0.0);
    b := new real[n](_ => 0.0);
    forall i | 0 <= i < n ensures Rows(a[..], n)[i] == Zeros(n) {
      forall j | 0 <= j < n ensures Rows(a[..], n)[i][j] == 0.0 { EntryAt(a[..], n, i, j); }
    }
    assert Rows(a[..], n) == ZeroMatrix(n);
    assert b[..] == Zeros(n);
    EncodesNothing(n);
  }

  lemma {:induction false} EncodesSparse(A: Matrix, b: Vector, rows: Terms, coef: Vector, rhs: real, n: nat)
    requires Encodes(A, b, rows, n) && |coef| == n
    ensures Encodes(OuterAdd(A, coef, coef), AddScaled(b, rhs, coef), Snoc(rows, Row(1.0, coef, rhs)), n)
  {
    EncodesMore(A, b, rows, Row(1.0, coef, rhs), n);
    assert Scaled(1.0, coef) == coef;
  }

  // ---------------------------------------------------------------- offsets

  /** The sufficient statistics of one edge and channel: cell count and the two sums of means. */
  datatype EdgeFit = EdgeFit(a: nat, b: nat, channel: nat, count: real, sumX: real, sumY: real)

  predicate Contributes(f: EdgeFit, channel: nat) {
    f.channel == channel && f.count > 0.0
  }

  ghost predicate FitsIn(fits: seq<EdgeFit>, n: nat) {
    forall k :: 0 <= k < |fits| ==> fits[k].a < n && fits[k].b < n
  }

  /** The offset difference that equalises the corrected mean levels of an edge. */
  function Target(f: EdgeFit, gains: Vector): real
    requires f.a < |gains| && f.b < |gains| && f.count > 0.0
  {
    (gains[f.b] * f.sumY - gains[f.a] * f.sumX) / f.count
  }

  /** Corrected mean level of the first panel minus that of the second, over the edge's cells. */
  ghost function Mismatch(f: EdgeFit, gains: Vector, o: Vector): real
    requires f.a < |gains| && f.b < |gains| && |o| == |gains| && f.count > 0.0
  {
    (gains[f.a] * (f.sumX / f.count) + o[f.a]) - (gains[f.b] * (f.sumY / f.count) + o[f.b])
  }

  /** Sum of squared mismatches over the contributing edges of a channel. */
  ghost function TotalMismatch(fits: seq<EdgeFit>, channel: nat, gains: Vector, o: Vector): (t: real)
    requires FitsIn(fits, |gains|) && |o| == |gains|
    ensures t >= 0.0
  {
    if fits == [] then 0.0
    else
      var f := fits[|fits| - 1];
      TotalMismatch(fits[..|fits| - 1], channel, gains, o)
      + if Contributes(f, channel) then Weighted(1.0, Mismatch(f, gains, o)) else 0.0
  }

  ghost function OffsetTerms(fits: seq<EdgeFit>, channel: nat, gains: Vector): (rows: Terms)
    requires FitsIn(fits, |gains|)
    ensures IsRows(rows, |gains|)
  {
    if fits == [] then Nil
    else
      var f := fits[|fits| - 1];
      var init := OffsetTerms(fits[..|fits| - 1], channel, gains);
      if Contributes(f, channel)
      then Snoc(init, Row(1.0, Dense(Difference(f.a, f.b, 1.0), |gains|), Target(f, gains)))
      else init
  }

  lemma {:induction false} MismatchIsResidual(f: EdgeFit, gains: Vector, o: Vector)
    requires f.a < |gains| && f.b < |gains| && |o| == |gains| && f.count > 0.0
    ensures o[f.a] - o[f.b] - Target(f, gains) == Mismatch(f, gains, o)
  {
    var ga, gb, n := gains[f.a], gains[f.b], f.count;
    assert (gb * f.sumY - ga * f.sumX) / n == gb * f.sumY / n - ga * f.sumX / n;
    assert gb * f.sumY / n == gb * (f.sumY / n);
    assert ga * f.sumX / n == ga * (f.sumX / n);
  }

  /** The accumulated objective is the total mismatch. */
  lemma {:induction false} OffsetObjective(fits: seq<EdgeFit>, channel: nat, gains: Vector, o: Vector)
    requires FitsIn(fits, |gains|) && |o| == |gains|
    ensures Objective(OffsetTerms(fits, channel, gains), o) == TotalMismatch(fits, channel, gains, o)
  {
    if fits != [] {
      var f := fits[|fits| - 1];
      OffsetObjective(fits[..|fits| - 1], channel, gains, o);
      if Contributes(f, channel) {
        DotDifference(f.a, f.b, 1.0, o);
        MismatchIsResidual(f, gains, o);
        assert Residual(Row(1.0, Dense(Difference(f.a, f.b, 1.0), |gains|), Target(f, gains)), o)
                 == Mismatch(f, gains, o);
      }
    }
  }

  /** Offsets of one channel with the gains held fixed, reference panels gauged to zero. */
  method OffsetSolve(channel: nat, fits: seq<EdgeFit>, refs: seq<nat>, n: nat, gains: Vector)
    returns (res: SolveResult, ghost gauged: seq<real>)
    requires FitsIn(fits, n) && |gains| == n && forall r :: r in refs ==> r < n
    ensures res.Ok? ==> |res.x| == n && SoleMinimiser(OffsetTerms(fits, channel, gains), refs, res.x)
    ensures res.Ok? ==>
              forall k :: 0 <= k < n && k !in refs ==> Gradient(OffsetTerms(fits, channel, gains), res.x)[k] == 0.0
    ensures IsVerdict(OffsetTerms(fits, channel, gains), refs, n, gauged, res)
  {
    hide IsSquare, Rows, RowAt, IsGauged, SoleSolution, Encodes, SoleMinimiser, Difference, Target, IsVerdict;
    var a, b := ZeroSystem(n);
    assert fits[..0] == [];
    for k := 0 to |fits|
      invariant FitsIn(fits[..k], n)
      invariant Encodes(Rows(a[..], n), b[..], OffsetTerms(fits[..k], channel, gains), n)
    {
      var f := fits[k];
      assert fits[..k + 1][..k] == fits[..k];
      if Contributes(f, channel) {
        ghost var A, c := Rows(a[..], n), b[..];
        var d := Target(f, gains);
        ghost var coeffs := Difference(f.a, f.b, 1.0);
        AddDifference(a, b, n, f.a, f.b, 1.0, d);
        EncodesSparse(A, c, OffsetTerms(fits[..k], channel, gains), Dense(coeffs, n), d, n);
      }
    }
    assert fits[..|fits|] == fits;
    res, gauged := SolveGauged(a, b, n, refs, OffsetTerms(fits, channel, gains));
  }

  method AddDifference(a: array<real>, b: array<real>, n: nat, i: nat, j: nat, s: real, rhs: real)
    requires IsSquare(a.Length, n) && b.Length == n && a != b && i < n && j < n
    modifies a, b
    ensures SparseIn(Difference(i, j, s), n)
    ensures var coef := Dense(Difference(i, j, s), n);
            Rows(a[..], n) == OuterAdd(Rows(old(a[..]), n), coef, coef) && b[..] == AddScaled(old(b[..]), rhs, coef)
  {
    AddRow(a, b, n, [(i, s), (j, -s)], rhs);
  }

  /** `G` is the matrix of the objective's normal equations, gauged. */
  ghost predicate IsGaugedMatrix(rows: Terms, gauge: seq<nat>, G: Matrix, n: nat) {
    exists A: Matrix, b: Vector, c: Vector :: Encodes(A, b, rows, n) && IsGauged(A, b, gauge, G, c, n)
  }

  /** When solving the gauged system fails: exactly when elimination meets a pivot below the threshold, so always
      if the matrix is singular, and only if some direction of unit size is sent below the threshold. */
  ghost predicate IsVerdict(rows: Terms, gauge: seq<nat>, n: nat, gauged: seq<real>, res: SolveResult) {
    && IsSquare(|gauged|, n) && IsGaugedMatrix(rows, gauge, Rows(gauged, n), n)
    && (IsSingular(Rows(gauged, n), n) ==> res.Singular?)
    && (res.Singular? ==> NearlySingular(Rows(gauged, n), n, res.column, Tiny(gauged)))
    && (res.Singular? ==> GivesUp(gauged, n, res.column))
    && (res.Ok? ==> forall k :: !GivesUp(gauged, n, k))
  }

  /** Gauge the assembled system, solve it, and pin the gauged components exactly. */
  method SolveGauged(a: array<real>, b: array<real>, n: nat, refs: seq<nat>, ghost rows: Terms)
    returns (res: SolveResult, ghost gauged: seq<real>)
    requires IsSquare(a.Length, n) && b.Length == n && a != b && forall r :: r in refs ==> r < n
    requires Encodes(Rows(a[..], n), b[..], rows, n)
    modifies a, b
    ensures res.Ok? ==> |res.x| == n && SoleMinimiser(rows, refs, res.x)
    ensures res.Ok? ==> forall k :: 0 <= k < n && k !in refs ==> Gradient(rows, res.x)[k] == 0.0
    ensures IsVerdict(rows, refs, n, gauged, res)
  {
    hide IsSquare, Rows, RowAt, IsGauged, SoleSolution, Encodes, SoleMinimiser, IsSingular, NearlySingular, Tiny,
         GivesUp;
    ghost var A, c := Rows(a[..], n), b[..];
    OverwriteGauge(a, b, n, refs);
    gauged := a[..];
    ghost var G, d := Rows(gauged, n), b[..];
    assert IsGaugedMatrix(rows, refs, G, n);
    res := SolveDense(a, b, n);
    if res.Ok? {
      GaugedMinimiser(A, c, rows, refs, G, d, res.x);
      SolesSolve(G, d, res.x);
      GaugedSolution(A, c, rows, refs, G, d, res.x);
      var o := res.x;
      for k := 0 to |refs|
        invariant o == res.x
      {
        assert refs[k] in refs;
        o := o[refs[k] := 0.0];
        assert o == res.x;
      }
      res := Ok(o);
    }
  }

  lemma {:induction false} SolesSolve(G: Matrix, d: Vector, x: Vector)
    requires SoleSolution(G, d, x)
    ensures Solves(G, d, x)
  {
  }

  // ---------------------------------------------------------------- the overwritten rows hold too

  /** Indicator vector of a set of panels. */
  ghost function Indicator(c: set<nat>, n: nat): (d: Vector)
    ensures |d| == n && forall i :: 0 <= i < n ==> d[i] == if i in c then 1.0 else 0.0
  {
    seq(n, i requires 0 <= i < n => if i in c then 1.0 else 0.0)
  }

  /** A direction that is constant across every contributing edge is orthogonal to the gradient. */
  lemma {:induction false} GradientIsEdgewise(fits: seq<EdgeFit>, channel: nat, gains: Vector, o: Vector, d: Vector)
    requires FitsIn(fits, |gains|) && |o| == |gains| == |d|
    requires forall f :: f in fits && Contributes(f, channel) ==> d[f.a] == d[f.b]
    ensures Dot(Gradient(OffsetTerms(fits, channel, gains), o), d, 0, |d|) == 0.0
  {
    if fits == [] {
      DotZero(Zeros(|d|), d, 0, |d|);
    } else {
      var f, init := fits[|fits| - 1], fits[..|fits| - 1];
      GradientIsEdgewise(init, channel, gains, o, d);
      if Contributes(f, channel) {
        var coef := Dense(Difference(f.a, f.b, 1.0), |d|);
        var row := Row(1.0, coef, Target(f, gains));
        DotDifference(f.a, f.b, 1.0, d);
        DotAddScaled(Gradient(OffsetTerms(init, channel, gains), o), Mul(1.0, Residual(row, o)), coef, d, |d|);
      }
    }
  }

  /** One reference panel in each connected component, in component order. */
  ghost predicate OneReferenceEach(comps: seq<seq<nat>>, refs: seq<nat>) {
    |refs| == |comps| && forall k :: 0 <= k < |refs| ==> Member(comps, k, refs[k])
  }

  /** Every contributing fit belongs to an edge of the graph. */
  ghost predicate FitsOnEdges(fits: seq<EdgeFit>, edges: seq<Edge>) {
    forall f :: f in fits ==> Edge(f.a, f.b) in edges
  }

  /** With one reference per component, the equations of the overwritten rows hold as well: the
      rows of a component add up to zero, and all the others hold. */
  lemma {:induction false} ReferenceRowsHold(fits: seq<EdgeFit>, channel: nat, gains: Vector, o: Vector,
                          edges: seq<Edge>, comps: seq<seq<nat>>, refs: seq<nat>)
    requires FitsIn(fits, |gains|) && |o| == |gains| && FitsOnEdges(fits, edges)
    requires IsComponentPartition(edges, |gains|, comps) && OneReferenceEach(comps, refs)
    requires forall k :: 0 <= k < |o| && k !in refs ==> Gradient(OffsetTerms(fits, channel, gains), o)[k] == 0.0
    ensures Gradient(OffsetTerms(fits, channel, gains), o) == Zeros(|o|)
  {
    var n, g := |o|, Gradient(OffsetTerms(fits, channel, gains), o);
    ComponentsDisjoint(edges, n, comps);
    forall k | 0 <= k < n ensures g[k] == 0.0 {
      if k in refs {
        var c :| 0 <= c < |refs| && refs[c] == k;
        var d := Indicator((set i | i in comps[c]), n);
        forall f | f in fits && Contributes(f, channel) ensures d[f.a] == d[f.b] {
          SameComponent(edges, n, comps, Edge(f.a, f.b), c);
        }
        GradientIsEdgewise(fits, channel, gains, o, d);
        forall i | 0 <= i < n && i != k ensures g[i] == 0.0 || d[i] == 0.0 {
          if i in refs {
            var l :| 0 <= l < |refs| && refs[l] == i;
            assert Member(comps, l, i);
            assert Member(comps, c, i) <==> i in comps[c];
          }
        }
        OneEntryDot(g, d, k, n);
      }
    }
  }

  lemma {:induction false} ComponentsDisjoint(edges: seq<Edge>, n: nat, comps: seq<seq<nat>>)
    requires IsComponentPartition(edges, n, comps)
    ensures forall k, l, i: nat :: Member(comps, k, i) && Member(comps, l, i) ==> k == l
  {
    forall k, l, i: nat | Member(comps, k, i) && Member(comps, l, i) ensures k == l {
      ConnectedReflexive(edges, i);
    }
  }

  lemma {:induction false} SameComponent(edges: seq<Edge>, n: nat, comps: seq<seq<nat>>, e: Edge, c: nat)
    requires IsComponentPartition(edges, n, comps) && e in edges && c < |comps| && e.a < n && e.b < n
    ensures e.a in comps[c] <==> e.b in comps[c]
  {
    assert Covered(comps, e.a) && Covered(comps, e.b);
    var k :| Member(comps, k, e.a);
    var l :| Member(comps, l, e.b);
    ConnectedEdge(edges, e);
    assert k == l;
    ConnectedReflexive(edges, e.a);
    ConnectedReflexive(edges, e.b);
    if e.a in comps[c] { assert Member(comps, c, e.a); }
    if e.b in comps[c] { assert Member(comps, c, e.b); }
  }

  /** The offsets minimise the total mismatch over all offset vectors, gauged or not, and satisfy
      every row of the ungauged system. */
  ghost predicate Optimal(fits: seq<EdgeFit>, channel: nat, gains: Vector, o: Vector) {
    && FitsIn(fits, |gains|) && |o| == |gains|
    && Gradient(OffsetTerms(fits, channel, gains), o) == Zeros(|o|)
    && forall y: Vector :: |y| == |o| ==>
         TotalMismatch(fits, channel, gains, o) <= TotalMismatch(fits, channel, gains, y)
  }

  lemma {:induction false} OffsetsOptimal(fits: seq<EdgeFit>, channel: nat, gains: Vector, o: Vector,
                       edges: seq<Edge>, comps: seq<seq<nat>>, refs: seq<nat>)
    requires FitsIn(fits, |gains|) && |o| == |gains| && FitsOnEdges(fits, edges)
    requires IsComponentPartition(edges, |gains|, comps) && OneReferenceEach(comps, refs)
    requires forall k :: 0 <= k < |o| && k !in refs ==> Gradient(OffsetTerms(fits, channel, gains), o)[k] == 0.0
    ensures Optimal(fits, channel, gains, o)
  {
    ReferenceRowsHold(fits, channel, gains, o, edges, comps, refs);
    var rows := OffsetTerms(fits, channel, gains);
    forall y: Vector | |y| == |o|
      ensures TotalMismatch(fits, channel, gains, o) <= TotalMismatch(fits, channel, gains, y)
    {
      StationaryMinimises(rows, o, y);
      OffsetObjective(fits, channel, gains, o);
      OffsetObjective(fits, channel, gains, y);
    }
  }

  ghost predicate LevelsAgree(fits: seq<EdgeFit>, channel: nat, gains: Vector, o: Vector)
    requires FitsIn(fits, |gains|) && |o| == |gains|
  {
    forall k :: 0 <= k < |fits| && Contributes(fits[k], channel) ==> Mismatch(fits[k], gains, o) == 0.0
  }

  lemma {:induction false} WeightedPositive(m: real)
    ensures Weighted(1.0, m) >= 0.0 && (Weighted(1.0, m) == 0.0 <==> m == 0.0)
  {
    SquareSign(m);
    assert Mul(1.0, Mul(m, m)) == Mul(m, m);
    hide Mul;
  }

  lemma {:induction false} ZeroMismatch(fits: seq<EdgeFit>, channel: nat, gains: Vector, o: Vector)
    requires FitsIn(fits, |gains|) && |o| == |gains|
    ensures TotalMismatch(fits, channel, gains, o) == 0.0 <==> LevelsAgree(fits, channel, gains, o)
  {
    if fits != [] {
      var init, f := fits[..|fits| - 1], fits[|fits| - 1];
      ZeroMismatch(init, channel, gains, o);
      assert forall k :: 0 <= k < |init| ==> init[k] == fits[k];
      assert LevelsAgree(fits, channel, gains, o) <==>
             LevelsAgree(init, channel, gains, o) && (Contributes(f, channel) ==> Mismatch(f, gains, o) == 0.0) by {
        if LevelsAgree(init, channel, gains, o) && (Contributes(f, channel) ==> Mismatch(f, gains, o) == 0.0) {
          forall k | 0 <= k < |fits| && Contributes(fits[k], channel) ensures Mismatch(fits[k], gains, o) == 0.0 {
            if k < |init| { assert init[k] == fits[k]; }
          }
        }
      }
      if Contributes(f, channel) {
        WeightedPositive(Mismatch(f, gains, o));
      }
    }
  }

  /** If any offsets at all make the corrected levels agree on every edge, the optimal ones do. */
  lemma {:induction false} ConsistentEdgesAgree(fits: seq<EdgeFit>, channel: nat, gains: Vector, o: Vector, y: Vector)
    requires Optimal(fits, channel, gains, o) && |y| == |o|
    requires LevelsAgree(fits, channel, gains, y)
    ensures LevelsAgree(fits, channel, gains, o)
  {
    ZeroMismatch(fits, channel, gains, y);
    ZeroMismatch(fits, channel, gains, o);
  }

  // ---------------------------------------------------------------- gauge choice and the full solve

  /** Number of fully covered cells of a panel. */
  function FullCovCells(coverage: seq<real>): nat {
    if coverage == [] then 0
    else FullCovCells(coverage[..|coverage| - 1]) + if coverage[|coverage| - 1] == 1.0 then 1 else 0
  }

  /** It is the size of the set of those cells. */
  lemma {:induction false} FullCovCounts(coverage: seq<real>)
    ensures FullCovCells(coverage) == |set i: nat | i < |coverage| && coverage[i] == 1.0|
  {
    var all := set i: nat | i < |coverage| && coverage[i] == 1.0;
    if coverage == [] {
      assert all == {};
    } else {
      var n := |coverage| - 1;
      var head := coverage[..n];
      FullCovCounts(head);
      var some := set i: nat | i < |head| && head[i] == 1.0;
      assert all == some + if coverage[n] == 1.0 then {n} else {};
    }
  }

  /** Panel `p` is joined to a reference panel. */
  ghost predicate Anchored(edges: seq<Edge>, refs: seq<nat>, p: nat) {
    exists r :: r in refs && Connected(edges, p, r)
  }

  /** The member of `comp` with the largest coverage, ties to the lowest id. */
  ghost predicate IsReference(comp: seq<nat>, panels: seq<seq<real>>, best: nat) {
    && best in comp && (forall p :: p in comp ==> p < |panels|)
    && forall p :: p in comp ==> Preferred(panels, best, p)
  }

  /** `best` has more fully covered cells than `p`, or as many and no larger id. */
  ghost predicate Preferred(panels: seq<seq<real>>, best: nat, p: nat)
    requires best < |panels| && p < |panels|
  {
    FullCovCells(panels[p]) < FullCovCells(panels[best])
    || (FullCovCells(panels[p]) == FullCovCells(panels[best]) && best <= p)
  }

  method ChooseReference(comp: seq<nat>, panels: seq<seq<real>>) returns (best: nat)
    requires comp != [] && Ascending(comp) && forall k :: 0 <= k < |comp| ==> comp[k] < |panels|
    ensures IsReference(comp, panels, best)
  {
    best := comp[0];
    var bestCov := FullCovCells(panels[best]);
    for k := 1 to |comp|
      invariant best in comp[..k] && bestCov == FullCovCells(panels[best])
      invariant forall l :: 0 <= l < k ==>
                  FullCovCells(panels[comp[l]]) < bestCov
                  || (FullCovCells(panels[comp[l]]) == bestCov && best <= comp[l])
    {
      var p := comp[k];
      var cov := FullCovCells(panels[p]);
      assert exists l :: 0 <= l < k && comp[l] == best;
      if cov > bestCov {
        best, bestCov := p, cov;
      }
    }
  }

  datatype Solution = Solved(refs: seq<nat>, offsets: seq<Vector>) | Failed(channel: nat, column: nat)

  /** The channel named has a gauged system that elimination gives up on in the column named. */
  ghost predicate IsFailure(fits: seq<EdgeFit>, gains: seq<Vector>, refs: seq<nat>, n: nat, res: Solution)
    requires res.Failed?
  {
    && FitsIn(fits, n) && res.channel < |gains| && |gains[res.channel]| == n
    && exists gauged: seq<real> ::
         IsVerdict(OffsetTerms(fits, res.channel, gains[res.channel]), refs, n, gauged, Singular(res.column))
  }

  /** Offsets of every channel: components, one gauge panel each, one solve per channel under the
      channel's gains. */
  method Solve(panels: seq<seq<real>>, edges: seq<Edge>, fits: seq<EdgeFit>, gains: seq<Vector>)
    returns (res: Solution, refs: seq<nat>)
    requires InRange(edges, |panels|) && FitsOnEdges(fits, edges)
    requires forall c :: 0 <= c < |gains| ==> |gains[c]| == |panels|
    ensures res.Solved? ==> res.refs == refs && |res.offsets| == (if panels == [] then 0 else |gains|)
    ensures res.Solved? ==> forall c :: 0 <= c < |res.offsets| ==>
              Optimal(fits, c, gains[c], res.offsets[c]) && ZeroOn(res.offsets[c], refs)
    ensures res.Failed? ==> IsFailure(fits, gains, refs, |panels|, res)
    ensures forall r :: r in refs ==> r < |panels|
    ensures forall p: nat :: p < |panels| ==> Anchored(edges, refs, p)
    ensures forall r: nat, p: nat :: r in refs && p < |panels| && Connected(edges, p, r) ==> Preferred(panels, r, p)
    ensures forall i, j :: 0 <= i < j < |refs| ==> !Connected(edges, refs[i], refs[j])
  {
    hide IsVerdict, Connected;
    refs := [];
    if panels == [] {
      res := Solved([], []);
      return;
    }
    var n := |panels|;
    forall f | f in fits ensures f.a < n && f.b < n { var e := Edge(f.a, f.b); assert e in edges; }
    var comps := ConnectedComponents(edges, n);
    var chosen := [];
    for k := 0 to |comps|
      invariant |chosen| == k
      invariant forall l :: 0 <= l < k ==> IsReference(comps[l], panels, chosen[l])
    {
      forall l | 0 <= l < |comps[k]| ensures comps[k][l] < n {
        assert Member(comps, k, comps[k][l]) && Covered(comps, comps[k][l]);
      }
      var best := ChooseReference(comps[k], panels);
      chosen := chosen + [best];
    }
    refs := chosen;
    ReferencesCover(edges, n, comps, refs);
    ReferencesPreferred(edges, panels, comps, refs);
    var offsets := [];
    for c := 0 to |gains|
      invariant |offsets| == c
      invariant forall l :: 0 <= l < c ==> Optimal(fits, l, gains[l], offsets[l]) && ZeroOn(offsets[l], refs)
    {
      var o, gauged := OffsetSolve(c, fits, chosen, n, gains[c]);
      if o.Singular? {
        res := Failed(c, o.column);
        assert IsVerdict(OffsetTerms(fits, c, gains[c]), refs, n, gauged, Singular(o.column));
        return;
      }
      OffsetsOptimal(fits, c, gains[c], o.x, edges, comps, refs);
      offsets := offsets + [o.x];
    }
    res := Solved(chosen, offsets);
  }

  lemma {:induction false} ReferencesCover(edges: seq<Edge>, n: nat, comps: seq<seq<nat>>, refs: seq<nat>)
    requires IsComponentPartition(edges, n, comps) && OneReferenceEach(comps, refs)
    ensures forall r :: r in refs ==> r < n
    ensures forall p: nat :: p < n ==> Anchored(edges, refs, p)
    ensures forall i, j :: 0 <= i < j < |refs| ==> !Connected(edges, refs[i], refs[j])
  {
    forall r | r in refs ensures r < n {
      var k :| 0 <= k < |refs| && refs[k] == r;
      assert Member(comps, k, r);
      assert Covered(comps, r);
    }
    forall p: nat | p < n ensures Anchored(edges, refs, p) {
      assert Covered(comps, p);
      var k :| Member(comps, k, p);
      assert Member(comps, k, refs[k]) && refs[k] in refs;
    }
    forall i, j | 0 <= i < j < |refs| ensures !Connected(edges, refs[i], refs[j]) {
      assert Member(comps, i, refs[i]) && Member(comps, j, refs[j]);
    }
  }

  lemma {:induction false} ReferencesPreferred(edges: seq<Edge>, panels: seq<seq<real>>, comps: seq<seq<nat>>,
                                               refs: seq<nat>)
    requires IsComponentPartition(edges, |panels|, comps) && |refs| == |comps|
    requires forall k :: 0 <= k < |comps| ==> IsReference(comps[k], panels, refs[k])
    ensures forall r: nat, p: nat :: r in refs && p < |panels| && Connected(edges, p, r) ==>
              r < |panels| && Preferred(panels, r, p)
  {
    forall r: nat, p: nat | r in refs && p < |panels| && Connected(edges, p, r)
      ensures r < |panels| && Preferred(panels, r, p)
    {
      var k :| 0 <= k < |refs| && refs[k] == r;
      assert Member(comps, k, r) && Covered(comps, p);
      var l :| Member(comps, l, p);
      assert k == l;
    }
  }

  // ---------------------------------------------------------------- gain potentials

  /** Pull of every log gain toward zero. */
  const GAIN_RIDGE: real := 0.000001

  /** One identifiable edge: log-gain difference, least-squares weight, and its square root. */
  datatype GainRow = GainRow(i: nat, j: nat, logGain: real, weight: real, scale: real)

  ghost predicate GainsIn(rows: seq<GainRow>, n: nat) {
    forall k :: 0 <= k < |rows| ==>
      rows[k].i < n && rows[k].j < n && rows[k].weight >= 0.0 && rows[k].scale * rows[k].scale == rows[k].weight
  }

  /** The weighted loop residuals plus the ridge: what the gain stage minimises. */
  ghost function PotentialCost(rows: seq<GainRow>, z: Vector): real
    requires GainsIn(rows, |z|)
  {
    EdgeCost(rows, z) + RidgeCost(z, |z|)
  }

  ghost function EdgeCost(rows: seq<GainRow>, z: Vector): real
    requires GainsIn(rows, |z|)
  {
    if rows == [] then 0.0
    else
      var g := rows[|rows| - 1];
      EdgeCost(rows[..|rows| - 1], z) + Weighted(g.weight, z[g.i] - z[g.j] - g.logGain)
  }

  ghost function RidgeCost(z: Vector, hi: nat): real
    requires hi <= |z|
  {
    if hi == 0 then 0.0 else RidgeCost(z, hi - 1) + Weighted(GAIN_RIDGE, z[hi - 1])
  }

  ghost function EdgeTerms(rows: seq<GainRow>, n: nat): (terms: Terms)
    requires GainsIn(rows, n)
    ensures IsRows(terms, n)
  {
    if rows == [] then Nil
    else
      var g := rows[|rows| - 1];
      Snoc(EdgeTerms(rows[..|rows| - 1], n), Row(1.0, Dense(Difference(g.i, g.j, g.scale), n), Mul(g.scale, g.logGain)))
  }

  ghost function RidgeTerms(base: Terms, n: nat, hi: nat): (terms: Terms)
    requires IsRows(base, n) && hi <= n
    ensures IsRows(terms, n)
  {
    if hi == 0 then base else Snoc(RidgeTerms(base, n, hi - 1), Row(GAIN_RIDGE, Unit(hi - 1, n), 0.0))
  }

  lemma {:induction false} ScaledSquare(s: real, w: real, a: real, b: real)
    requires s * s == w
    ensures Weighted(1.0, Mul(s, a) - Mul(s, b)) == Weighted(w, a - b)
  {
    var d := a - b;
    assert Mul(s, a) - Mul(s, b) == Mul(s, d);
    assert Mul(s, s) == w;
    assert Mul(1.0, Mul(Mul(s, d), Mul(s, d))) == Mul(Mul(s, d), Mul(s, d));
    hide Mul;
    Associate(s, d, Mul(s, d));
    Associate(d, s, d);
    Associate(s, d, d);
    Associate(s, s, Mul(d, d));
  }

  lemma {:induction false} EdgeTermsCost(rows: seq<GainRow>, z: Vector)
    requires GainsIn(rows, |z|)
    ensures Objective(EdgeTerms(rows, |z|), z) == EdgeCost(rows, z)
  {
    if rows != [] {
      var init, g := rows[..|rows| - 1], rows[|rows| - 1];
      EdgeTermsCost(init, z);
      DotDifference(g.i, g.j, g.scale, z);
      ScaledSquare(g.scale, g.weight, z[g.i] - z[g.j], g.logGain);
      hide Mul, Weighted, Difference, Dense, Dot;
    }
  }

  lemma {:induction false} RidgeTermsCost(base: Terms, z: Vector, hi: nat)
    requires IsRows(base, |z|) && hi <= |z|
    ensures Objective(RidgeTerms(base, |z|, hi), z) == Objective(base, z) + RidgeCost(z, hi)
  {
    if hi > 0 {
      RidgeTermsCost(base, z, hi - 1);
      DotUnit(hi - 1, z);
    }
  }

  /** Among potentials that vanish on the references, `z` alone has the least cost. */
  ghost predicate SolePotentials(rows: seq<GainRow>, refs: seq<nat>, z: Vector) {
    && GainsIn(rows, |z|) && ZeroOn(z, refs)
    && forall y: Vector :: |y| == |z| && ZeroOn(y, refs) ==>
         PotentialCost(rows, z) <= PotentialCost(rows, y)
             && (PotentialCost(rows, z) == PotentialCost(rows, y) ==> y == z)
  }

  lemma {:induction false} MinimiserIsPotentials(rows: seq<GainRow>, refs: seq<nat>, z: Vector)
    requires GainsIn(rows, |z|)
    requires SoleMinimiser(RidgeTerms(EdgeTerms(rows, |z|), |z|, |z|), refs, z)
    ensures SolePotentials(rows, refs, z)
  {
    var n := |z|;
    forall y: Vector | |y| == n
      ensures Objective(RidgeTerms(EdgeTerms(rows, n), n, n), y) == PotentialCost(rows, y)
    {
      EdgeTermsCost(rows, y);
      RidgeTermsCost(EdgeTerms(rows, n), y, n);
    }
  }

  /** A diagonal bump is a ridge row. */
  lemma {:induction false} EncodesRidge(A: Matrix, b: Vector, rows: Terms, p: nat, w: real, n: nat)
    requires Encodes(A, b, rows, n) && p < n && w >= 0.0
    ensures Encodes(Bump(A, p, p, w), b, Snoc(rows, Row(w, Unit(p, n), 0.0)), n)
  {
    var e := Unit(p, n);
    hide Encodes, Bump, Unit, OuterAdd, Scaled, AddScaled;
    EncodesMore(A, b, rows, Row(w, e, 0.0), n);
    EncodedMatrix(A, b, rows, n);
    DiagonalBump(A, p, w, n);
    NoRhs(b, w, e);
  }

  lemma {:induction false} EncodedMatrix(A: Matrix, b: Vector, rows: Terms, n: nat)
    requires Encodes(A, b, rows, n)
    ensures IsMatrix(A, n) && |b| == n && IsRows(rows, n)
  {
  }

  lemma {:induction false} NoRhs(b: Vector, w: real, e: Vector)
    requires |b| == |e|
    ensures AddScaled(b, Mul(w, 0.0), e) == b
  {
    forall j | 0 <= j < |e| ensures Mul(Mul(w, 0.0), e[j]) == 0.0 {}
  }

  lemma {:induction false} DiagonalBump(A: Matrix, p: nat, w: real, n: nat)
    requires IsMatrix(A, n) && p < n
    ensures OuterAdd(A, Scaled(w, Unit(p, n)), Unit(p, n)) == Bump(A, p, p, w)
  {
    var e := Unit(p, n);
    var B := OuterAdd(A, Scaled(w, e), e);
    forall i | 0 <= i < n ensures B[i] == Bump(A, p, p, w)[i] {
      forall j | 0 <= j < n ensures Mul(Mul(w, e[i]), e[j]) == if i == p && j == p then w else 0.0 {}
      hide Mul;
    }
  }

  /** One weighted solve for the log gains. */
  method SolvePotentials(rows: seq<GainRow>, refs: seq<nat>, n: nat) returns (res: SolveResult, ghost gauged: seq<real>)
    requires GainsIn(rows, n) && forall r :: r in refs ==> r < n
    ensures res.Ok? ==> |res.x| == n && SolePotentials(rows, refs, res.x)
    ensures IsVerdict(RidgeTerms(EdgeTerms(rows, n), n, n), refs, n, gauged, res)
  {
    hide IsVerdict, IsSquare, Rows, RowAt, IsGauged, SoleSolution, Encodes, SoleMinimiser, Difference, SolePotentials,
         Bump, OuterAdd, AddScaled, Dense;
    var a, b := ZeroSystem(n);
    assert rows[..0] == [];
    for k := 0 to |rows|
      invariant GainsIn(rows[..k], n)
      invariant Encodes(Rows(a[..], n), b[..], EdgeTerms(rows[..k], n), n)
    {
      var g := rows[k];
      assert rows[..k + 1][..k] == rows[..k];
      ghost var A, c := Rows(a[..], n), b[..];
      var rhs := Mul(g.scale, g.logGain);
      AddDifference(a, b, n, g.i, g.j, g.scale, rhs);
      EncodesSparse(A, c, EdgeTerms(rows[..k], n), Dense(Difference(g.i, g.j, g.scale), n), rhs, n);
    }
    assert rows[..|rows|] == rows;
    ghost var base := EdgeTerms(rows, n);
    for p := 0 to n
      invariant Encodes(Rows(a[..], n), b[..], RidgeTerms(base, n, p), n)
    {
      ghost var A, c := Rows(a[..], n), b[..];
      EncodesRidge(A, c, RidgeTerms(base, n, p), p, GAIN_RIDGE, n);
      AddEntry(a, n, p, p, GAIN_RIDGE);
      assert b[..] == c;
    }
    res, gauged := SolveGauged(a, b, n, refs, RidgeTerms(base, n, n));
    if res.Ok? {
      MinimiserIsPotentials(rows, refs, res.x);
    }
  }
}
