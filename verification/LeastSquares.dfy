/** Weighted least squares through normal equations: what a solve of the assembled system, with
    some rows overwritten by gauge constraints, says about the quadratic objective. */
module LeastSquares {
  import opened Entrywise
  import opened Linalg
  import opened Reals

  /** One term `weight * (coef . z - rhs)^2` of an objective. */
  datatype Row = Row(weight: real, coef: Vector, rhs: real)

  /** An objective, term after term in the order the code accumulates them. */
  datatype Terms = Nil | Snoc(init: Terms, last: Row)

  ghost predicate IsRows(rows: Terms, n: nat) {
    rows.Snoc? ==> IsRows(rows.init, n) && |rows.last.coef| == n && rows.last.weight >= 0.0
  }

  ghost function Residual(row: Row, z: Vector): real
    requires |row.coef| == |z|
  {
    Dot(row.coef, z, 0, |z|) - row.rhs
  }

  ghost function Weighted(w: real, r: real): real {
    Mul(w, Mul(r, r))
  }

  lemma {:induction false} WeightedSign(w: real, r: real)
    requires w >= 0.0
    ensures Weighted(w, r) >= 0.0
  {
    hide Mul;
    SquareSign(r);
    MulSign(w, Mul(r, r));
  }

  ghost function Objective(rows: Terms, z: Vector): real
    requires IsRows(rows, |z|)
  {
    if rows.Nil? then 0.0 else Objective(rows.init, z) + Weighted(rows.last.weight, Residual(rows.last, z))
  }

  /** The homogeneous part: the objective with all right-hand sides zero. */
  ghost function Quad(rows: Terms, d: Vector): (q: real)
    requires IsRows(rows, |d|)
    ensures q >= 0.0
  {
    if rows.Nil? then 0.0
    else
      var r := Dot(rows.last.coef, d, 0, |d|);
      WeightedSign(rows.last.weight, r);
      Quad(rows.init, d) + Weighted(rows.last.weight, r)
  }

  /** Half the gradient of the objective at `z`. */
  ghost function Gradient(rows: Terms, z: Vector): (g: Vector)
    requires IsRows(rows, |z|)
    ensures |g| == |z|
  {
    if rows.Nil? then Zeros(|z|)
    else AddScaled(Gradient(rows.init, z), Mul(rows.last.weight, Residual(rows.last, z)), rows.last.coef)
  }

  ghost function AddScaled(u: Vector, m: real, v: Vector): (w: Vector)
    requires |u| == |v|
    ensures |w| == |u| && forall j :: 0 <= j < |u| ==> w[j] == u[j] + Mul(m, v[j])
  {
    seq(|u|, j requires 0 <= j < |u| => u[j] + Mul(m, v[j]))
  }

  lemma {:induction false} DistributeLast(m: real, p: real, t: real, c: real, x: real)
    ensures (c + Mul(m, t)) * x + Mul(m, p) == c * x + Mul(m, p + t * x)
  {
    var mt := m * t;
    assert (c + mt) * x == c * x + mt * x;
    assert mt * x == m * (t * x);
    assert m * (p + t * x) == m * p + m * (t * x);
  }

  lemma {:induction false} DotAddScaled(u: Vector, m: real, v: Vector, x: Vector, hi: nat)
    requires |u| == |v| && hi <= |u| && hi <= |x|
    ensures Dot(AddScaled(u, m, v), x, 0, hi) == Dot(u, x, 0, hi) + Mul(m, Dot(v, x, 0, hi))
    decreases hi
  {
    if 0 < hi {
      DotAddScaled(u, m, v, x, hi - 1);
      var p, t := Dot(v, x, 0, hi - 1), v[hi - 1];
      DistributeLast(m, p, t, u[hi - 1], x[hi - 1]);
    }
  }

  /** The system (A, b) is the normal equations of `rows`: its residual is the gradient. */
  ghost predicate Encodes(A: Matrix, b: Vector, rows: Terms, n: nat) {
    && IsMatrix(A, n) && |b| == n && IsRows(rows, n)
    && forall z: Vector, i :: |z| == n && 0 <= i < n ==> Dot(A[i], z, 0, n) - b[i] == Gradient(rows, z)[i]
  }

  /** A plus the outer product of u and v. */
  ghost function OuterAdd(A: Matrix, u: Vector, v: Vector): (B: Matrix)
    requires IsMatrix(A, |v|) && |u| == |v|
    ensures IsMatrix(B, |v|) && forall i :: 0 <= i < |v| ==> B[i] == AddScaled(A[i], u[i], v)
  {
    seq(|A|, i requires 0 <= i < |A| => AddScaled(A[i], u[i], v))
  }

  ghost function Scaled(m: real, v: Vector): (w: Vector)
    ensures |w| == |v| && forall j :: 0 <= j < |v| ==> w[j] == Mul(m, v[j])
  {
    seq(|v|, j requires 0 <= j < |v| => Mul(m, v[j]))
  }

  ghost function ZeroMatrix(n: nat): (A: Matrix)
    ensures IsMatrix(A, n) && forall i :: 0 <= i < n ==> A[i] == Zeros(n)
  {
    seq(n, _ => Zeros(n))
  }

  lemma {:induction false} EncodesNothing(n: nat)
    ensures Encodes(ZeroMatrix(n), Zeros(n), Nil, n)
  {
    forall z: Vector, i | |z| == n && 0 <= i < n
      ensures Dot(ZeroMatrix(n)[i], z, 0, n) - Zeros(n)[i] == Gradient(Nil, z)[i]
    {
      DotZero(Zeros(n), z, 0, n);
    }
  }

  /** Adding weight * coef * coef^T and weight * rhs * coef adds the row. */
  lemma {:induction false} EncodesMore(A: Matrix, b: Vector, rows: Terms, row: Row, n: nat)
    requires Encodes(A, b, rows, n) && |row.coef| == n && row.weight >= 0.0
    ensures Encodes(OuterAdd(A, Scaled(row.weight, row.coef), row.coef),
                    AddScaled(b, Mul(row.weight, row.rhs), row.coef), Snoc(rows, row), n)
  {
    forall z: Vector, i | |z| == n && 0 <= i < n
      ensures Dot(OuterAdd(A, Scaled(row.weight, row.coef), row.coef)[i], z, 0, n)
              - AddScaled(b, Mul(row.weight, row.rhs), row.coef)[i] == Gradient(Snoc(rows, row), z)[i]
    {
      EncodesMoreAt(A[i], b[i], rows, row, z, i);
    }
  }

  lemma {:induction false} GradientAt(rows: Terms, row: Row, z: Vector, i: nat)
    requires IsRows(Snoc(rows, row), |z|) && i < |z|
    ensures Gradient(Snoc(rows, row), z)[i] ==
            Gradient(rows, z)[i] + Mul(Mul(row.weight, Dot(row.coef, z, 0, |z|) - row.rhs), row.coef[i])
  {
    hide Mul, Dot;
  }

  lemma {:induction false} EncodesMoreAt(u: Vector, b: real, rows: Terms, row: Row, z: Vector, i: nat)
    requires IsRows(Snoc(rows, row), |z|) && i < |z| == |u|
    requires Dot(u, z, 0, |z|) - b == Gradient(rows, z)[i]
    ensures Dot(AddScaled(u, Mul(row.weight, row.coef[i]), row.coef), z, 0, |z|)
            - (b + Mul(Mul(row.weight, row.rhs), row.coef[i])) == Gradient(Snoc(rows, row), z)[i]
  {
    hide Mul, Dot, Gradient, AddScaled, Residual;
    GradientAt(rows, row, z, i);
    DotAddScaled(u, Mul(row.weight, row.coef[i]), row.coef, z, |z|);
    DistributeRow(row.weight, row.coef[i], Dot(row.coef, z, 0, |z|), row.rhs);
  }

  lemma {:induction false} DistributeRow(w: real, c: real, d: real, rhs: real)
    ensures Mul(Mul(w, c), d) - Mul(Mul(w, rhs), c) == Mul(Mul(w, d - rhs), c)
  {
    var wc, wd, wr := w * c, w * d, w * rhs;
    assert w * (d - rhs) == wd - wr;
    assert wc * d == wd * c;
  }

  lemma {:induction false} ResidualPlus(row: Row, z: Vector, d: Vector)
    requires |row.coef| == |z| == |d|
    ensures Residual(row, Plus(z, d)) == Residual(row, z) + Dot(row.coef, d, 0, |d|)
  {
    DotPlus(row.coef, z, d, |z|);
  }

  /** Exact second-order expansion of the objective. */
  lemma {:induction false} Expansion(rows: Terms, z: Vector, d: Vector)
    requires IsRows(rows, |z|) && |d| == |z|
    ensures Objective(rows, Plus(z, d)) ==
            Objective(rows, z) + 2.0 * Dot(Gradient(rows, z), d, 0, |z|) + Quad(rows, d)
  {
    match rows
    case Nil => DotZero(Zeros(|z|), d, 0, |z|);
    case Snoc(init, last) =>
      Expansion(init, z, d);
      var w, r, s := last.weight, Residual(last, z), Dot(last.coef, d, 0, |d|);
      ResidualPlus(last, z, d);
      assert Gradient(rows, z) == AddScaled(Gradient(init, z), Mul(w, r), last.coef);
      DotAddScaled(Gradient(init, z), Mul(w, r), last.coef, d, |z|);
      ExpandSquare(w, r, s);
      assert Objective(rows, Plus(z, d)) == Objective(init, Plus(z, d)) + Weighted(w, r + s);
  }

  lemma {:induction false} ExpandSquare(w: real, r: real, s: real)
    ensures Weighted(w, r + s) == Weighted(w, r) + 2.0 * Mul(Mul(w, r), s) + Weighted(w, s)
  {
    hide Mul;
    Distribute(r + s, r, s);
    Distribute(r, r, s);
    Distribute(s, r, s);
    Associate(r, s, w);
    Distribute(w, Mul(r, r), Mul(r, s));
    Distribute(w, Mul(r, r) + Mul(r, s), Mul(r, s));
    Distribute(w, Mul(r, r) + Mul(r, s) + Mul(r, s), Mul(s, s));
    Associate(w, r, s);
  }

  lemma {:induction false} VanishingTerm(q: real, w: real, s: real)
    requires q >= 0.0 && w >= 0.0 && q + Weighted(w, s) == 0.0
    ensures q == 0.0 && Mul(w, s) == 0.0
  {
    hide Mul;
    SquareSign(s);
    MulSign(w, Mul(s, s));
    MulZero(w, s);
  }

  lemma {:induction false} MulZero(w: real, s: real)
    ensures w == 0.0 || s == 0.0 ==> Mul(w, s) == 0.0
  {
  }

  /** Where the homogeneous part vanishes, so does every row's contribution to it. */
  lemma {:induction false} QuadZeroKeepsGradient(rows: Terms, z: Vector, d: Vector)
    requires IsRows(rows, |z|) && |d| == |z| && Quad(rows, d) == 0.0
    ensures Gradient(rows, Plus(z, d)) == Gradient(rows, z)
  {
    if rows.Snoc? {
      var w, r, s := rows.last.weight, Residual(rows.last, z), Dot(rows.last.coef, d, 0, |d|);
      VanishingTerm(Quad(rows.init, d), w, s);
      QuadZeroKeepsGradient(rows.init, z, d);
      ResidualPlus(rows.last, z, d);
      Distribute(w, r, s);
      assert Mul(w, Residual(rows.last, Plus(z, d))) == Mul(w, r);
    }
  }

  // ---------------------------------------------------------------- gauge rows

  ghost function Unit(k: nat, n: nat): (e: Vector)
    requires k < n
    ensures |e| == n && forall j :: 0 <= j < n ==> e[j] == if j == k then 1.0 else 0.0
  {
    Zeros(n)[k := 1.0]
  }

  lemma {:induction false} DotUnit(k: nat, z: Vector)
    requires k < |z|
    ensures Dot(Unit(k, |z|), z, 0, |z|) == z[k]
  {
    var e, n := Unit(k, |z|), |z|;
    DotZero(e, z, 0, k);
    DotZero(e, z, k + 1, n);
    DotSplit(e, z, 0, k, n);
    DotSplit(e, z, k, k + 1, n);
    assert Dot(e, z, k, k) == 0.0;
  }

  /** `A` with the rows listed in `gauge` overwritten by `z_k = ...`. */
  ghost predicate IsGauged(A: Matrix, b: Vector, gauge: seq<nat>, G: Matrix, c: Vector, n: nat) {
    && IsMatrix(A, n) && |b| == n && IsMatrix(G, n) && |c| == n
    && (forall k :: k in gauge ==> k < n)
    && (forall k :: 0 <= k < n ==> G[k] == (if k in gauge then Unit(k, n) else A[k]))
    && (forall k :: 0 <= k < n ==> c[k] == (if k in gauge then 0.0 else b[k]))
  }

  ghost predicate ZeroOn(z: Vector, gauge: seq<nat>) {
    forall k :: k in gauge && k < |z| ==> z[k] == 0.0
  }

  /** `z` is the one minimiser of the objective among vectors that vanish on the gauge. */
  ghost predicate SoleMinimiser(rows: Terms, gauge: seq<nat>, z: Vector) {
    && IsRows(rows, |z|) && ZeroOn(z, gauge)
    && forall y: Vector :: |y| == |z| && ZeroOn(y, gauge) ==>
         Objective(rows, z) <= Objective(rows, y) && (Objective(rows, z) == Objective(rows, y) ==> y == z)
  }

  /** What solving the gauged system says about the gradient. */
  lemma {:induction false} GaugedSolution(A: Matrix, b: Vector, rows: Terms, gauge: seq<nat>, G: Matrix, c: Vector,
                                          z: Vector)
    requires Encodes(A, b, rows, |z|) && IsGauged(A, b, gauge, G, c, |z|)
    ensures Solves(G, c, z) <==>
            ZeroOn(z, gauge) && forall k :: 0 <= k < |z| && k !in gauge ==> Gradient(rows, z)[k] == 0.0
  {
    var n := |z|;
    forall k | 0 <= k < n
      ensures Dot(G[k], z, 0, n) == c[k] <==> if k in gauge then z[k] == 0.0 else Gradient(rows, z)[k] == 0.0
    {
      DotUnit(k, z);
      assert Dot(A[k], z, 0, n) - b[k] == Gradient(rows, z)[k];
    }
  }

  lemma {:induction false} EncodesRows(A: Matrix, b: Vector, rows: Terms, n: nat)
    requires Encodes(A, b, rows, n)
    ensures IsRows(rows, n)
  {
  }

  /** The only solution of a gauged system of normal equations is the only constrained minimiser. */
  lemma {:induction false} GaugedMinimiser(A: Matrix, b: Vector, rows: Terms, gauge: seq<nat>, G: Matrix, c: Vector,
                                           z: Vector)
    requires Encodes(A, b, rows, |z|) && IsGauged(A, b, gauge, G, c, |z|)
    requires SoleSolution(G, c, z)
    ensures SoleMinimiser(rows, gauge, z)
  {
    EncodesRows(A, b, rows, |z|);
    GaugedSolution(A, b, rows, gauge, G, c, z);
    forall y: Vector | |y| == |z| && ZeroOn(y, gauge)
      ensures Objective(rows, z) <= Objective(rows, y) && (Objective(rows, z) == Objective(rows, y) ==> y == z)
    {
      GaugedMinimiserAgainst(A, b, rows, gauge, G, c, z, y);
    }
  }

  lemma {:induction false} GaugedMinimiserAgainst(A: Matrix, b: Vector, rows: Terms, gauge: seq<nat>, G: Matrix,
                                                  c: Vector, z: Vector, y: Vector)
    requires IsRows(rows, |z|) && Encodes(A, b, rows, |z|) && IsGauged(A, b, gauge, G, c, |z|)
    requires SoleSolution(G, c, z) && |y| == |z| && ZeroOn(y, gauge)
    ensures Objective(rows, z) <= Objective(rows, y) && (Objective(rows, z) == Objective(rows, y) ==> y == z)
  {
    hide Encodes, IsGauged, SoleSolution, Objective, Dot, Plus, Minus;
    var d := Minus(y, z);
    StepBack(y, z);
    GaugedOrthogonal(A, b, rows, gauge, G, c, z, y);
    Expansion(rows, z, d);
    if Quad(rows, d) == 0.0 {
      QuadZeroKeepsGradient(rows, z, d);
      SameGradientSolves(A, b, rows, gauge, G, c, z, y);
    }
  }

  lemma {:induction false} StepBack(y: Vector, z: Vector)
    requires |y| == |z|
    ensures Plus(z, Minus(y, z)) == y
  {
  }

  /** Off the gauge the gradient vanishes, on it the step does. */
  lemma {:induction false} GaugedOrthogonal(A: Matrix, b: Vector, rows: Terms, gauge: seq<nat>, G: Matrix, c: Vector,
                                            z: Vector, y: Vector)
    requires IsRows(rows, |z|) && Encodes(A, b, rows, |z|) && IsGauged(A, b, gauge, G, c, |z|)
    requires SoleSolution(G, c, z) && |y| == |z| && ZeroOn(y, gauge)
    ensures Dot(Gradient(rows, z), Minus(y, z), 0, |z|) == 0.0
  {
    hide Encodes, IsGauged, Dot, Gradient;
    GaugedSolution(A, b, rows, gauge, G, c, z);
    DotZero(Gradient(rows, z), Minus(y, z), 0, |z|);
  }

  lemma {:induction false} SameGradientSolves(A: Matrix, b: Vector, rows: Terms, gauge: seq<nat>, G: Matrix, c: Vector,
                                              z: Vector, y: Vector)
    requires IsRows(rows, |z|) && Encodes(A, b, rows, |z|) && IsGauged(A, b, gauge, G, c, |z|)
    requires SoleSolution(G, c, z) && |y| == |z| && ZeroOn(y, gauge)
    requires Gradient(rows, y) == Gradient(rows, z)
    ensures y == z
  {
    hide Encodes, IsGauged;
    GaugedSolution(A, b, rows, gauge, G, c, z);
    GaugedSolution(A, b, rows, gauge, G, c, y);
    assert Solves(G, c, y);
  }

  /** A stationary point minimises over all vectors. */
  lemma {:induction false} StationaryMinimises(rows: Terms, z: Vector, y: Vector)
    requires IsRows(rows, |z|) && |y| == |z| && Gradient(rows, z) == Zeros(|z|)
    ensures Objective(rows, z) <= Objective(rows, y)
  {
    var d := Minus(y, z);
    assert Plus(z, d) == y;
    DotZero(Gradient(rows, z), d, 0, |z|);
    Expansion(rows, z, d);
  }

  /** Along a direction the gradient grows by exactly the homogeneous part. */
  lemma {:induction false} GradientStep(rows: Terms, z: Vector, d: Vector)
    requires IsRows(rows, |z|) && |d| == |z|
    ensures Dot(Gradient(rows, Plus(z, d)), d, 0, |z|) == Dot(Gradient(rows, z), d, 0, |z|) + Quad(rows, d)
  {
    match rows
    case Nil => DotZero(Zeros(|z|), d, 0, |z|);
    case Snoc(init, last) =>
      GradientStep(init, z, d);
      var w, r, s := last.weight, Residual(last, z), Dot(last.coef, d, 0, |d|);
      ResidualPlus(last, z, d);
      DotAddScaled(Gradient(init, z), Mul(w, r), last.coef, d, |z|);
      DotAddScaled(Gradient(init, Plus(z, d)), Mul(w, r + s), last.coef, d, |z|);
      StepTerm(w, r, s);
      hide Mul, Dot;
  }

  lemma {:induction false} StepTerm(w: real, r: real, s: real)
    ensures Mul(Mul(w, r + s), s) == Mul(Mul(w, r), s) + Weighted(w, s)
  {
    hide Mul;
    Distribute(w, r, s);
    Distribute(s, Mul(w, r), Mul(w, s));
    Associate(w, s, s);
  }

  lemma {:induction false} EncodedImage(A: Matrix, b: Vector, rows: Terms, z: Vector, k: nat)
    requires Encodes(A, b, rows, |z|) && k < |z|
    ensures Dot(A[k], z, 0, |z|) == Gradient(rows, z)[k] - Gradient(rows, Zeros(|z|))[k]
  {
    var n := |z|;
    assert Dot(A[k], z, 0, n) - b[k] == Gradient(rows, z)[k];
    assert Dot(A[k], Zeros(n), 0, n) - b[k] == Gradient(rows, Zeros(n))[k];
    DotZero(A[k], Zeros(n), 0, n);
  }

  lemma {:induction false} DotCommutes(u: Vector, x: Vector, hi: nat)
    requires hi <= |u| && hi <= |x|
    ensures Dot(u, x, 0, hi) == Dot(x, u, 0, hi)
  {
    if hi > 0 { DotCommutes(u, x, hi - 1); }
  }

  /** The diagonal of an assembled matrix is the objective's curvature along each coordinate. */
  lemma {:induction false} DiagonalIsCurvature(A: Matrix, b: Vector, rows: Terms, k: nat, n: nat)
    requires Encodes(A, b, rows, n) && k < n
    ensures A[k][k] == Quad(rows, Unit(k, n))
  {
    hide Encodes, Gradient, Quad, Unit, Dot;
    EncodesMatrix(A, b, rows, n);
    var e, o := Unit(k, n), Zeros(n);
    EncodedImage(A, b, rows, e, k);
    GradientStep(rows, o, e);
    PlusZeros(e);
    UnitPicks(Gradient(rows, e), k);
    UnitPicks(Gradient(rows, o), k);
    UnitPicks(A[k], k);
  }

  lemma {:induction false} EncodesMatrix(A: Matrix, b: Vector, rows: Terms, n: nat)
    requires Encodes(A, b, rows, n)
    ensures IsMatrix(A, n) && |b| == n && IsRows(rows, n)
  {
  }

  lemma {:induction false} PlusZeros(e: Vector)
    ensures Plus(Zeros(|e|), e) == e
  {
  }

  lemma {:induction false} UnitPicks(u: Vector, k: nat)
    requires k < |u|
    ensures Dot(u, Unit(k, |u|), 0, |u|) == u[k]
  {
    DotCommutes(u, Unit(k, |u|), |u|);
    DotUnit(k, u);
  }

  /** The one direction that costs nothing, gauge respected, is none at all. */
  ghost predicate Pinned(rows: Terms, gauge: seq<nat>, n: nat) {
    IsRows(rows, n) && forall z: Vector :: |z| == n && ZeroOn(z, gauge) && Quad(rows, z) == 0.0 ==> z == Zeros(n)
  }

  /** A gauged system of normal equations is regular exactly when its objective is pinned. */
  lemma {:induction false} RegularIffPinned(A: Matrix, b: Vector, rows: Terms, gauge: seq<nat>, G: Matrix, c: Vector,
                                            n: nat)
    requires Encodes(A, b, rows, n) && IsGauged(A, b, gauge, G, c, n) && IsRows(rows, n)
    ensures !IsSingular(G, n) <==> Pinned(rows, gauge, n)
  {
    hide Encodes, IsGauged, Quad;
    if IsSingular(G, n) {
      var z: Vector :| |z| == n && z != Zeros(n) && Solves(G, Zeros(n), z);
      KernelIsFlat(A, b, rows, gauge, G, c, z);
    }
    if !Pinned(rows, gauge, n) {
      var z: Vector :| |z| == n && ZeroOn(z, gauge) && Quad(rows, z) == 0.0 && z != Zeros(n);
      FlatIsKernel(A, b, rows, gauge, G, c, z);
      GaugedIsMatrix(A, b, gauge, G, c, n);
    }
  }

  lemma {:induction false} GaugedIsMatrix(A: Matrix, b: Vector, gauge: seq<nat>, G: Matrix, c: Vector, n: nat)
    requires IsGauged(A, b, gauge, G, c, n)
    ensures IsMatrix(G, n)
  {
  }

  lemma {:induction false} FlatIsKernel(A: Matrix, b: Vector, rows: Terms, gauge: seq<nat>, G: Matrix, c: Vector,
                                        z: Vector)
    requires Encodes(A, b, rows, |z|) && IsGauged(A, b, gauge, G, c, |z|) && IsRows(rows, |z|)
    requires ZeroOn(z, gauge) && Quad(rows, z) == 0.0
    ensures Solves(G, Zeros(|z|), z)
  {
    var n := |z|;
    QuadZeroKeepsGradient(rows, Zeros(n), z);
    PlusZeros(z);
    hide Quad, Gradient;
    forall k | 0 <= k < n ensures Dot(G[k], z, 0, n) == 0.0 {
      if k in gauge { DotUnit(k, z); } else { EncodedImage(A, b, rows, z, k); }
    }
  }

  lemma {:induction false} KernelIsFlat(A: Matrix, b: Vector, rows: Terms, gauge: seq<nat>, G: Matrix, c: Vector,
                                        z: Vector)
    requires Encodes(A, b, rows, |z|) && IsGauged(A, b, gauge, G, c, |z|) && IsRows(rows, |z|)
             && Solves(G, Zeros(|z|), z)
    ensures ZeroOn(z, gauge) && Quad(rows, z) == 0.0
  {
    var n, o := |z|, Zeros(|z|);
    forall k | k in gauge && k < n ensures z[k] == 0.0 {
      assert Dot(G[k], z, 0, n) == 0.0;
      DotUnit(k, z);
    }
    var g0, g := Gradient(rows, o), Gradient(rows, z);
    GradientStep(rows, o, z);
    PlusZeros(z);
    var d := AddScaled(g, -1.0, g0);
    forall k | 0 <= k < n ensures d[k] == 0.0 || z[k] == 0.0 {
      assert Dot(G[k], z, 0, n) == 0.0;
      if k in gauge { DotUnit(k, z); } else { EncodedImage(A, b, rows, z, k); Subtract(g[k], g0[k]); }
    }
    DotZero(d, z, 0, n);
    DotAddScaled(g, -1.0, g0, z, n);
    Subtract(Dot(g, z, 0, n), Dot(g0, z, 0, n));
  }

  lemma {:induction false} Subtract(x: real, y: real)
    ensures x + Mul(-1.0, y) == x - y
  {
  }
}
