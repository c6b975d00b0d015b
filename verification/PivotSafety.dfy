/** When the pivot threshold of the solver cannot bite: offset systems of moderate size are solved exactly when
    every panel is tied to a reference, gain and surface systems of moderate size always
    (crates/mmm-core/src/linalg.rs, `solve_dense`; photometry.rs, `offset_solve` and `global_solve`). */
module PivotSafety {
  import opened Components
  import opened Conditioning
  import opened Entrywise
  import opened LeastSquares
  import opened Linalg
  import opened OffsetSolvability
  import opened Photometry
  import opened Reals

  // ---------------------------------------------------------------- a rejected regular system

  /** Regular, but its second pivot is a tenth of the threshold. */
  const LOPSIDED: seq<real> := [1.0, 0.0, 0.0, 0.00000000000001]

  lemma {:induction false} LopsidedRows()
    ensures IsSquare(|LOPSIDED|, 2) && Rows(LOPSIDED, 2) == [[1.0, 0.0], [0.0, 0.00000000000001]]
  {
    var A := Rows(LOPSIDED, 2);
    assert A[0] == [1.0, 0.0] && A[1] == [0.0, 0.00000000000001];
  }

  lemma {:induction false} LopsidedTiny()
    ensures Tiny(LOPSIDED) == 0.0000000000001
  {
    var s := LOPSIDED;
    assert MaxAbs(s[..1]) == 1.0 by { assert s[..1][..0] == []; }
    assert MaxAbs(s[..2]) == 1.0 by { assert s[..2][..1] == s[..1]; }
    assert MaxAbs(s[..3]) == 1.0 by { assert s[..3][..2] == s[..2]; }
  }

  /** Elimination has nothing to do on a diagonal matrix. */
  lemma {:induction false} DiagonalPivots(A: Matrix, e: real)
    requires A == [[1.0, 0.0], [0.0, e]] && e >= 0.0
    ensures PivotSize(A, 0, 2) == 1.0 && PivotSize(A, 1, 2) == e
  {
    assert FirstLargest(A, 0, 2, 2) == 0 by { assert FirstLargest(A, 0, 1, 2) == 0; }
    assert SwapRows(A, 0, 0) == A;
    assert Cleared(A, 0, 1, 2) == A;
    EliminateNothing(A, 1, 0);
    assert Cleared(A, 0, 2, 2) == A;
    assert Forward(A, 1, 2) == A by { assert Forward(A, 0, 2) == A; }
  }

  lemma {:induction false} DiagonalRegular(A: Matrix, e: real)
    requires A == [[1.0, 0.0], [0.0, e]] && e > 0.0
    ensures !IsSingular(A, 2)
  {
    forall z: Vector | |z| == 2 && Solves(A, Zeros(2), z) ensures z == Zeros(2) {
      assert Dot(A[0], z, 0, 2) == z[0] by { assert Dot(A[0], z, 0, 1) == z[0]; }
      assert Dot(A[1], z, 0, 2) == e * z[1] by { assert Dot(A[1], z, 0, 1) == 0.0; }
    }
  }

  /** The threshold rejects some regular systems. */
  lemma {:induction false} RegularRejected()
    ensures IsSquare(|LOPSIDED|, 2) && !IsSingular(Rows(LOPSIDED, 2), 2) && GivesUp(LOPSIDED, 2, 1)
  {
    hide Rows, Tiny, PivotSize, IsSingular;
    LopsidedRows();
    LopsidedTiny();
    DiagonalPivots(Rows(LOPSIDED, 2), 0.00000000000001);
    DiagonalRegular(Rows(LOPSIDED, 2), 0.00000000000001);
  }

  // ---------------------------------------------------------------- paths without repeats

  /** All panels of `q` are among the first `n`. */
  ghost predicate On(q: seq<nat>, n: nat) {
    forall k :: 0 <= k < |q| ==> q[k] < n
  }

  ghost predicate Distinct(q: seq<nat>) {
    forall k, l :: 0 <= k < l < |q| ==> q[k] != q[l]
  }

  /** Where there is a path there is one that visits no panel twice. */
  lemma {:induction false} SimplePath(edges: seq<Edge>, path: seq<nat>, i: nat, j: nat) returns (q: seq<nat>)
    requires Joins(edges, path, i, j)
    ensures Joins(edges, q, i, j) && Distinct(q)
    decreases |path|
  {
    if |path| == 1 {
      q := path;
    } else {
      var rest := path[1..];
      assert forall k :: 0 <= k < |rest| ==> rest[k] == path[k + 1];
      forall k | 0 <= k < |rest| - 1 ensures Adjacent(edges, rest[k], rest[k + 1]) {
        assert Adjacent(edges, path[k + 1], path[k + 1 + 1]);
      }
      var p := SimplePath(edges, rest, path[1], j);
      assert Adjacent(edges, path[0], path[0 + 1]);
      if i in p {
        var k :| 0 <= k < |p| && p[k] == i;
        q := p[k..];
        forall l | 0 <= l < |q| - 1 ensures Adjacent(edges, q[l], q[l + 1]) {
          assert Adjacent(edges, p[k + l], p[k + l + 1]);
        }
      } else {
        q := [i] + p;
        forall l | 0 <= l < |q| - 1 ensures Adjacent(edges, q[l], q[l + 1]) {
          if l > 0 { var m := l - 1; assert Adjacent(edges, p[m], p[m + 1]); }
        }
      }
    }
  }

  lemma {:induction false} DistinctBound(q: seq<nat>, n: nat)
    requires Distinct(q) && On(q, n)
    ensures |q| <= n
    decreases n
  {
    if q != [] {
      assert q[0] < n;
      if n - 1 in q {
        var k :| 0 <= k < |q| && q[k] == n - 1;
        DistinctBound(q[..k] + q[k + 1..], n - 1);
      } else {
        DistinctBound(q, n - 1);
      }
    }
  }

  // ---------------------------------------------------------------- energy along a path

  ghost function Gap(z: Vector, i: nat, j: nat): (g: real)
    requires i < |z| && j < |z|
    ensures g >= 0.0
  {
    SquareSign(z[i] - z[j]);
    Mul(z[i] - z[j], z[i] - z[j])
  }

  lemma {:induction false} GapSymmetric(z: Vector, i: nat, j: nat)
    requires i < |z| && j < |z|
    ensures Gap(z, i, j) == Gap(z, j, i)
  {
    MulNegate(z[i] - z[j], z[i] - z[j]);
  }

  /** Squared differences over the edges. */
  ghost function Energy(edges: seq<Edge>, z: Vector): (e: real)
    requires InRange(edges, |z|)
    ensures e >= 0.0
  {
    if edges == [] then 0.0
    else Energy(edges[..|edges| - 1], z) + Gap(z, edges[|edges| - 1].a, edges[|edges| - 1].b)
  }

  predicate Is(e: Edge, i: nat, j: nat) {
    (e.a == i && e.b == j) || (e.a == j && e.b == i)
  }

  /** Squared differences over the steps of a path that lie on the edges. */
  ghost function Walked(edges: seq<Edge>, q: seq<nat>, z: Vector): (e: real)
    requires On(q, |z|)
    ensures e >= 0.0
  {
    if |q| < 2 then 0.0
    else
      var i, j := q[|q| - 2], q[|q| - 1];
      Walked(edges, q[..|q| - 1], z) + if Adjacent(edges, i, j) then Gap(z, i, j) else 0.0
  }

  /** A path that visits no panel twice takes an edge at most once. */
  lemma {:induction false} TakenOnce(e: Edge, q: seq<nat>, z: Vector)
    requires Distinct(q) && On(q, |z|) && e.a < |z| && e.b < |z|
    ensures Walked([e], q, z) <= Gap(z, e.a, e.b)
    ensures !(e.a in q && e.b in q) ==> Walked([e], q, z) == 0.0
  {
    if |q| >= 2 {
      var head, i, j := q[..|q| - 1], q[|q| - 2], q[|q| - 1];
      TakenOnce(e, head, z);
      assert Adjacent([e], i, j) <==> Is(e, i, j);
      assert i in head && j !in head;
      GapSymmetric(z, i, j);
    }
  }

  /** One more edge adds at most its own difference. */
  lemma {:induction false} WalkedMore(edges: seq<Edge>, e: Edge, q: seq<nat>, z: Vector)
    requires On(q, |z|)
    ensures Walked(edges + [e], q, z) <= Walked(edges, q, z) + Walked([e], q, z)
  {
    if |q| >= 2 {
      WalkedMore(edges, e, q[..|q| - 1], z);
      var i, j := q[|q| - 2], q[|q| - 1];
      assert Adjacent(edges + [e], i, j) <==> Adjacent(edges, i, j) || Adjacent([e], i, j);
    }
  }

  lemma {:induction false} WalkedNothing(q: seq<nat>, z: Vector)
    requires On(q, |z|)
    ensures Walked([], q, z) == 0.0
  {
    if |q| >= 2 { WalkedNothing(q[..|q| - 1], z); }
  }

  lemma {:induction false} WalkedWithin(edges: seq<Edge>, q: seq<nat>, z: Vector)
    requires Distinct(q) && On(q, |z|) && InRange(edges, |z|)
    ensures Walked(edges, q, z) <= Energy(edges, z)
  {
    if edges == [] {
      WalkedNothing(q, z);
    } else {
      var init, e := edges[..|edges| - 1], edges[|edges| - 1];
      WalkedWithin(init, q, z);
      WalkedMore(init, e, q, z);
      TakenOnce(e, q, z);
      assert edges == init + [e];
    }
  }

  lemma {:induction false} SquareSum(a: real, b: real)
    ensures Mul(a + b, a + b) == Mul(a, a) + 2.0 * Mul(a, b) + Mul(b, b)
  {
    hide Mul;
    Distribute(a + b, a, b);
    Distribute(a, a, b);
    Distribute(b, a, b);
    Associate(a, b, a);
  }

  lemma {:induction false} ProductSum(k: real, s: real, t: real)
    ensures Mul(k + 1.0, s + t) == Mul(k, s) + s + Mul(k, t) + t
  {
    assert Mul(1.0, s + t) == s + t;
    hide Mul;
    Distribute(s + t, k, 1.0);
    Distribute(k, s, t);
  }

  lemma {:induction false} NonNegativeFactor(k: real, r: real)
    requires k >= 1.0 && Mul(k, r) >= 0.0
    ensures r >= 0.0
  {
    if r < 0.0 { NegativeProduct(k, r); }
  }

  lemma {:induction false} NegativeProduct(k: real, r: real)
    requires k > 0.0 && r < 0.0
    ensures Mul(k, r) < 0.0
  {
    Positive(k, -r);
  }

  /** Doubling a product is at most the sum of a share of each square. */
  lemma {:induction false} SharedSquares(k: real, a: real, b: real)
    ensures 0.0 <= Mul(a, a) + Mul(k, Mul(k, Mul(b, b)) - 2.0 * Mul(a, b))
  {
    var x := Mul(-k, b);
    assert Mul(x, x) == Mul(k, Mul(k, Mul(b, b))) && Mul(a, x) == -Mul(k, Mul(a, b)) by {
      assert x == -(k * b);
      var y := k * b;
      assert Mul(x, x) == y * y;
      assert y * y == k * (k * (b * b));
      assert Mul(a, x) == -(a * y);
      assert a * y == k * (a * b);
    }
    SquareSum(a, x);
    SquareSign(a + x);
    var m := Mul(a, b);
    assert Mul(k, 2.0 * m) == 2.0 * Mul(k, m);
    assert Mul(k, Mul(k, Mul(b, b)) - 2.0 * m) == Mul(k, Mul(k, Mul(b, b))) - Mul(k, 2.0 * m);
  }

  lemma {:induction false} Widen(k: real, a: real, b: real, s: real)
    requires k >= 1.0 && Mul(a, a) <= Mul(k, s)
    ensures Mul(a + b, a + b) <= Mul(k + 1.0, s + Mul(b, b))
  {
    hide Mul;
    var t := Mul(k, Mul(b, b)) - 2.0 * Mul(a, b);
    SharedSquares(k, a, b);
    Distribute(k, s, t);
    NonNegativeFactor(k, s + t);
    SquareSum(a, b);
    ProductSum(k, s, Mul(b, b));
  }

  /** The ends of a path differ by no more than its steps and its length allow. */
  lemma {:induction false} EndsGap(edges: seq<Edge>, q: seq<nat>, z: Vector)
    requires IsPath(edges, q) && On(q, |z|)
    ensures q[0] < |z| && q[|q| - 1] < |z| && Gap(z, q[0], q[|q| - 1]) <= Mul(|q| as real - 1.0, Walked(edges, q, z))
  {
    if |q| == 1 {
      assert Mul(0.0, 0.0) == 0.0;
    } else {
      var head, i, j := q[..|q| - 1], q[|q| - 2], q[|q| - 1];
      forall k | 0 <= k < |head| - 1 ensures Adjacent(edges, head[k], head[k + 1]) {
        assert Adjacent(edges, q[k], q[k + 1]);
      }
      EndsGap(edges, head, z);
      var k := |q| - 2;
      assert Adjacent(edges, q[k], q[k + 1]);
      if |q| == 2 {
        assert Walked(edges, head, z) == 0.0;
        assert Mul(1.0, Gap(z, i, j)) == Gap(z, i, j);
      } else {
        assert i == head[|head| - 1];
        Widen(|head| as real - 1.0, z[q[0]] - z[i], z[i] - z[j], Walked(edges, head, z));
        assert (z[q[0]] - z[i]) + (z[i] - z[j]) == z[q[0]] - z[j];
      }
    }
  }

  // ---------------------------------------------------------------- sizes of a difference row

  lemma {:induction false} SizeUpdate(u: Vector, i: nat, v: real, hi: nat)
    requires i < hi <= |u|
    ensures Size(u[i := v], hi) == Size(u, hi) - Abs(u[i]) + Abs(v)
  {
    if i < hi - 1 {
      SizeUpdate(u, i, v, hi - 1);
    } else {
      SizeSame(u, u[i := v], hi - 1);
    }
  }

  lemma {:induction false} SizeSame(u: Vector, v: Vector, hi: nat)
    requires hi <= |u| == |v| && forall j :: 0 <= j < hi ==> u[j] == v[j]
    ensures Size(u, hi) == Size(v, hi)
  {
    if hi > 0 { SizeSame(u, v, hi - 1); }
  }

  lemma {:induction false} SizeZeros(n: nat, hi: nat)
    requires hi <= n
    ensures Size(Zeros(n), hi) == 0.0
  {
    if hi > 0 { SizeZeros(n, hi - 1); }
  }

  lemma {:induction false} TopBound(u: Vector, top: real)
    requires top >= 0.0 && forall j :: 0 <= j < |u| ==> Abs(u[j]) <= top
    ensures MaxAbs(u) <= top
  {
  }

  /** The row `s (x_i - x_j)` has entries of size at most `s`, and at most two of them. */
  lemma {:induction false} DifferenceSize(i: nat, j: nat, s: real, n: nat)
    requires i < n && j < n
    ensures SparseIn(Difference(i, j, s), n)
    ensures MaxAbs(Dense(Difference(i, j, s), n)) <= Abs(s)
    ensures Size(Dense(Difference(i, j, s), n), n) <= 2.0 * Abs(s)
  {
    var c := Difference(i, j, s);
    var z := Zeros(n);
    assert c[..1] == [(i, s)];
    assert c[..1][..0] == c[..0];
    assert Dense(c[..1], n) == z[i := s];
    var u := z[i := s];
    assert Dense(c, n) == u[j := u[j] - s];
    SizeZeros(n, n);
    SizeUpdate(z, i, s, n);
    SizeUpdate(u, j, u[j] - s, n);
    TopBound(u[j := u[j] - s], Abs(s));
  }

  /** What one difference row adds to the two sizes of an objective. */
  lemma {:induction false} DifferenceWeighs(rows: Terms, i: nat, j: nat, s: real, rhs: real, n: nat)
    requires IsRows(rows, n) && i < n && j < n
    ensures SparseIn(Difference(i, j, s), n)
    ensures rows.Snoc? ==> IsRows(rows, |rows.last.coef|)
    ensures var more := Snoc(rows, Row(1.0, Dense(Difference(i, j, s), n), rhs));
            IsRows(more, n) && Peak(more) <= Peak(rows) + Mul(s, s) && Spread(more) <= Spread(rows) + 2.0 * Mul(s, s)
  {
    RowsOwn(rows, n);
    DifferenceSize(i, j, s, n);
    var d := Dense(Difference(i, j, s), n);
    SizesWeigh(rows, Row(1.0, d, rhs), n, s);
  }

  lemma {:induction false} SizesWeigh(rows: Terms, row: Row, n: nat, s: real)
    requires IsRows(rows, n) && |row.coef| == n && row.weight == 1.0 && (rows.Snoc? ==> IsRows(rows, |rows.last.coef|))
    requires MaxAbs(row.coef) <= Abs(s) && Size(row.coef, n) <= 2.0 * Abs(s)
    ensures var more := Snoc(rows, row);
            IsRows(more, n) && Peak(more) <= Peak(rows) + Mul(s, s) && Spread(more) <= Spread(rows) + 2.0 * Mul(s, s)
  {
    AbsSquare(s);
    MulOne(Mul(s, s));
    MulOne(2.0 * Mul(s, s));
    hide Mul, MaxAbs, Size, Peak, Spread;
    RowWeighs(rows, row, n, Abs(s), 2.0 * Abs(s));
  }

  lemma {:induction false} AbsSquare(s: real)
    ensures Mul(Abs(s), Abs(s)) == Mul(s, s) && Mul(Abs(s), 2.0 * Abs(s)) == 2.0 * Mul(s, s)
  {
    MulNegate(s, s);
    assert Mul(s, 2.0 * s) == 2.0 * Mul(s, s);
    assert Mul(-s, 2.0 * -s) == 2.0 * Mul(-s, -s);
  }

  lemma {:induction false} MulOne(x: real)
    ensures Mul(1.0, x) == x
  {
  }

  // ---------------------------------------------------------------- offsets

  lemma {:induction false} OffsetWeighs(fits: seq<EdgeFit>, channel: nat, gains: Vector)
    requires FitsIn(fits, |gains|)
    ensures var rows, e := OffsetTerms(fits, channel, gains), |Links(fits, channel)| as real;
            (rows.Snoc? ==> IsRows(rows, |rows.last.coef|)) && Peak(rows) <= e && Spread(rows) <= 2.0 * e
  {
    if fits != [] {
      var init, f := fits[..|fits| - 1], fits[|fits| - 1];
      OffsetWeighs(init, channel, gains);
      if Contributes(f, channel) {
        DifferenceWeighs(OffsetTerms(init, channel, gains), f.a, f.b, 1.0, Target(f, gains), |gains|);
        assert Mul(1.0, 1.0) == 1.0;
      }
      hide Peak, Spread, Dense, Difference, Target;
    }
  }

  /** The homogeneous part of the offset objective is the energy of the contributing edges. */
  lemma {:induction false} OffsetEnergy(fits: seq<EdgeFit>, channel: nat, gains: Vector, z: Vector)
    requires FitsIn(fits, |gains|) && |z| == |gains|
    ensures InRange(Links(fits, channel), |z|)
    ensures Quad(OffsetTerms(fits, channel, gains), z) == Energy(Links(fits, channel), z)
  {
    if fits != [] {
      var init, f := fits[..|fits| - 1], fits[|fits| - 1];
      OffsetEnergy(init, channel, gains, z);
      if Contributes(f, channel) {
        DotDifference(f.a, f.b, 1.0, z);
        assert Mul(1.0, z[f.a] - z[f.b]) == z[f.a] - z[f.b];
        assert Weighted(1.0, z[f.a] - z[f.b]) == Gap(z, f.a, f.b);
        var links := Links(init, channel);
        assert (links + [Edge(f.a, f.b)])[..|links|] == links;
      } else {
        assert Links(fits, channel) == Links(init, channel);
      }
      hide Weighted, Dot, Target, Mul, Gap;
    }
  }

  /** What the image of a vector and the longest path weigh together, for so many panels and edges. */
  function Burden(panels: nat, edges: nat): int {
    panels * (panels * ((if edges == 0 then 1 else edges) * (1 + 2 * edges)))
  }

  /** Few enough panels and edges for the pivot threshold: some hundred panels and a thousand edges are. */
  predicate Moderate(panels: nat, edges: nat) {
    4 * Burden(panels, edges) < 10_000_000_000_000
  }

  lemma {:induction false} CastProduct(a: nat, b: nat)
    ensures (a * b) as real == Mul(a as real, b as real)
  {
    if a == 0 {
      assert Mul(0.0, b as real) == 0.0;
    } else {
      CastProduct(a - 1, b);
      assert a * b == (a - 1) * b + b;
      OneMore(a - 1, b as real);
    }
  }

  lemma {:induction false} AtLeastAsMuch(n: nat, x: nat)
    requires n > 0
    ensures n * x >= x
  {
    assert n * x == x + (n - 1) * x;
  }

  lemma {:induction false} BurdenCast(n: nat, e: nat)
    ensures Burden(n, e) as real == Mul(n as real, Mul(n as real, Mul(AtLeastOne(e as real), 1.0 + 2.0 * e as real)))
    ensures n > 0 ==> AtLeastOne(e as real) <= Burden(n, e) as real
  {
    var m := if e == 0 then 1 else e;
    var i := 1 + 2 * e;
    assert AtLeastOne(e as real) == m as real && i as real == 1.0 + 2.0 * e as real;
    CastProduct(m, i);
    var x := m * i;
    CastProduct(n, x);
    var y := n * x;
    CastProduct(n, y);
    if n > 0 {
      AtLeastAsMuch(i, m);
      AtLeastAsMuch(n, x);
      AtLeastAsMuch(n, y);
    }
  }

  /** What moderate means in reals: the threshold, the size of the image, and the longest path, together below a
      quarter. */
  lemma {:induction false} ModerateShare(n: nat, e: nat)
    requires Moderate(n, e)
    ensures Mul(n as real, Mul(n as real, Mul(PIVOT_SHARE * AtLeastOne(e as real), 1.0 + 2.0 * e as real))) < 0.25
    ensures n > 0 ==> PIVOT_SHARE * AtLeastOne(e as real) < 0.5
  {
    var m, i, r := AtLeastOne(e as real), 1.0 + 2.0 * e as real, n as real;
    BurdenCast(n, e);
    assert Mul(PIVOT_SHARE * m, i) == PIVOT_SHARE * Mul(m, i);
    ShareOut(r, Mul(m, i));
    ShareOut(r, Mul(r, Mul(m, i)));
    hide Mul, Burden;
    assert 4.0 * (Burden(n, e) as real) < 10000000000000.0;
  }

  lemma {:induction false} ShareOut(r: real, x: real)
    ensures Mul(r, PIVOT_SHARE * x) == PIVOT_SHARE * Mul(r, x)
  {
  }

  lemma {:induction false} FarApart(m: real, r: real, top: real, t: real)
    requires Abs(m) == top && top >= 1.0 && Abs(r) < t < 0.5
    ensures Mul(m - r, m - r) >= 0.25 * Mul(top, top)
  {
    var d, half := Abs(m - r), 0.5 * top;
    AbsSquare(m - r);
    MulGrows(half, half, d, d);
    assert Mul(half, half) == 0.25 * Mul(top, top);
  }

  /** All panels of a path lie in range if the first does. */
  lemma {:induction false} PathOn(edges: seq<Edge>, q: seq<nat>, n: nat)
    requires IsPath(edges, q) && InRange(edges, n) && q[0] < n
    ensures On(q, n)
  {
    forall k | 0 <= k < |q| ensures q[k] < n {
      if k > 0 { var l := k - 1; assert Adjacent(edges, q[l], q[l + 1]); }
    }
  }

  /** An unknown cannot stray from its reference more than the energy allows. */
  lemma {:induction false} AnchorGap(edges: seq<Edge>, refs: seq<nat>, z: Vector, m: nat) returns (r: nat)
    requires InRange(edges, |z|) && Anchored(edges, refs, m) && m < |z|
    ensures r in refs && r < |z| && Gap(z, m, r) <= Mul(|z| as real, Energy(edges, z))
  {
    r :| r in refs && Connected(edges, m, r);
    var path: seq<nat> :| Joins(edges, path, m, r);
    var q := SimplePath(edges, path, m, r);
    PathOn(edges, q, |z|);
    DistinctBound(q, |z|);
    WalkedWithin(edges, q, z);
    EndsGap(edges, q, z);
    hide Mul, Walked, Energy;
    assert q[0] == m && q[|q| - 1] == r < |z| && 1 <= |q| <= |z|;
    assert 0.0 <= |q| as real - 1.0 <= |z| as real;
    MulGrows(|q| as real - 1.0, Walked(edges, q, z), |z| as real, Energy(edges, z));
  }

  /** A vector so cheap cannot stray as far as its largest entry. */
  lemma {:induction false} CannotStray(n: real, t: real, top: real, share: real, spread: real, most: real, quad: real)
    requires n >= 0.0 && 0.0 <= t <= share && top >= 1.0 && 0.0 <= spread <= most
    requires 0.0 <= quad <= Mul(n, Mul(Mul(t, top), 1.0 + spread))
    requires Mul(n, Mul(n, Mul(share, 1.0 + most))) < 0.25
    ensures Mul(n, quad) < 0.25 * Mul(top, top)
  {
    hide Mul;
    var k := Mul(share, 1.0 + most);
    MulGrows(t, top, share, top);
    MulGrows(Mul(t, top), 1.0 + spread, Mul(share, top), 1.0 + most);
    Associate(share, top, 1.0 + most);
    Associate(top, 1.0 + most, share);
    Associate(share, 1.0 + most, top);
    assert Mul(Mul(share, top), 1.0 + most) == Mul(k, top);
    MulGrows(n, Mul(Mul(t, top), 1.0 + spread), n, Mul(k, top));
    Associate(n, k, top);
    MulGrows(n, quad, n, Mul(Mul(n, k), top));
    Associate(n, Mul(n, k), top);
    ShortOfSquare(Mul(n, Mul(n, k)), top);
  }

  lemma {:induction false} ShortOfSquare(x: real, top: real)
    requires x < 0.25 && top >= 1.0
    ensures Mul(x, top) < 0.25 * Mul(top, top)
  {
    Below(x, 0.25, top);
    assert Mul(Mul(0.25, top), top) == 0.25 * Mul(top, top);
  }

  /** With every panel tied to a reference, no pivot of a moderate offset system is below the threshold. */
  lemma {:induction false} AnchoredIsSafe(A: Matrix, b: Vector, fits: seq<EdgeFit>, channel: nat, gains: Vector,
                                          refs: seq<nat>, s: seq<real>, c: Vector, col: nat)
    requires FitsIn(fits, |gains|) && IsSquare(|s|, |gains|)
    requires Encodes(A, b, OffsetTerms(fits, channel, gains), |gains|)
             && IsGauged(A, b, refs, Rows(s, |gains|), c, |gains|)
    requires AllAnchored(Links(fits, channel), refs, |gains|) && Moderate(|gains|, |Links(fits, channel)|)
    ensures !NearlySingular(Rows(s, |gains|), |gains|, col, Tiny(s))
  {
    hide Encodes, Rows, RowAt, Tiny, Quad, Peak, Spread, Links, OffsetTerms, Mul, Moderate, Energy;
    var n, rows, links, G, t := |gains|, OffsetTerms(fits, channel, gains), Links(fits, channel), Rows(s, |gains|),
        Tiny(s);
    if NearlySingular(G, n, col, t) {
      var z: Vector :| |z| == n && z[col] == 1.0 && SmallImage(G, z, 0, t);
      var top := MaxAbs(z);
      assert Abs(z[col]) <= top;
      var m :| 0 <= m < n && Abs(z[m]) == top;
      OffsetEnergy(fits, channel, gains, z);
      var r := AnchorGap(links, refs, z, m);
      assert G[r] == Unit(r, n) && Abs(Dot(G[r], z, 0, n)) < t;
      DotUnit(r, z);
      TinyBound(A, b, rows, refs, s, c, n, r, r);
      OffsetWeighs(fits, channel, gains);
      ModerateShare(n, |links|);
      NearlyFlat(A, b, rows, refs, G, c, z, t, top);
      FarApart(z[m], z[r], top, t);
      CannotStray(n as real, t, top, PIVOT_SHARE * AtLeastOne(|links| as real), Spread(rows), 2.0 * |links| as real,
                  Quad(rows, z));
    }
  }

  /** A moderate offset solve succeeds exactly when every panel is tied to a reference by contributing edges. */
  lemma {:induction false} OffsetsSolvedIff(fits: seq<EdgeFit>, channel: nat, gains: Vector, refs: seq<nat>,
                                            gauged: seq<real>, res: SolveResult)
    requires FitsIn(fits, |gains|) && forall r :: r in refs ==> r < |gains|
    requires IsVerdict(OffsetTerms(fits, channel, gains), refs, |gains|, gauged, res)
    requires Moderate(|gains|, |Links(fits, channel)|)
    ensures res.Ok? <==> AllAnchored(Links(fits, channel), refs, |gains|)
  {
    hide Encodes, IsGauged, IsSingular, AllAnchored, NearlySingular, Tiny, Moderate, Rows, Links, OffsetTerms;
    OffsetVerdict(fits, channel, gains, refs, gauged, res);
    var n, G := |gains|, Rows(gauged, |gains|);
    if res.Singular? && AllAnchored(Links(fits, channel), refs, n) {
      assert IsGaugedMatrix(OffsetTerms(fits, channel, gains), refs, G, n);
      var A: Matrix, b: Vector, c: Vector :| Encodes(A, b, OffsetTerms(fits, channel, gains), n)
          && IsGauged(A, b, refs, G, c, n);
      AnchoredIsSafe(A, b, fits, channel, gains, refs, gauged, c, res.column);
    }
  }

  // ---------------------------------------------------------------- gain potentials

  ghost function TotalWeight(rows: seq<GainRow>): real {
    if rows == [] then 0.0 else TotalWeight(rows[..|rows| - 1]) + rows[|rows| - 1].weight
  }

  lemma {:induction false} EdgesWeigh(rows: seq<GainRow>, n: nat)
    requires GainsIn(rows, n)
    ensures var terms := EdgeTerms(rows, n);
            (terms.Snoc? ==> IsRows(terms, |terms.last.coef|))
            && Peak(terms) <= TotalWeight(rows) && Spread(terms) <= 2.0 * TotalWeight(rows)
  {
    hide Dense, Difference, Size, MaxAbs;
    if rows != [] {
      var init, g := rows[..|rows| - 1], rows[|rows| - 1];
      EdgesWeigh(init, n);
      DifferenceWeighs(EdgeTerms(init, n), g.i, g.j, g.scale, Mul(g.scale, g.logGain), n);
      assert Mul(g.scale, g.scale) == g.weight;
      hide Peak, Spread, Mul;
    }
  }

  lemma {:induction false} UnitSize(k: nat, n: nat)
    requires k < n
    ensures MaxAbs(Unit(k, n)) <= 1.0 && Size(Unit(k, n), n) <= 1.0
  {
    SizeZeros(n, n);
    SizeUpdate(Zeros(n), k, 1.0, n);
    assert Unit(k, n) == Zeros(n)[k := 1.0];
    TopBound(Unit(k, n), 1.0);
  }

  /** What a diagonal penalty adds to the two sizes of an objective. */
  lemma {:induction false} UnitWeighs(rows: Terms, w: real, k: nat, n: nat)
    requires IsRows(rows, n) && k < n && w >= 0.0
    ensures rows.Snoc? ==> IsRows(rows, |rows.last.coef|)
    ensures var more := Snoc(rows, Row(w, Unit(k, n), 0.0));
            IsRows(more, n) && Peak(more) <= Peak(rows) + w && Spread(more) <= Spread(rows) + w
  {
    RowsOwn(rows, n);
    UnitSize(k, n);
    var top, size := MaxAbs(Unit(k, n)), Size(Unit(k, n), n);
    assert Mul(1.0, 1.0) == 1.0 && Mul(w, 1.0) == w;
    hide Mul, Size, MaxAbs, Unit;
    MulGrows(top, top, 1.0, 1.0);
    MulGrows(top, size, 1.0, 1.0);
    MulGrows(w, Mul(top, top), w, 1.0);
    MulGrows(w, Mul(top, size), w, 1.0);
  }

  lemma {:induction false} RidgeWeighs(base: Terms, n: nat, hi: nat)
    requires IsRows(base, n) && hi <= n
    ensures base.Snoc? ==> IsRows(base, |base.last.coef|)
    ensures var terms, ridge := RidgeTerms(base, n, hi), hi as real * GAIN_RIDGE;
            (terms.Snoc? ==> IsRows(terms, |terms.last.coef|))
            && Peak(terms) <= Peak(base) + ridge && Spread(terms) <= Spread(base) + ridge
  {
    RowsOwn(base, n);
    if hi > 0 {
      RidgeWeighs(base, n, hi - 1);
      UnitWeighs(RidgeTerms(base, n, hi - 1), GAIN_RIDGE, hi - 1, n);
      hide Peak, Spread, Unit;
    }
  }

  lemma {:induction false} RidgeIsCoercive(base: Terms, z: Vector, hi: nat, k: nat)
    requires IsRows(base, |z|) && k < hi <= |z|
    ensures Mul(GAIN_RIDGE, Mul(z[k], z[k])) <= Quad(RidgeTerms(base, |z|, hi), z)
  {
    DotUnit(hi - 1, z);
    SquareSign(z[hi - 1]);
    MulSign(GAIN_RIDGE, Mul(z[hi - 1], z[hi - 1]));
    if k < hi - 1 { RidgeIsCoercive(base, z, hi - 1, k); }
    hide Mul, Dot, Unit;
  }

  /** Few enough panels, and light enough edges, for the pivot threshold against the gain ridge. */
  predicate LightGains(n: nat, weight: real) {
    var ridge := n as real * GAIN_RIDGE;
    Mul(n as real, Mul(PIVOT_SHARE * AtLeastOne(weight + ridge), 1.0 + (2.0 * weight + ridge))) < GAIN_RIDGE
  }

  lemma {:induction false} MildFromBounds(rows: Terms, n: nat, mu: real, peak: real, spread: real)
    requires rows.Snoc? ==> IsRows(rows, |rows.last.coef|)
    requires Peak(rows) <= peak && Spread(rows) <= spread
    requires Mul(n as real, Mul(PIVOT_SHARE * AtLeastOne(peak), 1.0 + spread)) < mu
    ensures Mild(rows, n, mu)
  {
    hide Mul, Peak, Spread;
    var p, q := PIVOT_SHARE * AtLeastOne(Peak(rows)), PIVOT_SHARE * AtLeastOne(peak);
    MulGrows(p, 1.0 + Spread(rows), q, 1.0 + spread);
    MulGrows(n as real, Mul(p, 1.0 + Spread(rows)), n as real, Mul(q, 1.0 + spread));
  }

  /** A light gain solve always succeeds. */
  lemma {:induction false} PotentialsSolved(rows: seq<GainRow>, refs: seq<nat>, n: nat, gauged: seq<real>,
                                            res: SolveResult)
    requires GainsIn(rows, n) && LightGains(n, TotalWeight(rows))
    requires IsVerdict(RidgeTerms(EdgeTerms(rows, n), n, n), refs, n, gauged, res)
    ensures res.Ok?
  {
    hide Encodes, IsGauged, IsSingular, NearlySingular, Tiny, Rows, Peak, Spread, Quad, Mul;
    var base := EdgeTerms(rows, n);
    var terms, G := RidgeTerms(base, n, n), Rows(gauged, n);
    forall z: Vector, k: nat | |z| == n && k < n ensures Mul(GAIN_RIDGE, Mul(z[k], z[k])) <= Quad(terms, z) {
      RidgeIsCoercive(base, z, n, k);
    }
    EdgesWeigh(rows, n);
    RidgeWeighs(base, n, n);
    var ridge := n as real * GAIN_RIDGE;
    MildFromBounds(terms, n, GAIN_RIDGE, TotalWeight(rows) + ridge, 2.0 * TotalWeight(rows) + ridge);
    if res.Singular? {
      assert IsGaugedMatrix(terms, refs, G, n);
      var A: Matrix, b: Vector, c: Vector :| Encodes(A, b, terms, n) && IsGauged(A, b, refs, G, c, n);
      MildIsSolved(A, b, terms, refs, gauged, c, n, GAIN_RIDGE, res.column);
    }
  }
}
