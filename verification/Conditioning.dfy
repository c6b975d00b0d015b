/** How small a pivot of a gauged least-squares system can be: a vector of unit size that the gauged matrix
    nearly annihilates costs almost nothing under the objective (crates/mmm-core/src/linalg.rs, `solve_dense`,
    with the assemblies of photometry.rs and surfaces.rs). */
module Conditioning {
  import opened Entrywise
  import opened LeastSquares
  import opened Linalg
  import opened Reals
  import Grid

  // ---------------------------------------------------------------- sizes

  /** Sum of the absolute values of the first `hi` entries. */
  ghost function Size(u: Vector, hi: nat): (s: real)
    requires hi <= |u|
    ensures s >= 0.0
  {
    if hi == 0 then 0.0 else Size(u, hi - 1) + Abs(u[hi - 1])
  }

  lemma {:induction false} AbsTriangle(x: real, y: real, p: real, q: real)
    requires Abs(x) <= p && Abs(y) <= q
    ensures Abs(x + y) <= p + q
  {
  }

  lemma {:induction false} AbsProduct(x: real, y: real, p: real, q: real)
    requires Abs(x) <= p && Abs(y) <= q
    ensures Abs(Mul(x, y)) <= Mul(p, q) && Mul(p, q) >= 0.0
  {
    var a, b := Abs(x), Abs(y);
    assert Abs(Mul(x, y)) == Mul(a, b) by {
      if x < 0.0 {
        if y < 0.0 { MulNegate(x, y); } else { assert Mul(-x, y) == -Mul(x, y); MulSign(-x, y); }
      } else {
        if y < 0.0 { assert Mul(x, -y) == -Mul(x, y); MulSign(x, -y); } else { MulSign(x, y); }
      }
      if x < 0.0 && y < 0.0 { MulSign(-x, -y); }
    }
    MulGrows(a, b, p, q);
  }

  lemma {:induction false} MulGrows(a: real, b: real, p: real, q: real)
    requires 0.0 <= a <= p && 0.0 <= b <= q
    ensures 0.0 <= Mul(a, b) <= Mul(p, q)
  {
    MulSign(a, b);
    assert Mul(p, q) == Mul(a, b) + Mul(p - a, b) + Mul(p, q - b);
    hide Mul;
    MulSign(p - a, b);
    MulSign(p, q - b);
  }

  /** A product with a vector bounded by `top`. */
  lemma {:induction false} DotBound(u: Vector, z: Vector, top: real, hi: nat)
    requires hi <= |u| && hi <= |z| && forall j :: 0 <= j < hi ==> Abs(z[j]) <= top
    ensures Abs(Dot(u, z, 0, hi)) <= Mul(Size(u, hi), top)
  {
    if hi == 0 {
      assert Mul(0.0, top) == 0.0;
    } else {
      DotBound(u, z, top, hi - 1);
      var x, y := u[hi - 1], z[hi - 1];
      AbsProduct(x, y, Abs(x), top);
      assert Mul(x, y) == x * y;
      Distribute(top, Size(u, hi - 1), Abs(x));
      AbsTriangle(Dot(u, z, 0, hi - 1), x * y, Mul(Size(u, hi - 1), top), Mul(Abs(x), top));
    }
  }

  // ---------------------------------------------------------------- what an objective can do to a vector

  /** Bounds every entry of the normal equations. */
  ghost function Peak(rows: Terms): (p: real)
    requires rows.Snoc? ==> IsRows(rows, |rows.last.coef|)
    ensures p >= 0.0
  {
    if rows.Nil? then 0.0
    else
      var top := MaxAbs(rows.last.coef);
      MulSign(top, top);
      MulSign(rows.last.weight, Mul(top, top));
      InitRows(rows);
      Peak(rows.init) + Mul(rows.last.weight, Mul(top, top))
  }

  /** Bounds the image of a vector of unit size under the normal equations. */
  ghost function Spread(rows: Terms): (p: real)
    requires rows.Snoc? ==> IsRows(rows, |rows.last.coef|)
    ensures p >= 0.0
  {
    if rows.Nil? then 0.0
    else
      var top, size := MaxAbs(rows.last.coef), Size(rows.last.coef, |rows.last.coef|);
      MulSign(top, size);
      MulSign(rows.last.weight, Mul(top, size));
      InitRows(rows);
      Spread(rows.init) + Mul(rows.last.weight, Mul(top, size))
  }

  lemma {:induction false} InitRows(rows: Terms)
    requires rows.Snoc? && IsRows(rows, |rows.last.coef|)
    ensures rows.init.Snoc? ==> IsRows(rows.init, |rows.init.last.coef|)
  {
  }

  lemma {:induction false} RowsOwn(rows: Terms, n: nat)
    requires IsRows(rows, n)
    ensures rows.Snoc? ==> IsRows(rows, |rows.last.coef|)
  {
  }

  /** One entry of the image, without the right-hand side. */
  ghost function Image(rows: Terms, z: Vector, k: nat): real
    requires IsRows(rows, |z|) && k < |z|
  {
    Gradient(rows, z)[k] - Gradient(rows, Zeros(|z|))[k]
  }

  /** The image row by row: the last term adds its weighted product with `z` in its own direction. */
  lemma {:induction false} ImageStep(rows: Terms, z: Vector, k: nat)
    requires rows.Snoc? && IsRows(rows, |z|) && k < |z|
    ensures var d := Dot(rows.last.coef, z, 0, |z|);
            Image(rows, z, k) == Image(rows.init, z, k) + Mul(Mul(rows.last.weight, d), rows.last.coef[k])
  {
    var w, c, o := rows.last.weight, rows.last.coef, Zeros(|z|);
    var d, r := Dot(c, z, 0, |z|), Residual(rows.last, o);
    DotCommutes(c, o, |z|);
    DotZero(c, o, 0, |z|);
    assert Residual(rows.last, z) == d + r;
    Distribute(w, d, r);
    Distribute(c[k], Mul(w, d), Mul(w, r));
    hide Mul, Dot;
  }

  /** No entry of the image exceeds the spread times the size of the vector. */
  lemma {:induction false} ImageBound(rows: Terms, z: Vector, top: real, k: nat)
    requires IsRows(rows, |z|) && k < |z| && forall j :: 0 <= j < |z| ==> Abs(z[j]) <= top
    ensures rows.Snoc? ==> IsRows(rows, |rows.last.coef|)
    ensures Abs(Image(rows, z, k)) <= Mul(Spread(rows), top)
  {
    RowsOwn(rows, |z|);
    if rows.Nil? {
      assert Mul(0.0, top) == 0.0;
    } else {
      var w, c := rows.last.weight, rows.last.coef;
      var d, m, size := Dot(c, z, 0, |z|), MaxAbs(c), Size(c, |c|);
      InitRows(rows);
      ImageBound(rows.init, z, top, k);
      ImageStep(rows, z, k);
      DotBound(c, z, top, |z|);
      hide Mul, Dot, Size, Image;
      AbsProduct(w, d, w, Mul(size, top));
      AbsProduct(Mul(w, d), c[k], Mul(w, Mul(size, top)), m);
      Associate(w, Mul(size, top), m);
      Associate(size, top, m);
      Associate(top, m, size);
      Associate(m, size, top);
      Associate(w, Mul(m, size), top);
      assert Mul(Mul(w, Mul(size, top)), m) == Mul(Mul(w, Mul(m, size)), top);
      Distribute(top, Spread(rows.init), Mul(w, Mul(m, size)));
      AbsTriangle(Image(rows.init, z, k), Mul(Mul(w, d), c[k]), Mul(Spread(rows.init), top),
                  Mul(Mul(w, Mul(m, size)), top));
    }
  }

  /** No entry of the image of a coordinate vector exceeds the peak. */
  lemma {:induction false} UnitImageBound(rows: Terms, n: nat, j: nat, k: nat)
    requires IsRows(rows, n) && j < n && k < n
    ensures rows.Snoc? ==> IsRows(rows, |rows.last.coef|)
    ensures Abs(Image(rows, Unit(j, n), k)) <= Peak(rows)
  {
    RowsOwn(rows, n);
    if rows.Snoc? {
      var w, c, e := rows.last.weight, rows.last.coef, Unit(j, n);
      var m := MaxAbs(c);
      InitRows(rows);
      UnitImageBound(rows.init, n, j, k);
      ImageStep(rows, e, k);
      UnitPicks(c, j);
      hide Mul, Dot, Image, Unit;
      AbsProduct(w, c[j], w, m);
      AbsProduct(Mul(w, c[j]), c[k], Mul(w, m), m);
      Associate(w, m, m);
      AbsTriangle(Image(rows.init, e, k), Mul(Mul(w, c[j]), c[k]), Peak(rows.init), Mul(w, Mul(m, m)));
    }
  }

  // ---------------------------------------------------------------- nearly annihilated vectors cost little

  /** The homogeneous part is the image against the vector itself. */
  lemma {:induction false} EnergyIsQuad(rows: Terms, z: Vector)
    requires IsRows(rows, |z|)
    ensures Dot(AddScaled(Gradient(rows, z), -1.0, Gradient(rows, Zeros(|z|))), z, 0, |z|) == Quad(rows, z)
  {
    var g, g0 := Gradient(rows, z), Gradient(rows, Zeros(|z|));
    GradientStep(rows, Zeros(|z|), z);
    PlusZeros(z);
    DotAddScaled(g, -1.0, g0, z, |z|);
    hide Dot, Quad;
    Subtract(Dot(g, z, 0, |z|), Dot(g0, z, 0, |z|));
  }

  lemma {:induction false} OneMore(k: nat, each: real)
    ensures Mul((k + 1) as real, each) == Mul(k as real, each) + each
  {
    var r := k as real;
    assert (k + 1) as real == r + 1.0;
    assert (r + 1.0) * each == r * each + each;
  }

  lemma {:induction false} DotTermwise(u: Vector, z: Vector, each: real, hi: nat)
    requires hi <= |u| && hi <= |z| && forall k :: 0 <= k < hi ==> Abs(Mul(u[k], z[k])) <= each
    ensures Dot(u, z, 0, hi) <= Mul(hi as real, each)
  {
    if hi == 0 {
      assert Mul(0.0, each) == 0.0;
    } else {
      var k := hi - 1;
      DotTermwise(u, z, each, k);
      assert Abs(Mul(u[k], z[k])) <= each;
      assert Dot(u, z, 0, hi) == Dot(u, z, 0, k) + Mul(u[k], z[k]);
      OneMore(k, each);
    }
  }

  lemma {:induction false} Rotate(s: real, top: real, t: real)
    ensures Mul(Mul(s, top), t) == Mul(Mul(t, top), s)
  {
    hide Mul;
    Associate(s, top, t);
    Associate(top, t, s);
    Associate(s, Mul(top, t), t);
  }

  /** What one entry of a nearly annihilated vector adds: off the gauge the image is small, on it the entry. */
  lemma {:induction false} EntryEnergy(A: Matrix, b: Vector, rows: Terms, gauge: seq<nat>, G: Matrix, c: Vector,
                                       z: Vector, t: real, top: real, k: nat)
    requires Encodes(A, b, rows, |z|) && IsGauged(A, b, gauge, G, c, |z|) && IsRows(rows, |z|) && SmallImage(G, z, 0, t)
    requires (forall j :: 0 <= j < |z| ==> Abs(z[j]) <= top) && k < |z|
    ensures rows.Snoc? ==> IsRows(rows, |rows.last.coef|)
    ensures Abs(Mul(Image(rows, z, k), z[k])) <= Mul(Mul(t, top), 1.0 + Spread(rows))
  {
    RowsOwn(rows, |z|);
    var s := Spread(rows);
    assert Abs(Dot(G[k], z, 0, |z|)) < t;
    if k in gauge {
      DotUnit(k, z);
      ImageBound(rows, z, top, k);
      AbsProduct(Image(rows, z, k), z[k], Mul(s, top), t);
      Rotate(s, top, t);
    } else {
      EncodedImage(A, b, rows, z, k);
      AbsProduct(Image(rows, z, k), z[k], t, top);
    }
    Distribute(Mul(t, top), 1.0, s);
    assert Mul(Mul(t, top), 1.0) == Mul(t, top);
    hide Mul;
    AbsProduct(t, top, t, top);
    MulSign(Mul(t, top), s);
  }

  /** A nearly annihilated vector costs at most its size times the threshold, per entry. */
  lemma {:induction false} NearlyFlat(A: Matrix, b: Vector, rows: Terms, gauge: seq<nat>, G: Matrix, c: Vector,
                                      z: Vector, t: real, top: real)
    requires Encodes(A, b, rows, |z|) && IsGauged(A, b, gauge, G, c, |z|) && IsRows(rows, |z|) && SmallImage(G, z, 0, t)
    requires forall j :: 0 <= j < |z| ==> Abs(z[j]) <= top
    ensures rows.Snoc? ==> IsRows(rows, |rows.last.coef|)
    ensures Quad(rows, z) <= Mul(|z| as real, Mul(Mul(t, top), 1.0 + Spread(rows)))
  {
    RowsOwn(rows, |z|);
    var d := AddScaled(Gradient(rows, z), -1.0, Gradient(rows, Zeros(|z|)));
    EnergyIsQuad(rows, z);
    var each := Mul(Mul(t, top), 1.0 + Spread(rows));
    forall k | 0 <= k < |z| ensures Abs(Mul(d[k], z[k])) <= each {
      EntryEnergy(A, b, rows, gauge, G, c, z, t, top, k);
      Subtract(Gradient(rows, z)[k], Gradient(rows, Zeros(|z|))[k]);
      assert d[k] == Image(rows, z, k);
    }
    hide Mul, Dot, Quad, Spread, Gradient, Encodes, IsGauged, SmallImage;
    DotTermwise(d, z, each, |z|);
  }

  /** What a row adds to the two sizes of an objective. */
  lemma {:induction false} RowWeighs(rows: Terms, row: Row, n: nat, top: real, size: real)
    requires IsRows(rows, n) && |row.coef| == n && row.weight >= 0.0
    requires MaxAbs(row.coef) <= top && Size(row.coef, n) <= size
    ensures rows.Snoc? ==> IsRows(rows, |rows.last.coef|)
    ensures var more := Snoc(rows, row);
            && IsRows(more, n)
            && Peak(more) <= Peak(rows) + Mul(row.weight, Mul(top, top))
            && Spread(more) <= Spread(rows) + Mul(row.weight, Mul(top, size))
  {
    RowsOwn(rows, n);
    hide Mul, MaxAbs, Size;
    var m, s, w := MaxAbs(row.coef), Size(row.coef, n), row.weight;
    MulGrows(m, m, top, top);
    MulGrows(m, s, top, size);
    MulGrows(w, Mul(m, m), w, Mul(top, top));
    MulGrows(w, Mul(m, s), w, Mul(top, size));
  }

  // ---------------------------------------------------------------- the threshold

  function AtLeastOne(x: real): (r: real)
    ensures r >= 1.0 && r >= x && (r == 1.0 || r == x)
  {
    if x < 1.0 then 1.0 else x
  }

  /** The pivot threshold, as a share of the largest entry. */
  const PIVOT_SHARE: real := 0.0000000000001

  /** No entry of a gauged matrix exceeds one or the peak. */
  lemma {:induction false} EntryBound(A: Matrix, b: Vector, rows: Terms, gauge: seq<nat>, G: Matrix, c: Vector, n: nat,
                                      k: nat, j: nat)
    requires Encodes(A, b, rows, n) && IsGauged(A, b, gauge, G, c, n) && IsRows(rows, n) && k < n && j < n
    ensures rows.Snoc? ==> IsRows(rows, |rows.last.coef|)
    ensures Abs(G[k][j]) <= AtLeastOne(Peak(rows))
  {
    RowsOwn(rows, n);
    if k !in gauge {
      UnitImageBound(rows, n, j, k);
      EncodedImage(A, b, rows, Unit(j, n), k);
      UnitPicks(A[k], j);
    }
  }

  lemma {:induction false} FlatBound(s: seq<real>, n: nat, bound: real)
    requires IsSquare(|s|, n) && bound >= 0.0
    requires forall k, j :: 0 <= k < n && 0 <= j < n ==> Abs(Rows(s, n)[k][j]) <= bound
    ensures MaxAbs(s) <= bound
  {
    if MaxAbs(s) != 0.0 {
      var i :| 0 <= i < |s| && Abs(s[i]) == MaxAbs(s);
      var j, k := Grid.CellOf(n, n, i);
      EntryAt(s, n, k, j);
    }
  }

  /** The threshold of a gauged matrix that is not zero. */
  lemma {:induction false} TinyBound(A: Matrix, b: Vector, rows: Terms, gauge: seq<nat>, s: seq<real>, c: Vector,
                                     n: nat, k: nat, j: nat)
    requires IsSquare(|s|, n) && Encodes(A, b, rows, n) && IsGauged(A, b, gauge, Rows(s, n), c, n) && IsRows(rows, n)
    requires k < n && j < n && Rows(s, n)[k][j] != 0.0
    ensures rows.Snoc? ==> IsRows(rows, |rows.last.coef|)
    ensures 0.0 < Tiny(s) <= PIVOT_SHARE * AtLeastOne(Peak(rows))
  {
    RowsOwn(rows, n);
    var bound := AtLeastOne(Peak(rows));
    forall k, j | 0 <= k < n && 0 <= j < n ensures Abs(Rows(s, n)[k][j]) <= bound {
      EntryBound(A, b, rows, gauge, Rows(s, n), c, n, k, j);
    }
    FlatBound(s, n, bound);
    EntryAt(s, n, k, j);
    assert Abs(s[k * n + j]) > 0.0;
  }

  // ---------------------------------------------------------------- objectives that grow in every direction

  /** The objective charges every unknown at least `mu` times its square. */
  ghost predicate Coercive(rows: Terms, n: nat, mu: real) {
    && IsRows(rows, n) && mu > 0.0
    && forall z: Vector, k: nat :: |z| == n && k < n ==> Mul(mu, Mul(z[k], z[k])) <= Quad(rows, z)
  }

  /** The system is small and mild enough for the pivot threshold. */
  ghost predicate Mild(rows: Terms, n: nat, mu: real) {
    && (rows.Snoc? ==> IsRows(rows, |rows.last.coef|))
    && Mul(n as real, Mul(PIVOT_SHARE * AtLeastOne(Peak(rows)), 1.0 + Spread(rows))) < mu
  }

  lemma {:induction false} CoerciveEntry(A: Matrix, b: Vector, rows: Terms, gauge: seq<nat>, G: Matrix, c: Vector,
                                         n: nat, mu: real, k: nat)
    requires Encodes(A, b, rows, n) && IsGauged(A, b, gauge, G, c, n) && Coercive(rows, n, mu) && k < n
    ensures G[k][k] != 0.0
  {
    if k !in gauge {
      DiagonalIsCurvature(A, b, rows, k, n);
      var e := Unit(k, n);
      assert Mul(mu, Mul(e[k], e[k])) <= Quad(rows, e);
      assert Mul(1.0, 1.0) == 1.0 && Mul(mu, 1.0) == mu;
    }
  }

  lemma {:induction false} TooFlat(mu: real, n: real, t: real, top: real, most: real, spread: real)
    requires 0.0 < mu && top >= 1.0 && 0.0 <= t <= most && n >= 0.0 && spread >= 0.0
    requires Mul(n, Mul(most, 1.0 + spread)) < mu
    ensures Mul(n, Mul(Mul(t, top), 1.0 + spread)) < Mul(mu, Mul(top, top))
  {
    var one := 1.0 + spread;
    Rotate(t, top, one);
    Associate(t, one, top);
    Associate(Mul(t, one), top, n);
    assert Mul(Mul(t, top), one) == Mul(Mul(t, one), top) by {
      hide Mul; Associate(t, top, one); Associate(top, one, t);
    }
    MulGrows(t, one, most, one);
    hide Mul;
    Associate(n, Mul(t, one), top);
    MulGrows(n, Mul(t, one), n, Mul(most, one));
    Associate(mu, top, top);
    Below(Mul(n, Mul(t, one)), mu, top);
  }

  lemma {:induction false} Below(x: real, mu: real, top: real)
    requires x < mu && top >= 1.0 && mu > 0.0
    ensures Mul(x, top) < Mul(Mul(mu, top), top)
  {
    var d := mu - x;
    assert Mul(mu, top) == Mul(x, top) + Mul(d, top);
    MulPositive(d, top);
    assert Mul(Mul(mu, top), top) == Mul(mu, top) + Mul(Mul(mu, top), top - 1.0);
    hide Mul;
    MulPositive(mu, top);
    MulSign(Mul(mu, top), top - 1.0);
  }

  /** No pivot of a mild coercive system is below the threshold. */
  lemma {:induction false} MildIsSolved(A: Matrix, b: Vector, rows: Terms, gauge: seq<nat>, s: seq<real>, c: Vector,
                                        n: nat, mu: real, col: nat)
    requires IsSquare(|s|, n) && Encodes(A, b, rows, n) && IsGauged(A, b, gauge, Rows(s, n), c, n)
    requires Coercive(rows, n, mu) && Mild(rows, n, mu)
    ensures !NearlySingular(Rows(s, n), n, col, Tiny(s))
  {
    hide Encodes, IsGauged, Rows, RowAt, Tiny, Quad, Peak, Spread;
    var G, t := Rows(s, n), Tiny(s);
    if NearlySingular(G, n, col, t) {
      var z: Vector :| |z| == n && z[col] == 1.0 && SmallImage(G, z, 0, t);
      CoerciveEntry(A, b, rows, gauge, G, c, n, mu, col);
      TinyBound(A, b, rows, gauge, s, c, n, col, col);
      var top := MaxAbs(z);
      NearlyFlat(A, b, rows, gauge, G, c, z, t, top);
      assert Abs(z[col]) <= top;
      var k :| 0 <= k < n && Abs(z[k]) == top;
      assert Mul(mu, Mul(z[k], z[k])) <= Quad(rows, z);
      assert Mul(z[k], z[k]) == Mul(top, top) by { MulNegate(z[k], z[k]); }
      TooFlat(mu, n as real, t, top, PIVOT_SHARE * AtLeastOne(Peak(rows)), Spread(rows));
    }
  }
}
