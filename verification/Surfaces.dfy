/** Residual correction surfaces: one channel's global polynomial fit, from the kept residual cells of the
    overlaps, with a footprint ridge, a diagonal stabilizer and one gauged constant per component
    (crates/mmm-core/src/surfaces.rs). */
module Surfaces {
  import opened Entrywise
  import opened LeastSquares
  import opened Linalg
  import opened Photometry
  import opened Reals
  import Indexing

  const RIDGE_LAMBDA: real := 0.001
  const STABILIZER: real := 0.000000001

  /** A background cell both panels cover: its position on the canvas and the residual there. */
  datatype Cell = Cell(x: real, y: real, r: real)

  /** The kept cells of one overlap. */
  datatype Overlap = Overlap(a: nat, b: nat, cells: seq<Cell>)

  datatype Point = Point(x: real, y: real)

  function TermCount(order: nat): (t: nat)
    ensures t == 1 || t == 3 || t == 6
  {
    if order == 0 then 1 else if order == 1 then 3 else 6
  }

  /** One coefficient for each monomial up to the order's degree, and none past the second. */
  lemma {:induction false} TermsOfDegree(order: nat)
    ensures order <= 2 ==> 2 * TermCount(order) == (order + 1) * (order + 2)
    ensures order > 2 ==> TermCount(order) == TermCount(2)
  {
    assert order == 0 || order == 1 || order == 2 || order > 2;
  }

  function Basis(t: nat, x: real, y: real): (phi: Vector)
    requires t == 1 || t == 3 || t == 6
    ensures |phi| == t
  {
    if t == 1 then [1.0] else if t == 3 then [1.0, x, y] else [1.0, x, y, x * x, x * y, y * y]
  }

  /** Where panel `p`'s coefficients start. */
  function Start(p: nat, t: nat): (r: nat) {
    NotBelowZero(p, t);
    p * t
  }

  lemma {:induction false} NotBelowZero(p: nat, t: nat)
    ensures p * t >= 0
  {
  }

  /** The surface of panel `p` at a point, as the coefficients are evaluated. */
  function Eval(z: Vector, t: nat, p: nat, x: real, y: real): real
    requires (t == 1 || t == 3 || t == 6) && Start(p, t) + t <= |z|
  {
    var c := z[Start(p, t)..Start(p, t) + t];
    var v := c[0];
    var v1 := if |c| >= 3 then v + (c[1] * x + c[2] * y) else v;
    if |c| == 6 then v1 + ((c[3] * x + c[4] * y) * x + c[5] * y * y) else v1
  }

  // ---------------------------------------------------------------- blocks

  /** Blocks of `t` unknowns from `bi` and from `bj`, apart and inside. */
  predicate Blocks(n: nat, t: nat, bi: nat, bj: nat) {
    bi + t <= n && bj + t <= n && (bi + t <= bj || bj + t <= bi)
  }

  /** The first `k` terms of `phi` at block `bi`, and their negatives at block `bj`. */
  ghost function Paired(n: nat, bi: nat, bj: nat, phi: Vector, k: nat): (d: Vector)
    requires Blocks(n, |phi|, bi, bj) && k <= |phi|
    ensures |d| == n
    ensures forall c :: 0 <= c < n ==>
              d[c] == if bi <= c < bi + k then phi[c - bi] else if bj <= c < bj + k then -phi[c - bj] else 0.0
  {
    seq(n, c requires 0 <= c < n && k <= |phi| =>
      if bi <= c < bi + k then phi[c - bi] else if bj <= c < bj + k then -phi[c - bj] else 0.0)
  }

  ghost function Block(n: nat, bi: nat, phi: Vector): (d: Vector)
    requires bi + |phi| <= n
    ensures |d| == n && forall c :: 0 <= c < n ==> d[c] == if bi <= c < bi + |phi| then phi[c - bi] else 0.0
  {
    seq(n, c requires 0 <= c < n => if bi <= c < bi + |phi| then phi[c - bi] else 0.0)
  }

  lemma {:induction false} PairedIs(n: nat, bi: nat, bj: nat, phi: Vector)
    requires Blocks(n, |phi|, bi, bj)
    ensures Paired(n, bi, bj, phi, |phi|) == AddScaled(Block(n, bi, phi), -1.0, Block(n, bj, phi))
  {
  }

  lemma {:induction false} PairedGrows(n: nat, bi: nat, bj: nat, phi: Vector, k: nat)
    requires Blocks(n, |phi|, bi, bj) && k < |phi|
    ensures var d := Paired(n, bi, bj, phi, k);
            && d[bi + k] == 0.0 && d[bj + k] == 0.0
            && Paired(n, bi, bj, phi, k + 1) == d[bi + k := phi[k]][bj + k := -phi[k]]
  {
  }

  ghost function AddAt(row: Vector, p: nat, q: nat, g: real): Vector
    requires p < |row| && q < |row| && p != q
  {
    row[p := row[p] + g][q := row[q] - g]
  }

  /** The four entries one pair of terms adds to, in the order the code adds. */
  method AddFour(a: array<real>, n: nat, r1: nat, r2: nat, p: nat, q: nat, g: real)
    requires IsSquare(a.Length, n) && r1 < n && r2 < n && p < n && q < n && r1 != r2 && p != q
    modifies a
    ensures var A := Rows(old(a[..]), n);
            Rows(a[..], n) == A[r1 := AddAt(A[r1], p, q, g)][r2 := AddAt(A[r2], p, q, -g)]
  {
    hide IsSquare, Rows, RowAt;
    ghost var A := Rows(a[..], n);
    AddEntry(a, n, r1, p, g);
    AddEntry(a, n, r2, q, g);
    AddEntry(a, n, r1, q, -g);
    AddEntry(a, n, r2, p, -g);
    ghost var B := Rows(a[..], n);
    assert B[r1] == AddAt(A[r1], p, q, g);
    assert B[r2] == AddAt(A[r2], p, q, -g);
  }

  /** What is in place after `v` terms of term `u`'s two rows. */
  ghost function TermRows(A: Matrix, n: nat, bi: nat, bj: nat, phi: Vector, u: nat, pu: real, v: nat): Matrix
    requires IsMatrix(A, n) && Blocks(n, |phi|, bi, bj) && u < |phi| && v <= |phi|
  {
    var d := Paired(n, bi, bj, phi, v);
    A[bi + u := AddScaled(A[bi + u], pu, d)][bj + u := AddScaled(A[bj + u], -pu, d)]
  }

  lemma {:induction false} TermGrows(A: Matrix, n: nat, bi: nat, bj: nat, phi: Vector, u: nat, pu: real, v: nat)
    requires IsMatrix(A, n) && Blocks(n, |phi|, bi, bj) && u < |phi| && v < |phi|
    ensures var B, g := TermRows(A, n, bi, bj, phi, u, pu, v), Mul(pu, phi[v]);
            IsMatrix(B, n)
            && TermRows(A, n, bi, bj, phi, u, pu, v + 1)
               == B[bi + u := AddAt(B[bi + u], bi + v, bj + v, g)][bj + u := AddAt(B[bj + u], bi + v, bj + v, -g)]
  {
    PairedGrows(n, bi, bj, phi, v);
    var d, e := Paired(n, bi, bj, phi, v), Paired(n, bi, bj, phi, v + 1);
    hide Paired, AddAt;
    RowGrows(A[bi + u], pu, d, e, bi + v, bj + v, phi[v]);
    RowGrows(A[bj + u], -pu, d, e, bi + v, bj + v, phi[v]);
    Negated(pu, phi[v]);
    hide AddScaled;
  }

  lemma {:induction false} Negated(x: real, y: real)
    ensures Mul(-x, y) == -Mul(x, y)
  {
  }

  lemma {:induction false} RowGrows(row: Vector, m: real, d: Vector, e: Vector, p: nat, q: nat, f: real)
    requires |row| == |d| && p < |d| && q < |d| && p != q && d[p] == 0.0 && d[q] == 0.0 && e == d[p := f][q := -f]
    ensures AddScaled(row, m, e) == AddAt(AddScaled(row, m, d), p, q, Mul(m, f))
  {
    assert Mul(m, 0.0) == 0.0 && Mul(m, -f) == -Mul(m, f);
    hide Mul;
  }

  /** The inner loop of a cell: one term of the outer product's two rows. */
  method AddTerm(a: array<real>, n: nat, bi: nat, bj: nat, phi: Vector, u: nat, pu: real)
    requires IsSquare(a.Length, n) && Blocks(n, |phi|, bi, bj) && u < |phi|
    modifies a
    ensures Rows(a[..], n) == TermRows(Rows(old(a[..]), n), n, bi, bj, phi, u, pu, |phi|)
  {
    hide IsSquare, Rows, RowAt, TermRows, AddAt;
    ghost var A := Rows(a[..], n);
    NoTerms(A, n, bi, bj, phi, u, pu);
    for v := 0 to |phi|
      invariant Rows(a[..], n) == TermRows(A, n, bi, bj, phi, u, pu, v)
    {
      TermGrows(A, n, bi, bj, phi, u, pu, v);
      AddFour(a, n, bi + u, bj + u, bi + v, bj + v, Mul(pu, phi[v]));
    }
  }

  lemma {:induction false} NoTerms(A: Matrix, n: nat, bi: nat, bj: nat, phi: Vector, u: nat, pu: real)
    requires IsMatrix(A, n) && Blocks(n, |phi|, bi, bj) && u < |phi|
    ensures TermRows(A, n, bi, bj, phi, u, pu, 0) == A
  {
    var d := Paired(n, bi, bj, phi, 0);
    assert d == Zeros(n);
    AddZeros(A[bi + u], pu);
    AddZeros(A[bj + u], -pu);
    hide AddScaled;
    assert A[bi + u := A[bi + u]][bj + u := A[bj + u]] == A;
  }

  lemma {:induction false} AddZeros(row: Vector, m: real)
    ensures AddScaled(row, m, Zeros(|row|)) == row
  {
    assert Mul(m, 0.0) == 0.0;
  }

  /** Scaling the paired terms: one more of them. */
  lemma {:induction false} OuterTerm(A: Matrix, n: nat, bi: nat, bj: nat, phi: Vector, w: real, u: nat)
    requires IsMatrix(A, n) && Blocks(n, |phi|, bi, bj) && u < |phi|
    ensures var d := Paired(n, bi, bj, phi, |phi|);
            OuterAdd(A, Scaled(w, Paired(n, bi, bj, phi, u + 1)), d)
              == TermRows(OuterAdd(A, Scaled(w, Paired(n, bi, bj, phi, u)), d), n, bi, bj, phi, u, Mul(w, phi[u]),
                          |phi|)
  {
    PairedGrows(n, bi, bj, phi, u);
    hide Paired, Scaled, AddScaled, OuterAdd;
    var d, s := Paired(n, bi, bj, phi, |phi|), Scaled(w, Paired(n, bi, bj, phi, u));
    var s' := Scaled(w, Paired(n, bi, bj, phi, u + 1));
    var pu := Mul(w, phi[u]);
    ScaledGrows(w, Paired(n, bi, bj, phi, u), Paired(n, bi, bj, phi, u + 1), bi + u, bj + u, phi[u]);
    assert s' == s[bi + u := s[bi + u] + pu][bj + u := s[bj + u] + -pu];
    OuterGrowsTwice(A, s, d, bi + u, bj + u, pu);
  }

  lemma {:induction false} OuterGrowsTwice(A: Matrix, s: Vector, d: Vector, p: nat, q: nat, c: real)
    requires IsMatrix(A, |d|) && |s| == |d| && p < |d| && q < |d| && p != q
    ensures var B := OuterAdd(A, s, d);
            OuterAdd(A, s[p := s[p] + c][q := s[q] + -c], d)
                  == B[p := AddScaled(B[p], c, d)][q := AddScaled(B[q], -c, d)]
  {
    hide AddScaled, OuterAdd;
    OuterGrows(A, s, d, p, c);
    OuterGrows(A, s[p := s[p] + c], d, q, -c);
  }

  lemma {:induction false} ScaledGrows(w: real, d: Vector, e: Vector, p: nat, q: nat, f: real)
    requires p < |d| && q < |d| && p != q && d[p] == 0.0 && d[q] == 0.0 && e == d[p := f][q := -f]
    ensures Scaled(w, e) == Scaled(w, d)[p := Scaled(w, d)[p] + Mul(w, f)][q := Scaled(w, d)[q] + -Mul(w, f)]
  {
    assert Mul(w, 0.0) == 0.0 && Mul(w, -f) == -Mul(w, f);
    hide Mul;
  }

  /** The right-hand side after `u` terms of a cell. */
  ghost function RhsAfter(c: Vector, n: nat, bi: nat, bj: nat, phi: Vector, w: real, r: real, u: nat): Vector
    requires |c| == n && Blocks(n, |phi|, bi, bj) && u <= |phi|
  {
    AddScaled(c, Mul(w, -r), Paired(n, bi, bj, phi, u))
  }

  lemma {:induction false} RhsGrows(c: Vector, n: nat, bi: nat, bj: nat, phi: Vector, w: real, r: real, u: nat)
    requires |c| == n && Blocks(n, |phi|, bi, bj) && u < |phi|
    ensures var d, pu := RhsAfter(c, n, bi, bj, phi, w, r, u), Mul(w, phi[u]);
            |d| == n && RhsAfter(c, n, bi, bj, phi, w, r, u + 1)
                  == d[bi + u := d[bi + u] - Mul(pu, r)][bj + u := d[bj + u] + Mul(pu, r)]
  {
    PairedGrows(n, bi, bj, phi, u);
    hide Paired;
    RowGrows(c, Mul(w, -r), Paired(n, bi, bj, phi, u), Paired(n, bi, bj, phi, u + 1), bi + u, bj + u, phi[u]);
    RightSide(w, r, phi[u]);
    hide AddScaled, Mul;
    var d, pu := RhsAfter(c, n, bi, bj, phi, w, r, u), Mul(w, phi[u]);
    var g := Mul(Mul(w, -r), phi[u]);
    assert g == -(Mul(pu, r));
    assert AddAt(d, bi + u, bj + u, g) == d[bi + u := d[bi + u] - Mul(pu, r)][bj + u := d[bj + u] + Mul(pu, r)];
  }

  /** What the matrix holds after `u` terms of a cell. */
  ghost function CellAfter(A: Matrix, n: nat, bi: nat, bj: nat, phi: Vector, w: real, u: nat): (B: Matrix)
    requires IsMatrix(A, n) && Blocks(n, |phi|, bi, bj) && u <= |phi|
    ensures IsMatrix(B, n)
  {
    OuterAdd(A, Scaled(w, Paired(n, bi, bj, phi, u)), Paired(n, bi, bj, phi, |phi|))
  }

  /** One kept cell: the least-squares row `s_a - s_b = -r`, weighted. */
  method AddCell(a: array<real>, b: array<real>, n: nat, bi: nat, bj: nat, phi: Vector, w: real, r: real)
    requires IsSquare(a.Length, n) && b.Length == n && a != b && Blocks(n, |phi|, bi, bj)
    modifies a, b
    ensures var d := Paired(n, bi, bj, phi, |phi|);
            && Rows(a[..], n) == OuterAdd(Rows(old(a[..]), n), Scaled(w, d), d)
            && b[..] == AddScaled(old(b[..]), Mul(w, -r), d)
  {
    hide IsSquare, Rows, RowAt, TermRows, CellAfter, RhsAfter, Paired, OuterAdd, Scaled, AddScaled, Mul;
    ghost var A, c := Rows(a[..], n), b[..];
    NoCell(A, c, n, bi, bj, phi, w, r);
    CellDone(A, c, n, bi, bj, phi, w, r);
    for u := 0 to |phi|
      invariant Rows(a[..], n) == CellAfter(A, n, bi, bj, phi, w, u)
      invariant b[..] == RhsAfter(c, n, bi, bj, phi, w, r, u)
    {
      var pu := Mul(w, phi[u]);
      CellGrows(A, n, bi, bj, phi, w, u);
      ghost var before := b[..];
      AddTerm(a, n, bi, bj, phi, u, pu);
      assert b[..] == before;
      RhsGrows(c, n, bi, bj, phi, w, r, u);
      b[bi + u] := b[bi + u] - Mul(pu, r);
      b[bj + u] := b[bj + u] + Mul(pu, r);
      assert b[..] == before[bi + u := before[bi + u] - Mul(pu, r)][bj + u := before[bj + u] + Mul(pu, r)];
    }
  }

  lemma {:induction false} CellGrows(A: Matrix, n: nat, bi: nat, bj: nat, phi: Vector, w: real, u: nat)
    requires IsMatrix(A, n) && Blocks(n, |phi|, bi, bj) && u < |phi|
    ensures CellAfter(A, n, bi, bj, phi, w, u + 1)
              == TermRows(CellAfter(A, n, bi, bj, phi, w, u), n, bi, bj, phi, u, Mul(w, phi[u]), |phi|)
  {
    OuterTerm(A, n, bi, bj, phi, w, u);
  }

  lemma {:induction false} RightSide(w: real, r: real, f: real)
    ensures Mul(Mul(w, -r), f) == -Mul(Mul(w, f), r)
  {
    var wr := w * r;
    assert Mul(w, -r) == -wr;
    assert Mul(-wr, f) == -(wr * f);
    assert Mul(Mul(w, f), r) == wr * f;
  }

  lemma {:induction false} NoCell(A: Matrix, c: Vector, n: nat, bi: nat, bj: nat, phi: Vector, w: real, r: real)
    requires IsMatrix(A, n) && |c| == n && Blocks(n, |phi|, bi, bj)
    ensures CellAfter(A, n, bi, bj, phi, w, 0) == A && RhsAfter(c, n, bi, bj, phi, w, r, 0) == c
  {
    assert Mul(w, 0.0) == 0.0;
    assert Paired(n, bi, bj, phi, 0) == Zeros(n);
    assert Scaled(w, Zeros(n)) == Zeros(n);
    OuterNothing(A, c, Mul(w, -r), Paired(n, bi, bj, phi, |phi|));
    AddZeros(c, Mul(w, -r));
  }

  lemma {:induction false} CellDone(A: Matrix, c: Vector, n: nat, bi: nat, bj: nat, phi: Vector, w: real, r: real)
    requires IsMatrix(A, n) && |c| == n && Blocks(n, |phi|, bi, bj)
    ensures var d := Paired(n, bi, bj, phi, |phi|);
            && CellAfter(A, n, bi, bj, phi, w, |phi|) == OuterAdd(A, Scaled(w, d), d)
            && RhsAfter(c, n, bi, bj, phi, w, r, |phi|) == AddScaled(c, Mul(w, -r), d)
  {
  }

  // ---------------------------------------------------------------- what is minimised

  /** `n` unknowns: `t` for each panel. */
  ghost predicate Shape(panels: nat, t: nat, n: nat) {
    (t == 1 || t == 3 || t == 6) && n == Start(panels, t)
  }

  lemma {:induction false} BlockInside(panels: nat, t: nat, n: nat, p: nat)
    requires Shape(panels, t, n) && p < panels
    ensures Start(p, t) + t <= n
  {
    Indexing.InBounds(t, panels, 0, p);
    assert panels * t == t * panels;
  }

  lemma {:induction false} BlocksApart(panels: nat, t: nat, n: nat, p: nat, q: nat)
    requires Shape(panels, t, n) && p < panels && q < panels && p != q
    ensures Blocks(n, t, Start(p, t), Start(q, t))
  {
    BlockInside(panels, t, n, p);
    BlockInside(panels, t, n, q);
    if p < q { Indexing.RowsApart(t, p, q); } else { Indexing.RowsApart(t, q, p); }
  }

  ghost predicate OverlapsIn(overlaps: seq<Overlap>, panels: nat) {
    forall k :: 0 <= k < |overlaps| ==>
          overlaps[k].a < panels && overlaps[k].b < panels && overlaps[k].a != overlaps[k].b
  }

  function Share(total: real, m: nat): (w: real)
    requires m > 0 && total >= 0.0
    ensures w >= 0.0
  {
    NotNegative(total, m as real);
    total / (m as real)
  }

  lemma {:induction false} NotNegative(x: real, m: real)
    requires x >= 0.0 && m > 0.0
    ensures x / m >= 0.0
  {
  }

  ghost function SurfaceAt(z: Vector, panels: nat, t: nat, p: nat, x: real, y: real): real
    requires Shape(panels, t, |z|) && p < panels
  {
    BlockInside(panels, t, |z|, p);
    Eval(z, t, p, x, y)
  }

  /** Weighted squares of what the surfaces leave of the residuals of one overlap. */
  ghost function CellsCost(z: Vector, panels: nat, t: nat, a: nat, b: nat, cells: seq<Cell>, w: real): real
    requires Shape(panels, t, |z|) && a < panels && b < panels
  {
    if cells == [] then 0.0
    else
      var c := cells[|cells| - 1];
      CellsCost(z, panels, t, a, b, cells[..|cells| - 1], w)
      + Weighted(w, c.r + SurfaceAt(z, panels, t, a, c.x, c.y) - SurfaceAt(z, panels, t, b, c.x, c.y))
  }

  ghost function OverlapsCost(z: Vector, panels: nat, t: nat, overlaps: seq<Overlap>): real
    requires Shape(panels, t, |z|) && OverlapsIn(overlaps, panels)
  {
    if overlaps == [] then 0.0
    else
      var o := overlaps[|overlaps| - 1];
      OverlapsCost(z, panels, t, overlaps[..|overlaps| - 1])
      + if o.cells == [] then 0.0 else CellsCost(z, panels, t, o.a, o.b, o.cells, Share(1.0, |o.cells|))
  }

  ghost function PointsCost(z: Vector, panels: nat, t: nat, p: nat, points: seq<Point>, w: real): real
    requires Shape(panels, t, |z|) && p < panels
  {
    if points == [] then 0.0
    else
      var c := points[|points| - 1];
      PointsCost(z, panels, t, p, points[..|points| - 1], w) + Weighted(w, SurfaceAt(z, panels, t, p, c.x, c.y))
  }

  /** The ridge over the footprints of the first `hi` panels. */
  ghost function FootprintsCost(z: Vector, panels: nat, t: nat, feet: seq<seq<Point>>, hi: nat): real
    requires Shape(panels, t, |z|) && hi <= |feet| == panels
  {
    if hi == 0 then 0.0
    else
      FootprintsCost(z, panels, t, feet, hi - 1)
      + if feet[hi - 1] == [] then 0.0 else PointsCost(z, panels, t, hi - 1, feet[hi - 1],
                                                       Share(RIDGE_LAMBDA, |feet[hi - 1]|))
  }

  // ---------------------------------------------------------------- the terms the loops accumulate

  ghost function CellTerms(base: Terms, panels: nat, t: nat, n: nat, a: nat, b: nat, cells: seq<Cell>,
                           w: real): (rows: Terms)
    requires Shape(panels, t, n) && a < panels && b < panels && a != b && IsRows(base, n) && w >= 0.0
    ensures IsRows(rows, n)
  {
    if cells == [] then base
    else
      var c := cells[|cells| - 1];
      BlocksApart(panels, t, n, a, b);
      Snoc(CellTerms(base, panels, t, n, a, b, cells[..|cells| - 1], w),
           Row(w, Paired(n, Start(a, t), Start(b, t), Basis(t, c.x, c.y), t), -c.r))
  }

  ghost function OverlapTerms(panels: nat, t: nat, n: nat, overlaps: seq<Overlap>): (rows: Terms)
    requires Shape(panels, t, n) && OverlapsIn(overlaps, panels)
    ensures IsRows(rows, n)
  {
    if overlaps == [] then Nil
    else
      var o := overlaps[|overlaps| - 1];
      var init := OverlapTerms(panels, t, n, overlaps[..|overlaps| - 1]);
      if o.cells == [] then init else CellTerms(init, panels, t, n, o.a, o.b, o.cells, Share(1.0, |o.cells|))
  }

  ghost function PointTerms(base: Terms, panels: nat, t: nat, n: nat, p: nat, points: seq<Point>,
                            w: real): (rows: Terms)
    requires Shape(panels, t, n) && p < panels && IsRows(base, n) && w >= 0.0
    ensures IsRows(rows, n)
  {
    if points == [] then base
    else
      var c := points[|points| - 1];
      BlockInside(panels, t, n, p);
      Snoc(PointTerms(base, panels, t, n, p, points[..|points| - 1], w),
           Row(w, Block(n, Start(p, t), Basis(t, c.x, c.y)), 0.0))
  }

  ghost function FootprintTerms(base: Terms, panels: nat, t: nat, n: nat, feet: seq<seq<Point>>, hi: nat): (rows: Terms)
    requires Shape(panels, t, n) && hi <= |feet| == panels && IsRows(base, n)
    ensures IsRows(rows, n)
  {
    if hi == 0 then base
    else
      var init := FootprintTerms(base, panels, t, n, feet, hi - 1);
      if feet[hi - 1] == [] then init
      else PointTerms(init, panels, t, n, hi - 1, feet[hi - 1], Share(RIDGE_LAMBDA, |feet[hi - 1]|))
  }

  // ---------------------------------------------------------------- the terms cost what they should

  lemma {:induction false} DotShift(phi: Vector, n: nat, bi: nat, z: Vector, k: nat)
    requires bi + |phi| <= n == |z| && k <= |phi|
    ensures Dot(Block(n, bi, phi), z, bi, bi + k) == Dot(phi, z[bi..bi + |phi|], 0, k)
  {
    if k > 0 { DotShift(phi, n, bi, z, k - 1); }
  }

  lemma {:induction false} BlockDot(phi: Vector, n: nat, bi: nat, z: Vector)
    requires bi + |phi| <= n == |z|
    ensures Dot(Block(n, bi, phi), z, 0, n) == Dot(phi, z[bi..bi + |phi|], 0, |phi|)
  {
    var d := Block(n, bi, phi);
    DotSplit(d, z, 0, bi, n);
    DotSplit(d, z, bi, bi + |phi|, n);
    DotZero(d, z, 0, bi);
    DotZero(d, z, bi + |phi|, n);
    DotShift(phi, n, bi, z, |phi|);
  }

  lemma {:induction false} DotStep(u: Vector, x: Vector, k: nat)
    requires k < |u| && k < |x|
    ensures Dot(u, x, 0, 0) == 0.0 && Dot(u, x, 0, k + 1) == Dot(u, x, 0, k) + u[k] * x[k]
  {
  }

  /** The basis against a block of coefficients is the surface's value. */
  lemma {:induction false} EvalIsDot(z: Vector, panels: nat, t: nat, p: nat, x: real, y: real)
    requires Shape(panels, t, |z|) && p < panels
    ensures Start(p, t) + t <= |z|
    ensures Dot(Basis(t, x, y), z[Start(p, t)..Start(p, t) + t], 0, t) == SurfaceAt(z, panels, t, p, x, y)
  {
    hide Start;
    BlockInside(panels, t, |z|, p);
    var phi, c := Basis(t, x, y), z[Start(p, t)..Start(p, t) + t];
    DotStep(phi, c, 0);
    if t >= 3 {
      DotStep(phi, c, 1);
      DotStep(phi, c, 2);
    }
    if t == 6 {
      DotStep(phi, c, 3);
      DotStep(phi, c, 4);
      DotStep(phi, c, 5);
      Horner(c[3], c[4], x, y);
    }
    hide Dot;
  }

  lemma {:induction false} Horner(a: real, b: real, x: real, y: real)
    ensures (x * x) * a + (x * y) * b == (a * x + b * y) * x
  {
    var f, g := a * x, b * y;
    assert (f + g) * x == f * x + g * x;
    assert f * x == (x * x) * a;
    assert g * x == (x * y) * b;
  }

  lemma {:induction false} CellResidual(z: Vector, panels: nat, t: nat, a: nat, b: nat, c: Cell, w: real)
    requires Shape(panels, t, |z|) && a < panels && b < panels && a != b
    ensures Blocks(|z|, t, Start(a, t), Start(b, t))
    ensures Residual(Row(w, Paired(|z|, Start(a, t), Start(b, t), Basis(t, c.x, c.y), t), -c.r), z)
         == c.r + SurfaceAt(z, panels, t, a, c.x, c.y) - SurfaceAt(z, panels, t, b, c.x, c.y)
  {
    hide Start;
    BlocksApart(panels, t, |z|, a, b);
    var n, phi := |z|, Basis(t, c.x, c.y);
    PairedIs(n, Start(a, t), Start(b, t), phi);
    DotAddScaled(Block(n, Start(a, t), phi), -1.0, Block(n, Start(b, t), phi), z, n);
    BlockDot(phi, n, Start(a, t), z);
    BlockDot(phi, n, Start(b, t), z);
    EvalIsDot(z, panels, t, a, c.x, c.y);
    EvalIsDot(z, panels, t, b, c.x, c.y);
    Minus1(Dot(Block(n, Start(b, t), phi), z, 0, n));
    hide Dot, SurfaceAt, Mul, Basis, Block, Paired, AddScaled;
  }

  lemma {:induction false} Minus1(x: real)
    ensures Mul(-1.0, x) == -x
  {
  }

  lemma {:induction false} CellTermsCost(base: Terms, z: Vector, panels: nat, t: nat, a: nat, b: nat, cells: seq<Cell>,
                                         w: real)
    requires Shape(panels, t, |z|) && a < panels && b < panels && a != b && IsRows(base, |z|) && w >= 0.0
    ensures Objective(CellTerms(base, panels, t, |z|, a, b, cells, w), z)
         == Objective(base, z) + CellsCost(z, panels, t, a, b, cells, w)
  {
    hide Weighted, SurfaceAt, Residual, Paired, Basis, Start;
    if cells != [] {
      CellTermsCost(base, z, panels, t, a, b, cells[..|cells| - 1], w);
      CellResidual(z, panels, t, a, b, cells[|cells| - 1], w);
    }
  }

  lemma {:induction false} OverlapTermsCost(z: Vector, panels: nat, t: nat, overlaps: seq<Overlap>)
    requires Shape(panels, t, |z|) && OverlapsIn(overlaps, panels)
    ensures Objective(OverlapTerms(panels, t, |z|, overlaps), z) == OverlapsCost(z, panels, t, overlaps)
  {
    hide Objective, CellTerms, CellsCost, Start;
    if overlaps == [] {
      NilCosts(z);
    } else {
      var init, o := overlaps[..|overlaps| - 1], overlaps[|overlaps| - 1];
      OverlapTermsCost(z, panels, t, init);
      if o.cells != [] {
        CellTermsCost(OverlapTerms(panels, t, |z|, init), z, panels, t, o.a, o.b, o.cells, Share(1.0, |o.cells|));
      }
    }
  }

  lemma {:induction false} NilCosts(z: Vector)
    ensures IsRows(Nil, |z|) && Objective(Nil, z) == 0.0
  {
  }

  lemma {:induction false} PointTermsCost(base: Terms, z: Vector, panels: nat, t: nat, p: nat, points: seq<Point>,
                                          w: real)
    requires Shape(panels, t, |z|) && p < panels && IsRows(base, |z|) && w >= 0.0
    ensures Objective(PointTerms(base, panels, t, |z|, p, points, w), z)
         == Objective(base, z) + PointsCost(z, panels, t, p, points, w)
  {
    hide Weighted, SurfaceAt, Block, Basis, Dot, Start;
    if points != [] {
      var c := points[|points| - 1];
      PointTermsCost(base, z, panels, t, p, points[..|points| - 1], w);
      EvalIsDot(z, panels, t, p, c.x, c.y);
      BlockDot(Basis(t, c.x, c.y), |z|, Start(p, t), z);
    }
  }

  lemma {:induction false} FootprintTermsCost(base: Terms, z: Vector, panels: nat, t: nat, feet: seq<seq<Point>>,
                                              hi: nat)
    requires Shape(panels, t, |z|) && hi <= |feet| == panels && IsRows(base, |z|)
    ensures Objective(FootprintTerms(base, panels, t, |z|, feet, hi), z)
         == Objective(base, z) + FootprintsCost(z, panels, t, feet, hi)
  {
    hide Objective, PointTerms, PointsCost, Start;
    if hi > 0 {
      FootprintTermsCost(base, z, panels, t, feet, hi - 1);
      if feet[hi - 1] != [] {
        PointTermsCost(FootprintTerms(base, panels, t, |z|, feet, hi - 1), z, panels, t, hi - 1, feet[hi - 1],
                       Share(RIDGE_LAMBDA, |feet[hi - 1]|));
      }
    }
  }

  // ---------------------------------------------------------------- assembling the overlaps

  lemma {:induction false} EncodesCell(A: Matrix, b: Vector, base: Terms, panels: nat, t: nat, n: nat, p: nat, q: nat,
                                       cells: seq<Cell>, c: Cell, w: real)
    requires Shape(panels, t, n) && p < panels && q < panels && p != q && IsRows(base, n) && w >= 0.0
    requires Encodes(A, b, CellTerms(base, panels, t, n, p, q, cells, w), n)
    ensures Blocks(n, t, Start(p, t), Start(q, t))
    ensures var d := Paired(n, Start(p, t), Start(q, t), Basis(t, c.x, c.y), t);
            Encodes(OuterAdd(A, Scaled(w, d), d), AddScaled(b, Mul(w, -c.r), d),
                    CellTerms(base, panels, t, n, p, q, cells + [c], w), n)
  {
    hide Encodes, OuterAdd, Scaled, AddScaled, Mul, Paired, Basis, Start;
    BlocksApart(panels, t, n, p, q);
    var d := Paired(n, Start(p, t), Start(q, t), Basis(t, c.x, c.y), t);
    assert (cells + [c])[..|cells|] == cells;
    EncodesMore(A, b, CellTerms(base, panels, t, n, p, q, cells, w), Row(w, d, -c.r), n);
  }

  /** One overlap's kept cells, each weighted by their share. */
  method AddOverlap(a: array<real>, b: array<real>, panels: nat, t: nat, n: nat, o: Overlap, ghost base: Terms)
    requires Shape(panels, t, n) && IsSquare(a.Length, n) && b.Length == n && a != b
    requires o.a < panels && o.b < panels && o.a != o.b && o.cells != [] && IsRows(base, n)
    requires Encodes(Rows(a[..], n), b[..], base, n)
    modifies a, b
    ensures Encodes(Rows(a[..], n), b[..], CellTerms(base, panels, t, n, o.a, o.b, o.cells, Share(1.0, |o.cells|)), n)
  {
    hide IsSquare, Rows, RowAt, Encodes, OuterAdd, Scaled, AddScaled, Mul, Paired, Basis, Share, Start;
    var w := Share(1.0, |o.cells|);
    BlocksApart(panels, t, n, o.a, o.b);
    assert o.cells[..0] == [];
    for k := 0 to |o.cells|
      invariant Encodes(Rows(a[..], n), b[..], CellTerms(base, panels, t, n, o.a, o.b, o.cells[..k], w), n)
    {
      var c := o.cells[k];
      ghost var A, B := Rows(a[..], n), b[..];
      ghost var d := Paired(n, Start(o.a, t), Start(o.b, t), Basis(t, c.x, c.y), t);
      EncodesCell(A, B, base, panels, t, n, o.a, o.b, o.cells[..k], c, w);
      assert o.cells[..k] + [c] == o.cells[..k + 1];
      AddCell(a, b, n, Start(o.a, t), Start(o.b, t), Basis(t, c.x, c.y), w, c.r);
      assert Rows(a[..], n) == OuterAdd(A, Scaled(w, d), d) && b[..] == AddScaled(B, Mul(w, -c.r), d);
    }
    assert o.cells[..|o.cells|] == o.cells;
  }

  // ---------------------------------------------------------------- assembling the footprint ridge

  /** Sum of the outer products of the basis over the points. */
  ghost function Gram(t: nat, points: seq<Point>): (G: Matrix)
    requires t == 1 || t == 3 || t == 6
    ensures IsMatrix(G, t)
  {
    if points == [] then ZeroMatrix(t)
    else
      var phi := Basis(t, points[|points| - 1].x, points[|points| - 1].y);
      OuterAdd(Gram(t, points[..|points| - 1]), phi, phi)
  }

  /** The first `k` entries, then zeros. */
  ghost function Head(phi: Vector, k: nat): (d: Vector)
    ensures |d| == |phi| && forall c :: 0 <= c < |phi| ==> d[c] == if c < k then phi[c] else 0.0
  {
    seq(|phi|, c requires 0 <= c < |phi| => if c < k then phi[c] else 0.0)
  }

  lemma {:induction false} HeadGrows(row: Vector, m: real, phi: Vector, k: nat)
    requires |row| == |phi| && k < |phi|
    ensures AddScaled(row, m, Head(phi, 0)) == row && AddScaled(row, m, Head(phi, |phi|)) == AddScaled(row, m, phi)
    ensures var d := AddScaled(row, m, Head(phi, k));
            AddScaled(row, m, Head(phi, k + 1)) == d[k := d[k] + Mul(m, phi[k])]
  {
    assert Mul(m, 0.0) == 0.0;
    hide Mul;
    assert Head(phi, |phi|) == phi;
  }

  /** One row of the outer product. */
  method AddGramRow(pp: array<real>, t: nat, phi: Vector, u: nat)
    requires IsSquare(pp.Length, t) && |phi| == t && u < t
    modifies pp
    ensures var G := Rows(old(pp[..]), t); Rows(pp[..], t) == G[u := AddScaled(G[u], phi[u], phi)]
  {
    hide IsSquare, Rows, RowAt, Mul, AddScaled, Head;
    ghost var G := Rows(pp[..], t);
    HeadGrows(G[u], phi[u], phi, 0);
    assert G[u := G[u]] == G;
    for v := 0 to t
      invariant Rows(pp[..], t) == G[u := AddScaled(G[u], phi[u], Head(phi, v))]
    {
      HeadGrows(G[u], phi[u], phi, v);
      AddEntry(pp, t, u, v, Mul(phi[u], phi[v]));
    }
  }

  method AddGram(pp: array<real>, t: nat, phi: Vector)
    requires IsSquare(pp.Length, t) && |phi| == t
    modifies pp
    ensures Rows(pp[..], t) == OuterAdd(Rows(old(pp[..]), t), phi, phi)
  {
    hide IsSquare, Rows, RowAt, AddScaled;
    ghost var G := Rows(pp[..], t);
    for u := 0 to t
      invariant forall i :: 0 <= i < u ==> Rows(pp[..], t)[i] == AddScaled(G[i], phi[i], phi)
      invariant forall i :: u <= i < t ==> Rows(pp[..], t)[i] == G[i]
    {
      AddGramRow(pp, t, phi, u);
    }
  }

  method Footprint(t: nat, points: seq<Point>) returns (pp: array<real>)
    requires t == 1 || t == 3 || t == 6
    ensures fresh(pp) && IsSquare(pp.Length, t) && Rows(pp[..], t) == Gram(t, points)
  {
    var rhs: array<real>;
    pp, rhs := ZeroSystem(t);
    assert points[..0] == [];
    hide IsSquare, Rows, RowAt, OuterAdd, Basis, Encodes;
    for k := 0 to |points|
      invariant Rows(pp[..], t) == Gram(t, points[..k])
    {
      assert points[..k + 1][..k] == points[..k];
      AddGram(pp, t, Basis(t, points[k].x, points[k].y));
    }
    assert points[..|points|] == points;
  }

  ghost function BlockRow(row: Vector, n: nat, bp: nat, w: real, G: Matrix, i: nat): (r: Vector)
    requires |row| == n && IsMatrix(G, |G|) && bp + |G| <= n
    ensures |r| == n
  {
    if bp <= i < bp + |G| then AddScaled(row, w, Block(n, bp, G[i - bp])) else row
  }

  /** `A` with `w` times `G` added at the diagonal block from `bp`. */
  ghost function BlockAdd(A: Matrix, n: nat, bp: nat, w: real, G: Matrix): (B: Matrix)
    requires IsMatrix(A, n) && IsMatrix(G, |G|) && bp + |G| <= n
    ensures IsMatrix(B, n) && forall i :: 0 <= i < n ==> B[i] == BlockRow(A[i], n, bp, w, G, i)
  {
    hide BlockRow;
    seq(n, i requires 0 <= i < n && IsMatrix(A, n) && IsMatrix(G, |G|) && bp + |G| <= n =>
      BlockRow(A[i], n, bp, w, G, i))
  }

  /** Each cell of the block is one more ridge row. */
  lemma {:induction false} BlockGrows(A: Matrix, n: nat, bp: nat, w: real, G: Matrix, phi: Vector)
    requires IsMatrix(A, n) && IsMatrix(G, |phi|) && bp + |phi| <= n
    ensures var d := Block(n, bp, phi);
            BlockAdd(A, n, bp, w, OuterAdd(G, phi, phi)) == OuterAdd(BlockAdd(A, n, bp, w, G), Scaled(w, d), d)
  {
    var d, t := Block(n, bp, phi), |phi|;
    var H := OuterAdd(G, phi, phi);
    var B, C := BlockAdd(A, n, bp, w, H), OuterAdd(BlockAdd(A, n, bp, w, G), Scaled(w, d), d);
    forall i | 0 <= i < n ensures B[i] == C[i] {
      if bp <= i < bp + t {
        BlockRowGrows(A[i], n, bp, w, G[i - bp], phi, phi[i - bp]);
      } else {
        AddNothing(A[i], d);
        assert Mul(w, 0.0) == 0.0;
      }
    }
  }

  lemma {:induction false} AddNothing(row: Vector, d: Vector)
    requires |row| == |d|
    ensures AddScaled(row, 0.0, d) == row
  {
    forall c | 0 <= c < |d| ensures Mul(0.0, d[c]) == 0.0 {}
    hide Mul;
  }

  lemma {:induction false} BlockRowGrows(row: Vector, n: nat, bp: nat, w: real, g: Vector, phi: Vector, f: real)
    requires |row| == n && |g| == |phi| && bp + |phi| <= n
    ensures AddScaled(row, w, Block(n, bp, AddScaled(g, f, phi)))
         == AddScaled(AddScaled(row, w, Block(n, bp, g)), Mul(w, f), Block(n, bp, phi))
  {
    var left := AddScaled(row, w, Block(n, bp, AddScaled(g, f, phi)));
    var right := AddScaled(AddScaled(row, w, Block(n, bp, g)), Mul(w, f), Block(n, bp, phi));
    forall c | 0 <= c < n ensures left[c] == right[c] {
      if bp <= c < bp + |phi| {
        Distribute(w, g[c - bp], Mul(f, phi[c - bp]));
        Associate(w, f, phi[c - bp]);
      } else {
        assert Mul(w, 0.0) == 0.0 && Mul(Mul(w, f), 0.0) == 0.0;
      }
    }
  }

  lemma {:induction false} BlockNothing(A: Matrix, n: nat, bp: nat, w: real, t: nat)
    requires IsMatrix(A, n) && bp + t <= n
    ensures BlockAdd(A, n, bp, w, ZeroMatrix(t)) == A
  {
    assert Block(n, bp, Zeros(t)) == Zeros(n);
    forall i | 0 <= i < n ensures BlockAdd(A, n, bp, w, ZeroMatrix(t))[i] == A[i] { AddZeros(A[i], w); }
  }

  lemma {:induction false} EncodesFootprint(A: Matrix, b: Vector, base: Terms, panels: nat, t: nat, n: nat, p: nat,
                                            points: seq<Point>, w: real)
    requires Shape(panels, t, n) && p < panels && w >= 0.0 && IsMatrix(A, n) && IsRows(base, n)
             && Encodes(A, b, base, n)
    ensures Start(p, t) + t <= n
    ensures Encodes(BlockAdd(A, n, Start(p, t), w, Gram(t, points)), b, PointTerms(base, panels, t, n, p, points, w), n)
  {
    hide Start, Encodes, BlockAdd, Block, Basis, OuterAdd, AddScaled, Scaled, Mul;
    BlockInside(panels, t, n, p);
    if points == [] {
      BlockNothing(A, n, Start(p, t), w, t);
    } else {
      var init, c := points[..|points| - 1], points[|points| - 1];
      EncodesFootprint(A, b, base, panels, t, n, p, init, w);
      var phi := Basis(t, c.x, c.y);
      BlockGrows(A, n, Start(p, t), w, Gram(t, init), phi);
      var d := Block(n, Start(p, t), phi);
      EncodesMore(BlockAdd(A, n, Start(p, t), w, Gram(t, init)), b, PointTerms(base, panels, t, n, p, init, w),
                  Row(w, d, 0.0), n);
      ZeroRhs(b, w, d);
    }
  }

  lemma {:induction false} ZeroRhs(b: Vector, w: real, d: Vector)
    requires |b| == |d|
    ensures AddScaled(b, Mul(w, 0.0), d) == b
  {
    assert Mul(w, 0.0) == 0.0;
    AddNothing(b, d);
  }

  /** The inner loop of the block: one row of it. */
  method AddBlockRow(a: array<real>, n: nat, t: nat, bp: nat, pp: array<real>, w: real, u: nat)
    requires IsSquare(a.Length, n) && IsSquare(pp.Length, t) && a != pp && bp + t <= n && u < t
    modifies a
    ensures var A := Rows(old(a[..]), n);
            Rows(a[..], n) == A[bp + u := AddScaled(A[bp + u], w, Block(n, bp, Rows(pp[..], t)[u]))]
  {
    hide IsSquare, Rows, RowAt, Mul, AddScaled, Head;
    ghost var A, P := Rows(a[..], n), pp[..];
    ghost var g := Rows(P, t)[u];
    BlockHead(A[bp + u], w, n, bp, g, 0);
    assert A[bp + u := A[bp + u]] == A;
    hide Block;
    for v := 0 to t
      invariant pp[..] == P
      invariant Rows(a[..], n) == A[bp + u := AddScaled(A[bp + u], w, Block(n, bp, Head(g, v)))]
    {
      BlockHead(A[bp + u], w, n, bp, g, v);
      var e := ReadEntry(pp, t, u, v);
      AddEntry(a, n, bp + u, bp + v, Mul(w, e));
    }
  }

  lemma {:induction false} BlockHead(row: Vector, w: real, n: nat, bp: nat, g: Vector, k: nat)
    requires |row| == n && bp + |g| <= n && k < |g|
    ensures AddScaled(row, w, Block(n, bp, Head(g, 0))) == row
    ensures AddScaled(row, w, Block(n, bp, Head(g, |g|))) == AddScaled(row, w, Block(n, bp, g))
    ensures var d := AddScaled(row, w, Block(n, bp, Head(g, k)));
            AddScaled(row, w, Block(n, bp, Head(g, k + 1))) == d[bp + k := d[bp + k] + Mul(w, g[k])]
  {
    assert Mul(w, 0.0) == 0.0;
    hide Mul;
    assert Head(g, |g|) == g;
  }

  /** The first `u` rows of the block are added. */
  ghost predicate BlockUpTo(A: Matrix, n: nat, bp: nat, w: real, G: Matrix, u: nat, R: Matrix)
    requires IsMatrix(A, n) && IsMatrix(G, |G|) && bp + |G| <= n
  {
    |R| == n && forall i :: 0 <= i < n ==> R[i] == if i < bp + u then BlockRow(A[i], n, bp, w, G, i) else A[i]
  }

  lemma {:induction false} BlockStarts(A: Matrix, n: nat, bp: nat, w: real, G: Matrix)
    requires IsMatrix(A, n) && IsMatrix(G, |G|) && bp + |G| <= n
    ensures BlockUpTo(A, n, bp, w, G, 0, A)
  {
    hide AddScaled, Block;
  }

  lemma {:induction false} BlockRowAdded(A: Matrix, n: nat, bp: nat, w: real, G: Matrix, u: nat, R: Matrix)
    requires IsMatrix(A, n) && IsMatrix(G, |G|) && bp + |G| <= n && u < |G| && BlockUpTo(A, n, bp, w, G, u, R)
    ensures R[bp + u] == A[bp + u]
    ensures BlockUpTo(A, n, bp, w, G, u + 1, R[bp + u := AddScaled(A[bp + u], w, Block(n, bp, G[u]))])
  {
    hide AddScaled, Block;
  }

  lemma {:induction false} BlockDone(A: Matrix, n: nat, bp: nat, w: real, G: Matrix, R: Matrix)
    requires IsMatrix(A, n) && IsMatrix(G, |G|) && bp + |G| <= n && BlockUpTo(A, n, bp, w, G, |G|, R)
    ensures R == BlockAdd(A, n, bp, w, G)
  {
    hide AddScaled, Block;
  }

  method AddBlock(a: array<real>, n: nat, t: nat, bp: nat, pp: array<real>, w: real)
    requires IsSquare(a.Length, n) && IsSquare(pp.Length, t) && a != pp && bp + t <= n
    modifies a
    ensures Rows(a[..], n) == BlockAdd(Rows(old(a[..]), n), n, bp, w, Rows(pp[..], t))
  {
    hide IsSquare, Rows, RowAt, AddScaled, Block, BlockRow, BlockUpTo;
    ghost var A, P := Rows(a[..], n), pp[..];
    ghost var G := Rows(P, t);
    BlockStarts(A, n, bp, w, G);
    for u := 0 to t
      invariant pp[..] == P
      invariant BlockUpTo(A, n, bp, w, G, u, Rows(a[..], n))
    {
      BlockRowAdded(A, n, bp, w, G, u, Rows(a[..], n));
      AddBlockRow(a, n, t, bp, pp, w, u);
    }
    BlockDone(A, n, bp, w, G, Rows(a[..], n));
  }

  /** The ridge of every panel that covers a cell. */
  method AddFootprints(a: array<real>, b: array<real>, panels: nat, t: nat, n: nat, feet: seq<seq<Point>>,
                       ghost base: Terms)
    requires Shape(panels, t, n) && IsSquare(a.Length, n) && b.Length == n && a != b && |feet| == panels
             && IsRows(base, n)
    requires Encodes(Rows(a[..], n), b[..], base, n)
    modifies a
    ensures Encodes(Rows(a[..], n), b[..], FootprintTerms(base, panels, t, n, feet, panels), n)
  {
    hide IsSquare, Rows, RowAt, Encodes, Start, Gram, BlockAdd, PointTerms, Share;
    ghost var c := b[..];
    for p := 0 to panels
      invariant b[..] == c
      invariant Encodes(Rows(a[..], n), c, FootprintTerms(base, panels, t, n, feet, p), n)
    {
      if feet[p] != [] {
        var pp := Footprint(t, feet[p]);
        var w := Share(RIDGE_LAMBDA, |feet[p]|);
        EncodesFootprint(Rows(a[..], n), c, FootprintTerms(base, panels, t, n, feet, p), panels, t, n, p, feet[p], w);
        AddBlock(a, n, t, Start(p, t), pp, w);
      }
    }
  }

  // ---------------------------------------------------------------- stabilizer

  /** The stabilizer's weight on one unknown: relative to the curvature the data give it. */
  ghost function StabilizerWeight(base: Terms, k: nat, n: nat): (w: real)
    requires IsRows(base, n) && k < n
    ensures w > 0.0
  {
    STABILIZER * (1.0 + Quad(base, Unit(k, n)))
  }

  ghost function StabilizerTerms(base: Terms, n: nat, hi: nat): (rows: Terms)
    requires IsRows(base, n) && hi <= n
    ensures IsRows(rows, n)
  {
    if hi == 0 then base
    else Snoc(StabilizerTerms(base, n, hi - 1), Row(StabilizerWeight(base, hi - 1, n), Unit(hi - 1, n), 0.0))
  }

  ghost function StabilizerCost(base: Terms, z: Vector, hi: nat): real
    requires IsRows(base, |z|) && hi <= |z|
  {
    if hi == 0 then 0.0
    else StabilizerCost(base, z, hi - 1) + Weighted(StabilizerWeight(base, hi - 1, |z|), z[hi - 1])
  }

  lemma {:induction false} StabilizerTermsCost(base: Terms, z: Vector, hi: nat)
    requires IsRows(base, |z|) && hi <= |z|
    ensures Objective(StabilizerTerms(base, |z|, hi), z) == Objective(base, z) + StabilizerCost(base, z, hi)
  {
    if hi > 0 {
      StabilizerTermsCost(base, z, hi - 1);
      DotUnit(hi - 1, z);
      hide Weighted, StabilizerWeight, Dot, Unit;
    }
  }

  /** The stabilizer leaves no direction free. */
  lemma {:induction false} StabilizedIsPositive(base: Terms, z: Vector, hi: nat)
    requires IsRows(base, |z|) && hi <= |z| && Quad(StabilizerTerms(base, |z|, hi), z) == 0.0
    ensures forall k :: 0 <= k < hi ==> z[k] == 0.0
  {
    hide StabilizerWeight;
    if hi > 0 {
      var n, w := |z|, StabilizerWeight(base, hi - 1, |z|);
      DotUnit(hi - 1, z);
      VanishingTerm(Quad(StabilizerTerms(base, n, hi - 1), z), w, z[hi - 1]);
      StabilizedIsPositive(base, z, hi - 1);
      MulPositiveZero(w, z[hi - 1]);
    }
  }

  lemma {:induction false} MulPositiveZero(w: real, x: real)
    requires w > 0.0 && Mul(w, x) == 0.0
    ensures x == 0.0
  {
    MulNegate(w, x);
    hide Mul;
    if x > 0.0 { MulPositive(w, x); }
    if x < 0.0 { MulPositive(w, -x); MulMinus(w, x); }
  }

  lemma {:induction false} MulMinus(w: real, x: real)
    ensures Mul(w, -x) == -Mul(w, x)
  {
  }

  /** Add the stabilizer to every diagonal entry. */
  method Stabilize(a: array<real>, b: array<real>, n: nat, ghost base: Terms)
    requires IsSquare(a.Length, n) && b.Length == n && a != b && IsRows(base, n)
    requires Encodes(Rows(a[..], n), b[..], base, n)
    modifies a
    ensures Encodes(Rows(a[..], n), b[..], StabilizerTerms(base, n, n), n)
  {
    hide IsSquare, Rows, RowAt, Encodes, Unit, Quad;
    ghost var A, c := Rows(a[..], n), b[..];
    for k := 0 to n
      invariant b[..] == c
      invariant Encodes(Rows(a[..], n), c, StabilizerTerms(base, n, k), n)
      invariant forall i :: k <= i < n ==> Rows(a[..], n)[i] == A[i]
    {
      DiagonalIsCurvature(A, c, base, k, n);
      var d := ReadEntry(a, n, k, k);
      EncodesRidge(Rows(a[..], n), c, StabilizerTerms(base, n, k), k, StabilizerWeight(base, k, n), n);
      AddEntry(a, n, k, k, STABILIZER * (1.0 + d));
    }
  }

  // ---------------------------------------------------------------- the fit

  /** Everything the fit minimises: residuals left in the overlaps, the footprint ridge, the stabilizer. */
  ghost function SurfaceCost(z: Vector, panels: nat, t: nat, overlaps: seq<Overlap>, feet: seq<seq<Point>>): real
    requires Shape(panels, t, |z|) && OverlapsIn(overlaps, panels) && |feet| == panels
  {
    OverlapsCost(z, panels, t, overlaps) + FootprintsCost(z, panels, t, feet, panels)
    + StabilizerCost(DataTerms(panels, t, |z|, overlaps, feet), z, |z|)
  }

  ghost function DataTerms(panels: nat, t: nat, n: nat, overlaps: seq<Overlap>, feet: seq<seq<Point>>): (rows: Terms)
    requires Shape(panels, t, n) && OverlapsIn(overlaps, panels) && |feet| == panels
    ensures IsRows(rows, n)
  {
    FootprintTerms(OverlapTerms(panels, t, n, overlaps), panels, t, n, feet, panels)
  }

  lemma {:induction false} ObjectiveIsCost(z: Vector, panels: nat, t: nat, overlaps: seq<Overlap>,
                                           feet: seq<seq<Point>>)
    requires Shape(panels, t, |z|) && OverlapsIn(overlaps, panels) && |feet| == panels
    ensures Objective(StabilizerTerms(DataTerms(panels, t, |z|, overlaps, feet), |z|, |z|), z)
         == SurfaceCost(z, panels, t, overlaps, feet)
  {
    hide Objective, Shape, StabilizerTerms, StabilizerCost, OverlapsCost, FootprintsCost;
    OverlapTermsCost(z, panels, t, overlaps);
    FootprintTermsCost(OverlapTerms(panels, t, |z|, overlaps), z, panels, t, feet, panels);
    StabilizerTermsCost(DataTerms(panels, t, |z|, overlaps, feet), z, |z|);
  }

  /** The unknowns that are the references' constant terms. */
  function Gauge(refs: seq<nat>, t: nat): (g: seq<nat>)
    ensures |g| == |refs| && forall i :: 0 <= i < |refs| ==> g[i] == Start(refs[i], t)
  {
    seq(|refs|, i requires 0 <= i < |refs| => Start(refs[i], t))
  }

  /** `z` alone has the least cost among coefficients whose reference constants are zero. */
  ghost predicate SoleSurfaces(z: Vector, panels: nat, t: nat, overlaps: seq<Overlap>, feet: seq<seq<Point>>,
                               refs: seq<nat>) {
    && Shape(panels, t, |z|) && OverlapsIn(overlaps, panels) && |feet| == panels && ZeroOn(z, Gauge(refs, t))
    && forall y: Vector :: |y| == |z| && ZeroOn(y, Gauge(refs, t)) ==>
         && SurfaceCost(z, panels, t, overlaps, feet) <= SurfaceCost(y, panels, t, overlaps, feet)
         && (SurfaceCost(z, panels, t, overlaps, feet) == SurfaceCost(y, panels, t, overlaps, feet) ==> y == z)
  }

  lemma {:induction false} MinimiserIsSurfaces(z: Vector, panels: nat, t: nat, overlaps: seq<Overlap>,
                                               feet: seq<seq<Point>>, refs: seq<nat>)
    requires Shape(panels, t, |z|) && OverlapsIn(overlaps, panels) && |feet| == panels
    requires SoleMinimiser(StabilizerTerms(DataTerms(panels, t, |z|, overlaps, feet), |z|, |z|), Gauge(refs, t), z)
    ensures SoleSurfaces(z, panels, t, overlaps, feet, refs)
  {
    forall y: Vector | |y| == |z|
      ensures Objective(StabilizerTerms(DataTerms(panels, t, |z|, overlaps, feet), |z|, |z|), y)
           == SurfaceCost(y, panels, t, overlaps, feet)
    {
      ObjectiveIsCost(y, panels, t, overlaps, feet);
    }
    hide Objective, SurfaceCost, StabilizerTerms, DataTerms, Shape, ZeroOn;
  }

  /** Whatever the data, the gauged system the fit solves is not singular. */
  lemma {:induction false} FitIsRegular(A: Matrix, b: Vector, base: Terms, gauge: seq<nat>, G: Matrix, c: Vector,
                                        n: nat)
    requires IsRows(base, n) && Encodes(A, b, StabilizerTerms(base, n, n), n) && IsGauged(A, b, gauge, G, c, n)
    ensures !IsSingular(G, n)
  {
    hide Encodes, IsGauged, IsSingular;
    var rows := StabilizerTerms(base, n, n);
    forall z: Vector | |z| == n && Quad(rows, z) == 0.0 ensures z == Zeros(n) {
      StabilizedIsPositive(base, z, n);
    }
    RegularIffPinned(A, b, rows, gauge, G, c, n);
  }

  /** When the solve of a channel's surfaces fails, in terms of the system it solves. */
  ghost predicate IsFitVerdict(panels: nat, t: nat, overlaps: seq<Overlap>, feet: seq<seq<Point>>, refs: seq<nat>,
                               gauged: seq<real>, res: SolveResult) {
    var n := Start(panels, t);
    && Shape(panels, t, n) && OverlapsIn(overlaps, panels) && |feet| == panels
    && IsVerdict(StabilizerTerms(DataTerms(panels, t, n, overlaps, feet), n, n), Gauge(refs, t), n, gauged, res)
  }

  /** One channel's surfaces: assemble, stabilise, gauge, solve. A failure only ever means that some pivot
      of the (regular) gauged system was tiny against its largest entry. */
  method FitChannel(panels: nat, order: nat, overlaps: seq<Overlap>, feet: seq<seq<Point>>, refs: seq<nat>)
    returns (res: SolveResult, ghost gauged: seq<real>)
    requires OverlapsIn(overlaps, panels) && |feet| == panels && forall r :: r in refs ==> r < panels
    ensures res.Ok? ==> SoleSurfaces(res.x, panels, TermCount(order), overlaps, feet, refs)
    ensures IsFitVerdict(panels, TermCount(order), overlaps, feet, refs, gauged, res)
    ensures !IsSingular(Rows(gauged, Start(panels, TermCount(order))), Start(panels, TermCount(order)))
  {
    var t := TermCount(order);
    var n := Start(panels, t);
    hide IsSquare, Rows, RowAt, Encodes, IsGauged, SoleSolution, IsSingular, NearlySingular, Start, GivesUp, Tiny;
    var a, b := ZeroSystem(n);
    assert overlaps[..0] == [];
    for k := 0 to |overlaps|
      invariant OverlapsIn(overlaps[..k], panels)
      invariant Encodes(Rows(a[..], n), b[..], OverlapTerms(panels, t, n, overlaps[..k]), n)
    {
      assert overlaps[..k + 1][..k] == overlaps[..k];
      if overlaps[k].cells != [] {
        AddOverlap(a, b, panels, t, n, overlaps[k], OverlapTerms(panels, t, n, overlaps[..k]));
      }
    }
    assert overlaps[..|overlaps|] == overlaps;
    AddFootprints(a, b, panels, t, n, feet, OverlapTerms(panels, t, n, overlaps));
    ghost var base := DataTerms(panels, t, n, overlaps, feet);
    Stabilize(a, b, n, base);
    ghost var A, c := Rows(a[..], n), b[..];
    GaugeInside(panels, t, n, refs);
    OverwriteGauge(a, b, n, Gauge(refs, t));
    gauged := a[..];
    ghost var G, d := Rows(gauged, n), b[..];
    FitIsRegular(A, c, base, Gauge(refs, t), G, d, n);
    assert IsGaugedMatrix(StabilizerTerms(base, n, n), Gauge(refs, t), G, n);
    res := SolveDense(a, b, n);
    if res.Ok? {
      GaugedMinimiser(A, c, StabilizerTerms(base, n, n), Gauge(refs, t), G, d, res.x);
      MinimiserIsSurfaces(res.x, panels, t, overlaps, feet, refs);
    }
  }

  lemma {:induction false} GaugeInside(panels: nat, t: nat, n: nat, refs: seq<nat>)
    requires Shape(panels, t, n) && forall r :: r in refs ==> r < panels
    ensures forall g :: g in Gauge(refs, t) ==> g < n
  {
    forall g | g in Gauge(refs, t) ensures g < n {
      var i :| 0 <= i < |refs| && Gauge(refs, t)[i] == g;
      assert refs[i] in refs;
      BlockInside(panels, t, n, refs[i]);
    }
  }
}
