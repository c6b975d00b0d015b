/** When the photometric systems have a solution at all: the offsets exactly when every panel is tied to a
    gauged one by contributing edges, the gain potentials always (crates/mmm-core/src/photometry.rs,
    `offset_solve` and `global_solve`). */
module OffsetSolvability {
  import opened Components
  import opened Entrywise
  import opened LeastSquares
  import opened Linalg
  import opened Photometry
  import opened Reals

  /** The edges whose fit contributes to a channel. */
  ghost function Links(fits: seq<EdgeFit>, channel: nat): seq<Edge> {
    if fits == [] then []
    else
      var f := fits[|fits| - 1];
      Links(fits[..|fits| - 1], channel) + if Contributes(f, channel) then [Edge(f.a, f.b)] else []
  }

  ghost predicate Level(z: Vector, edges: seq<Edge>) {
    forall e :: e in edges && e.a < |z| && e.b < |z| ==> z[e.a] == z[e.b]
  }

  lemma {:induction false} LinksIn(fits: seq<EdgeFit>, channel: nat, n: nat)
    requires FitsIn(fits, n)
    ensures forall e :: e in Links(fits, channel) ==> e.a < n && e.b < n
  {
    if fits != [] { LinksIn(fits[..|fits| - 1], channel, n); }
  }

  /** The homogeneous part vanishes exactly on what is level across every contributing edge. */
  lemma {:induction false} FlatIffLevel(fits: seq<EdgeFit>, channel: nat, gains: Vector, z: Vector)
    requires FitsIn(fits, |gains|) && |z| == |gains|
    ensures Quad(OffsetTerms(fits, channel, gains), z) == 0.0 <==> Level(z, Links(fits, channel))
  {
    if fits != [] {
      var init, f := fits[..|fits| - 1], fits[|fits| - 1];
      FlatIffLevel(init, channel, gains, z);
      if Contributes(f, channel) {
        DotDifference(f.a, f.b, 1.0, z);
        WeightedPositive(z[f.a] - z[f.b]);
        assert Mul(1.0, z[f.a] - z[f.b]) == z[f.a] - z[f.b];
        LevelMore(z, Links(init, channel), Edge(f.a, f.b));
      } else {
        assert Links(fits, channel) == Links(init, channel);
      }
      hide Weighted, Dot, Target, Mul, Level;
    }
  }

  lemma {:induction false} LevelMore(z: Vector, edges: seq<Edge>, e: Edge)
    requires e.a < |z| && e.b < |z|
    ensures Level(z, edges + [e]) <==> Level(z, edges) && z[e.a] == z[e.b]
  {
    assert e in edges + [e];
    assert forall d :: d in edges ==> d in edges + [e];
  }

  /** Level across edges is level along paths. */
  lemma {:induction false} LevelAlong(z: Vector, edges: seq<Edge>, path: seq<nat>, i: nat, j: nat)
    requires Level(z, edges) && (forall e :: e in edges ==> e.a < |z| && e.b < |z|)
    requires Joins(edges, path, i, j) && i < |z| && j < |z|
    ensures z[i] == z[j]
    decreases |path|
  {
    if |path| > 1 {
      assert Adjacent(edges, path[0], path[0 + 1]);
      var rest := path[1..];
      forall k | 0 <= k < |rest| - 1 ensures Adjacent(edges, rest[k], rest[k + 1]) {
        assert Adjacent(edges, path[k + 1], path[k + 1 + 1]);
      }
      LevelAlong(z, edges, rest, path[1], j);
    }
  }

  ghost predicate AllAnchored(edges: seq<Edge>, refs: seq<nat>, n: nat) {
    forall p: nat :: p < n ==> Anchored(edges, refs, p)
  }

  /** The panels tied to `p`. */
  ghost function Tied(edges: seq<Edge>, n: nat, p: nat): (d: Vector)
    ensures |d| == n && forall i :: 0 <= i < n ==> d[i] == if Connected(edges, i, p) then 1.0 else 0.0
  {
    seq(n, i requires 0 <= i < n => if Connected(edges, i, p) then 1.0 else 0.0)
  }

  lemma {:induction false} TiedIsLevel(edges: seq<Edge>, n: nat, p: nat)
    ensures Level(Tied(edges, n, p), edges)
  {
    forall e | e in edges ensures Connected(edges, e.a, p) <==> Connected(edges, e.b, p) {
      ConnectedEdge(edges, e);
      ConnectedSymmetric(edges, e.a, e.b);
      if Connected(edges, e.a, p) { ConnectedTransitive(edges, e.b, e.a, p); }
      if Connected(edges, e.b, p) { ConnectedTransitive(edges, e.a, e.b, p); }
    }
    hide Connected;
  }

  /** Offsets are pinned exactly when every panel is tied to a reference by contributing edges. */
  lemma {:induction false} PinnedIffAnchored(fits: seq<EdgeFit>, channel: nat, gains: Vector, refs: seq<nat>)
    requires FitsIn(fits, |gains|) && forall r :: r in refs ==> r < |gains|
    ensures Pinned(OffsetTerms(fits, channel, gains), refs, |gains|) <==>
              AllAnchored(Links(fits, channel), refs, |gains|)
  {
    var n, rows, edges := |gains|, OffsetTerms(fits, channel, gains), Links(fits, channel);
    LinksIn(fits, channel, n);
    if AllAnchored(edges, refs, n) {
      forall z: Vector | |z| == n && ZeroOn(z, refs) && Quad(rows, z) == 0.0 ensures z == Zeros(n) {
        AnchoredIsZero(fits, channel, gains, refs, z);
      }
    }
    if Pinned(rows, refs, n) {
      forall p: nat | p < n ensures Anchored(edges, refs, p) {
        var d := Tied(edges, n, p);
        TiedIsLevel(edges, n, p);
        FlatIffLevel(fits, channel, gains, d);
        ConnectedReflexive(edges, p);
        assert d[p] == 1.0 && d != Zeros(n);
        if !Anchored(edges, refs, p) {
          forall r | r in refs && r < n ensures d[r] == 0.0 {
            if Connected(edges, r, p) { ConnectedSymmetric(edges, r, p); }
          }
          assert ZeroOn(d, refs);
        }
      }
    }
  }

  lemma {:induction false} AnchoredIsZero(fits: seq<EdgeFit>, channel: nat, gains: Vector, refs: seq<nat>, z: Vector)
    requires FitsIn(fits, |gains|) && |z| == |gains| && forall r :: r in refs ==> r < |gains|
    requires AllAnchored(Links(fits, channel), refs, |gains|)
    requires ZeroOn(z, refs) && Quad(OffsetTerms(fits, channel, gains), z) == 0.0
    ensures z == Zeros(|gains|)
  {
    var n, edges := |gains|, Links(fits, channel);
    LinksIn(fits, channel, n);
    FlatIffLevel(fits, channel, gains, z);
    forall p: nat | p < n ensures z[p] == 0.0 {
      assert Anchored(edges, refs, p);
      var r :| r in refs && Connected(edges, p, r);
      var path: seq<nat> :| Joins(edges, path, p, r);
      LevelAlong(z, edges, path, p, r);
    }
  }

  /** The gauged offset system is regular exactly when every panel is tied to a reference by contributing
      edges. */
  lemma {:induction false} OffsetsRegularIff(A: Matrix, b: Vector, fits: seq<EdgeFit>, channel: nat, gains: Vector,
                                             refs: seq<nat>, G: Matrix, c: Vector)
    requires FitsIn(fits, |gains|) && forall r :: r in refs ==> r < |gains|
    requires Encodes(A, b, OffsetTerms(fits, channel, gains), |gains|) && IsGauged(A, b, refs, G, c, |gains|)
    ensures !IsSingular(G, |gains|) <==> AllAnchored(Links(fits, channel), refs, |gains|)
  {
    hide Encodes, IsGauged, IsSingular, Pinned, AllAnchored;
    RegularIffPinned(A, b, OffsetTerms(fits, channel, gains), refs, G, c, |gains|);
    PinnedIffAnchored(fits, channel, gains, refs);
  }

  /** An offset solve fails whenever some panel is not tied to a reference by contributing edges. With all
      of them tied the system it solves is regular, so a failure only means that a pivot was tiny. */
  lemma {:induction false} OffsetVerdict(fits: seq<EdgeFit>, channel: nat, gains: Vector, refs: seq<nat>,
                                         gauged: seq<real>, res: SolveResult)
    requires FitsIn(fits, |gains|) && forall r :: r in refs ==> r < |gains|
    requires IsVerdict(OffsetTerms(fits, channel, gains), refs, |gains|, gauged, res)
    ensures !AllAnchored(Links(fits, channel), refs, |gains|) ==> res.Singular?
    ensures AllAnchored(Links(fits, channel), refs, |gains|) <==> !IsSingular(Rows(gauged, |gains|), |gains|)
    ensures res.Ok? <==>
              AllAnchored(Links(fits, channel), refs, |gains|) && forall k :: !GivesUp(gauged, |gains|, k)
  {
    hide Encodes, IsGauged, IsSingular, AllAnchored, NearlySingular, Tiny, GivesUp;
    var G := Rows(gauged, |gains|);
    assert IsGaugedMatrix(OffsetTerms(fits, channel, gains), refs, G, |gains|);
    var A: Matrix, b: Vector, c: Vector :| Encodes(A, b, OffsetTerms(fits, channel, gains), |gains|)
        && IsGauged(A, b, refs, G, c, |gains|);
    OffsetsRegularIff(A, b, fits, channel, gains, refs, G, c);
  }

  /** Edges are solvable together when they agree around loops: some offsets match all of them exactly when
      the total mismatch of the optimal ones is zero. */
  lemma {:induction false} ConsistentIffZero(fits: seq<EdgeFit>, channel: nat, gains: Vector, o: Vector)
    requires Optimal(fits, channel, gains, o)
    ensures (exists y: Vector :: |y| == |o| && LevelsAgree(fits, channel, gains, y)) <==>
              TotalMismatch(fits, channel, gains, o) == 0.0
  {
    ZeroMismatch(fits, channel, gains, o);
    if exists y: Vector :: |y| == |o| && LevelsAgree(fits, channel, gains, y) {
      var y: Vector :| |y| == |o| && LevelsAgree(fits, channel, gains, y);
      ConsistentEdgesAgree(fits, channel, gains, o, y);
    }
  }

  lemma {:induction false} RidgeIsPositive(base: Terms, z: Vector, hi: nat)
    requires IsRows(base, |z|) && hi <= |z| && Quad(RidgeTerms(base, |z|, hi), z) == 0.0
    ensures forall k :: 0 <= k < hi ==> z[k] == 0.0
  {
    if hi > 0 {
      DotUnit(hi - 1, z);
      VanishingTerm(Quad(RidgeTerms(base, |z|, hi - 1), z), GAIN_RIDGE, z[hi - 1]);
      RidgeIsPositive(base, z, hi - 1);
      assert Mul(GAIN_RIDGE, z[hi - 1]) == GAIN_RIDGE * z[hi - 1];
    }
  }

  /** The ridge keeps the gain system regular whatever the edges. */
  lemma {:induction false} PotentialsRegular(A: Matrix, b: Vector, rows: seq<GainRow>, refs: seq<nat>, G: Matrix,
                                             c: Vector, n: nat)
    requires GainsIn(rows, n) && Encodes(A, b, RidgeTerms(EdgeTerms(rows, n), n, n), n) && IsGauged(A, b, refs, G, c, n)
    ensures !IsSingular(G, n)
  {
    hide Encodes, IsGauged, IsSingular;
    var base := EdgeTerms(rows, n);
    forall z: Vector | |z| == n && Quad(RidgeTerms(base, n, n), z) == 0.0 ensures z == Zeros(n) {
      RidgeIsPositive(base, z, n);
    }
    RegularIffPinned(A, b, RidgeTerms(base, n, n), refs, G, c, n);
  }

  /** A gain solve fails only on a tiny pivot: the system it solves is never singular. */
  lemma {:induction false} PotentialsVerdict(rows: seq<GainRow>, refs: seq<nat>, n: nat, gauged: seq<real>,
                                             res: SolveResult)
    requires GainsIn(rows, n) && IsVerdict(RidgeTerms(EdgeTerms(rows, n), n, n), refs, n, gauged, res)
    ensures !IsSingular(Rows(gauged, n), n)
  {
    hide Encodes, IsGauged, IsSingular, NearlySingular, Tiny;
    var G, terms := Rows(gauged, n), RidgeTerms(EdgeTerms(rows, n), n, n);
    assert IsGaugedMatrix(terms, refs, G, n);
    var A: Matrix, b: Vector, c: Vector :| Encodes(A, b, terms, n) && IsGauged(A, b, refs, G, c, n);
    PotentialsRegular(A, b, rows, refs, G, c, n);
  }
}
