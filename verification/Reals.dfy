/** Products of reals under a name, with the few algebraic laws the proofs use one at a time. */
module Reals {

  function Mul(x: real, y: real): real {
    x * y
  }

  lemma {:induction false} Positive(x: real, y: real)
    requires x > 0.0 && y > 0.0
    ensures x * y > 0.0
  {
  }

  lemma {:induction false} MulPositive(x: real, y: real)
    requires x > 0.0 && y > 0.0
    ensures Mul(x, y) > 0.0
  {
    Positive(x, y);
    assert Mul(x, y) == x * y;
  }

  lemma {:induction false} MulNegate(x: real, y: real)
    ensures Mul(-x, -y) == Mul(x, y)
  {
  }

  lemma {:induction false} Distribute(w: real, r: real, s: real)
    ensures Mul(w, r + s) == Mul(w, r) + Mul(w, s)
    ensures Mul(r + s, w) == Mul(r, w) + Mul(s, w)
  {
  }

  lemma {:induction false} Associate(x: real, y: real, z: real)
    ensures Mul(Mul(x, y), z) == Mul(x, Mul(y, z))
    ensures Mul(x, y) == Mul(y, x)
  {
    var yz := y * z;
    assert (x * y) * z == x * yz;
  }

  /** A square is never negative, and zero only at zero. */
  lemma {:induction false} SquareSign(m: real)
    ensures Mul(m, m) >= 0.0 && (Mul(m, m) == 0.0 <==> m == 0.0)
  {
    assert Mul(0.0, 0.0) == 0.0;
    MulNegate(m, m);
    hide Mul;
    if m > 0.0 {
      MulPositive(m, m);
    } else if m < 0.0 {
      MulPositive(-m, -m);
    } else {
    }
  }

  /** A product with a nonnegative factor keeps the sign of the other. */
  lemma {:induction false} MulSign(w: real, t: real)
    requires w >= 0.0 && t >= 0.0
    ensures Mul(w, t) >= 0.0 && (Mul(w, t) == 0.0 <==> w == 0.0 || t == 0.0)
  {
    assert Mul(0.0, t) == 0.0 && Mul(w, 0.0) == 0.0;
    hide Mul;
    if w > 0.0 && t > 0.0 {
      MulPositive(w, t);
    }
  }

  lemma {:induction false} QuotientBounds(s: real, n: real, lo: real, hi: real)
    requires n > 0.0 && lo * n <= s <= hi * n
    ensures lo <= s / n <= hi
  {
    var q := s / n;
    assert q * n == s;
    assert (lo - q) * n == lo * n - s && (q - hi) * n == s - hi * n;
  }
}
