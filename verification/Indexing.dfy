/** Row-major indexing of a flat buffer: cell (x, y) of a grid of width `w` lives at `y * w + x`.
    Every kernel of the core crate addresses its planes this way. */
module Indexing {

  /** A row-major index lies inside the buffer. */
  lemma {:induction false} InBounds(w: nat, h: nat, x: nat, y: nat)
    requires x < w && y < h
    ensures 0 <= y * w && y * w + x < y * w + w <= w * h
  {
    assert (y + 1) * w <= h * w;
  }

  /** A later row starts no earlier than the end of this one. */
  lemma {:induction false} RowsApart(w: nat, y: nat, y': nat)
    requires y < y'
    ensures y * w + w <= y' * w
  {
    assert (y + 1) * w <= y' * w;
  }

  /** Two cells of the same width share an index only if they are the same cell. */
  lemma {:induction false} Injective(w: nat, x: nat, y: nat, x': nat, y': nat)
    requires x < w && x' < w
    requires y * w + x == y' * w + x'
    ensures x == x' && y == y'
  {
    if y < y' { RowsApart(w, y, y'); }
    if y' < y { RowsApart(w, y', y); }
  }
}

/** Planes of cells stored row-major in a flat buffer. */
module Grid {
  import Indexing

  ghost predicate IsPlane(length: nat, w: nat, h: nat) {
    length == w * h
  }

  /** The value a flat plane holds at column `x` of row `y`. */
  ghost function Cell<T>(s: seq<T>, w: nat, h: nat, x: int, y: int): T
    requires IsPlane(|s|, w, h) && 0 <= x < w && 0 <= y < h
  {
    Indexing.InBounds(w, h, x, y);
    s[y * w + x]
  }

  lemma {:induction false} CellAt<T>(s: seq<T>, w: nat, h: nat, x: nat, y: nat)
    requires IsPlane(|s|, w, h) && x < w && y < h
    ensures 0 <= y * w + x < |s| && s[y * w + x] == Cell(s, w, h, x, y)
  {
    Indexing.InBounds(w, h, x, y);
  }

  /** Writing one flat index changes one cell. */
  lemma {:induction false} CellWrite<T>(s: seq<T>, w: nat, h: nat, x: nat, y: nat, v: T)
    requires IsPlane(|s|, w, h) && x < w && y < h
    ensures 0 <= y * w + x < |s| && IsPlane(|s[y * w + x := v]|, w, h)
    ensures forall x', y' :: 0 <= x' < w && 0 <= y' < h ==>
              Cell(s[y * w + x := v], w, h, x', y') == if x' == x && y' == y then v else Cell(s, w, h, x', y')
  {
    Indexing.InBounds(w, h, x, y);
    var t := s[y * w + x := v];
    forall x', y' | 0 <= x' < w && 0 <= y' < h
      ensures Cell(t, w, h, x', y') == if x' == x && y' == y then v else Cell(s, w, h, x', y')
    {
      Indexing.InBounds(w, h, x', y');
      if y' * w + x' == y * w + x { Indexing.Injective(w, x, y, x', y'); }
    }
  }

  method Read<T>(a: array<T>, w: nat, h: nat, x: nat, y: nat) returns (v: T)
    requires IsPlane(a.Length, w, h) && x < w && y < h
    ensures v == Cell(a[..], w, h, x, y)
  {
    CellAt(a[..], w, h, x, y);
    v := a[y * w + x];
  }

  method Write<T>(a: array<T>, w: nat, h: nat, x: nat, y: nat, v: T)
    requires IsPlane(a.Length, w, h) && x < w && y < h
    modifies a
    ensures forall x', y' :: 0 <= x' < w && 0 <= y' < h ==>
              Cell(a[..], w, h, x', y') == if x' == x && y' == y then v else Cell(old(a[..]), w, h, x', y')
  {
    ghost var s := a[..];
    CellWrite(s, w, h, x, y, v);
    a[y * w + x] := v;
    assert a[..] == s[y * w + x := v];
  }

  method NewPlane<T(0)>(w: nat, h: nat, v: T) returns (a: array<T>)
    ensures fresh(a) && IsPlane(a.Length, w, h)
    ensures forall i :: 0 <= i < a.Length ==> a[i] == v
  {
    a := new T[w * h](_ => v);
  }

  /** Every flat index is the index of a cell. */
  lemma {:induction false} CellOf(w: nat, h: nat, i: nat) returns (x: nat, y: nat)
    requires i < w * h
    ensures x < w && y < h && i == y * w + x
    ensures x == i % w && y == i / w
  {
    x, y := i % w, i / w;
    assert i == w * (i / w) + i % w;
    if h < y { Indexing.RowsApart(w, h, y); }
  }
}
