/** The k-th smallest element of a list, as the selection calls of the core crate return it. */
module Order {

  function Insert(x: real, s: seq<real>): (r: seq<real>)
    ensures |r| == |s| + 1
  {
    if s == [] || x <= s[0] then [x] + s else [s[0]] + Insert(x, s[1..])
  }

  function Sort(s: seq<real>): (r: seq<real>)
    ensures |r| == |s|
  {
    if s == [] then [] else Insert(s[0], Sort(s[1..]))
  }

  ghost predicate Ordered(s: seq<real>) {
    forall i, j :: 0 <= i < j < |s| ==> s[i] <= s[j]
  }

  lemma {:induction false} InsertKeeps(x: real, s: seq<real>)
    ensures multiset(Insert(x, s)) == multiset{x} + multiset(s)
  {
    if s != [] {
      assert s == [s[0]] + s[1..];
      if x > s[0] { InsertKeeps(x, s[1..]); }
    }
  }

  lemma {:induction false} InsertOrders(x: real, s: seq<real>)
    requires Ordered(s)
    ensures Ordered(Insert(x, s))
  {
    if s != [] && x > s[0] {
      var r := Insert(x, s[1..]);
      InsertOrders(x, s[1..]);
      InsertKeeps(x, s[1..]);
      assert Insert(x, s) == [s[0]] + r;
      hide Insert;
      forall i | 0 <= i < |r| ensures s[0] <= r[i] { InsertedBounds(x, s, r, i); }
    }
  }

  lemma {:induction false} InsertedBounds(x: real, s: seq<real>, r: seq<real>, i: nat)
    requires s != [] && Ordered(s) && x > s[0] && i < |r| && multiset(r) == multiset{x} + multiset(s[1..])
    ensures s[0] <= r[i]
  {
    assert r[i] in multiset(r);
    assert r[i] == x || r[i] in s[1..];
  }

  lemma {:induction false} SortOrders(s: seq<real>)
    ensures Ordered(Sort(s)) && multiset(Sort(s)) == multiset(s)
  {
    if s != [] {
      SortOrders(s[1..]);
      InsertOrders(s[0], Sort(s[1..]));
      InsertKeeps(s[0], Sort(s[1..]));
      assert s == [s[0]] + s[1..];
    }
  }

  /** The element that ends up at position `k` when the list is sorted. */
  function Nth(s: seq<real>, k: nat): (v: real)
    requires k < |s|
    ensures v in s
  {
    SortOrders(s);
    assert Sort(s)[k] in multiset(Sort(s));
    Sort(s)[k]
  }

  /** The middle element, upper one of the two for even lengths. */
  function UpperMedian(s: seq<real>): (v: real)
    requires s != []
    ensures v in s
  {
    Nth(s, |s| / 2)
  }

  // ---------------------------------------------------------------- selection by counting

  /** An element with at most half of the list below it and more than half of it up to it. */
  ghost predicate IsMiddle(s: seq<real>, v: real) {
    v in s && Count(s, v, false) <= |s| / 2 < Count(s, v, true)
  }

  /** The upper median is in the middle, and nothing else is. */
  lemma {:induction false} MedianIsMiddle(s: seq<real>, v: real)
    requires s != []
    ensures v == UpperMedian(s) <==> IsMiddle(s, v)
  {
    var k, m := |s| / 2, UpperMedian(s);
    SortOrders(s);
    CountSort(s, m, false);
    CountSort(s, m, true);
    CountOrdered(Sort(s), m, false, k);
    CountOrdered(Sort(s), m, true, k);
    if IsMiddle(s, v) { NthByCount(s, k, v); }
  }

  /** How many elements lie below `c`, or at most at it. */
  function Count(s: seq<real>, c: real, upTo: bool): (n: nat)
    ensures n <= |s|
  {
    if s == [] then 0 else Count(s[1..], c, upTo) + if s[0] < c || (upTo && s[0] == c) then 1 else 0
  }

  lemma {:induction false} CountInsert(x: real, s: seq<real>, c: real, upTo: bool)
    ensures Count(Insert(x, s), c, upTo) == Count(s, c, upTo) + if x < c || (upTo && x == c) then 1 else 0
  {
    if s == [] || x <= s[0] {
      assert ([x] + s)[1..] == s;
    } else {
      CountInsert(x, s[1..], c, upTo);
      assert Insert(x, s)[1..] == Insert(x, s[1..]);
    }
  }

  lemma {:induction false} CountSort(s: seq<real>, c: real, upTo: bool)
    ensures Count(Sort(s), c, upTo) == Count(s, c, upTo)
  {
    if s != [] {
      CountSort(s[1..], c, upTo);
      CountInsert(s[0], Sort(s[1..]), c, upTo);
    }
  }

  lemma {:induction false} CountOrdered(s: seq<real>, c: real, upTo: bool, i: nat)
    requires Ordered(s) && i < |s|
    ensures s[i] < c || (upTo && s[i] == c) ==> Count(s, c, upTo) > i
    ensures !(s[i] < c || (upTo && s[i] == c)) ==> Count(s, c, upTo) <= i
  {
    if i > 0 {
      CountOrdered(s[1..], c, upTo, i - 1);
    } else if !(s[0] < c || (upTo && s[0] == c)) {
      NoneBelow(s, c, upTo);
    }
  }

  lemma {:induction false} NoneBelow(s: seq<real>, c: real, upTo: bool)
    requires Ordered(s) && s != [] && !(s[0] < c || (upTo && s[0] == c))
    ensures Count(s, c, upTo) == 0
  {
    if |s| > 1 { NoneBelow(s[1..], c, upTo); }
  }

  /** The element with at most `k` below it and more than `k` up to it is the one at position `k`. */
  lemma {:induction false} NthByCount(s: seq<real>, k: nat, c: real)
    requires k < |s| && Count(s, c, false) <= k < Count(s, c, true)
    ensures Nth(s, k) == c
  {
    SortOrders(s);
    CountSort(s, c, false);
    CountSort(s, c, true);
    CountOrdered(Sort(s), c, false, k);
    CountOrdered(Sort(s), c, true, k);
  }

  lemma {:induction false} CountAppend(s: seq<real>, x: real, c: real, upTo: bool)
    ensures Count(s + [x], c, upTo) == Count(s, c, upTo) + if x < c || (upTo && x == c) then 1 else 0
  {
    if s == [] {
      assert ([] + [x])[1..] == [];
    } else {
      CountAppend(s[1..], x, c, upTo);
      assert (s + [x])[1..] == s[1..] + [x];
    }
  }
}
