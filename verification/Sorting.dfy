/** The stable sort of the standard library, as an insertion sort, with the facts the
    algorithms here rely on: the result is ordered, it is a permutation of the input,
    and an ordered input comes back unchanged. */
module Sorting {

  ghost predicate TotalPreorder<T(!new)>(le: (T, T) -> bool) {
    && (forall x, y :: le(x, y) || le(y, x))
    && (forall x, y, z :: le(x, y) && le(y, z) ==> le(x, z))
  }

  ghost predicate Ordered<T>(le: (T, T) -> bool, xs: seq<T>) {
    forall i, j :: 0 <= i < j < |xs| ==> le(xs[i], xs[j])
  }

  /** Puts `x` behind every element it does not precede, so equal elements keep their order. */
  function Insert<T>(le: (T, T) -> bool, xs: seq<T>, x: T): seq<T> {
    if xs == [] || le(xs[|xs| - 1], x) then
      xs + [x]
    else
      Insert(le, xs[..|xs| - 1], x) + [xs[|xs| - 1]]
  }

  function Sort<T>(le: (T, T) -> bool, xs: seq<T>): seq<T> {
    if xs == [] then [] else Insert(le, Sort(le, xs[..|xs| - 1]), xs[|xs| - 1])
  }

  lemma {:induction false} InsertPermutes<T>(le: (T, T) -> bool, xs: seq<T>, x: T)
    ensures multiset(Insert(le, xs, x)) == multiset(xs) + multiset{x}
    decreases |xs|
  {
    if xs == [] || le(xs[|xs| - 1], x) {
    } else {
      InsertPermutes(le, xs[..|xs| - 1], x);
      assert xs == xs[..|xs| - 1] + [xs[|xs| - 1]];
    }
  }

  lemma {:induction false} SortPermutes<T>(le: (T, T) -> bool, xs: seq<T>)
    ensures multiset(Sort(le, xs)) == multiset(xs)
    ensures |Sort(le, xs)| == |xs|
    decreases |xs|
  {
    if xs == [] {
    } else {
      SortPermutes(le, xs[..|xs| - 1]);
      InsertPermutes(le, Sort(le, xs[..|xs| - 1]), xs[|xs| - 1]);
      assert xs == xs[..|xs| - 1] + [xs[|xs| - 1]];
    }
    assert |multiset(Sort(le, xs))| == |multiset(xs)|;
  }

  /** Sorting neither loses nor invents elements. */
  lemma {:induction false} SortKeepsElements<T>(le: (T, T) -> bool, xs: seq<T>)
    ensures forall x :: x in Sort(le, xs) <==> x in xs
    ensures |Sort(le, xs)| == |xs|
  {
    SortPermutes(le, xs);
    forall x
      ensures x in Sort(le, xs) <==> x in xs
    {
      assert x in Sort(le, xs) <==> x in multiset(Sort(le, xs));
      assert x in xs <==> x in multiset(xs);
    }
  }

  lemma {:induction false} InsertOrdered<T(!new)>(le: (T, T) -> bool, xs: seq<T>, x: T)
    requires TotalPreorder(le) && Ordered(le, xs)
    ensures Ordered(le, Insert(le, xs, x))
    decreases |xs|
  {
    if xs == [] || le(xs[|xs| - 1], x) {
    } else {
      var init, last := xs[..|xs| - 1], xs[|xs| - 1];
      InsertOrdered(le, init, x);
      var r := Insert(le, init, x);
      InsertPermutes(le, init, x);
      forall i | 0 <= i < |r|
        ensures le(r[i], last)
      {
        assert r[i] in multiset(r);
        if r[i] != x {
          assert r[i] in multiset(init);
          assert r[i] in init;
          var k :| 0 <= k < |init| && init[k] == r[i];
          assert xs[k] == r[i];
        }
      }
    }
  }

  lemma {:induction false} SortOrders<T(!new)>(le: (T, T) -> bool, xs: seq<T>)
    requires TotalPreorder(le)
    ensures Ordered(le, Sort(le, xs))
    decreases |xs|
  {
    if xs == [] {
    } else {
      SortOrders(le, xs[..|xs| - 1]);
      InsertOrdered(le, Sort(le, xs[..|xs| - 1]), xs[|xs| - 1]);
    }
  }

  lemma {:induction false} SortOfOrdered<T>(le: (T, T) -> bool, xs: seq<T>)
    requires Ordered(le, xs)
    ensures Sort(le, xs) == xs
    decreases |xs|
  {
    if xs == [] {
    } else {
      SortOfOrdered(le, xs[..|xs| - 1]);
      assert xs == xs[..|xs| - 1] + [xs[|xs| - 1]];
      if |xs| > 1 {
        assert le(xs[|xs| - 2], xs[|xs| - 1]);
      }
    }
  }
}
