/** Text order of identifiers, and the stable sort the planners rely on. */
module TextOrder {
  predicate TextLe(a: string, b: string) {
    a == "" || (b != "" && (a[0] < b[0] || (a[0] == b[0] && TextLe(a[1..], b[1..]))))
  }

  lemma TextLeTotal(a: string, b: string)
    ensures TextLe(a, b) || TextLe(b, a)
  {
  }

  lemma TextLeTransitive(a: string, b: string, c: string)
    requires TextLe(a, b) && TextLe(b, c)
    ensures TextLe(a, c)
  {
  }

  lemma {:induction false} TextLeAntisymmetric(a: string, b: string)
    requires TextLe(a, b) && TextLe(b, a)
    ensures a == b
  {
    if a != "" {
      TextLeAntisymmetric(a[1..], b[1..]);
      assert a == [a[0]] + a[1..] && b == [b[0]] + b[1..];
    }
  }

  predicate IsLeast(least: string, ids: set<string>) {
    least in ids && forall id :: id in ids ==> TextLe(least, id)
  }

  lemma LeastOfTwo(some: string, rest: string, ids: set<string>)
    requires some in ids && IsLeast(rest, ids - {some})
    ensures IsLeast(some, ids) || IsLeast(rest, ids)
  {
    TextLeTotal(some, rest);
    if TextLe(some, rest) {
      forall id | id in ids ensures TextLe(some, id) {
        if id == some { TextLeTotal(some, some); } else { TextLeTransitive(some, rest, id); }
      }
    }
  }

  lemma {:induction false} LeastExists(ids: set<string>)
    requires ids != {}
    ensures exists least :: IsLeast(least, ids)
  {
    var some :| some in ids;
    if ids == {some} {
      TextLeTotal(some, some);
      assert IsLeast(some, ids);
    } else {
      LeastExists(ids - {some});
      var rest :| IsLeast(rest, ids - {some});
      LeastOfTwo(some, rest, ids);
    }
  }

  lemma LeastUnique(x: string, y: string, ids: set<string>)
    requires IsLeast(x, ids) && IsLeast(y, ids)
    ensures x == y
  {
    TextLeAntisymmetric(x, y);
  }

  lemma LeastDecided(ids: set<string>)
    requires ids != {}
    ensures exists least :: IsLeast(least, ids)
    ensures forall x, y :: IsLeast(x, ids) && IsLeast(y, ids) ==> x == y
  {
    LeastExists(ids);
    forall x, y | IsLeast(x, ids) && IsLeast(y, ids) ensures x == y {
      LeastUnique(x, y, ids);
    }
  }

  /** The ids of an ordered set, in its iteration order. */
  function InTextOrder(ids: set<string>): (listed: seq<string>)
    ensures forall id :: id in listed <==> id in ids
    ensures forall i, j :: 0 <= i < j < |listed| ==> listed[i] != listed[j]
  {
    if ids == {} then []
    else
      LeastDecided(ids);
      var least :| least in ids && IsLeast(least, ids);
      [least] + InTextOrder(ids - {least})
  }

  lemma {:induction false} ListedInOrder(ids: set<string>)
    ensures forall i, j :: 0 <= i < j < |InTextOrder(ids)| ==> TextLe(InTextOrder(ids)[i], InTextOrder(ids)[j])
  {
    if ids != {} {
      LeastDecided(ids);
      var least :| least in ids && IsLeast(least, ids);
      ListedInOrder(ids - {least});
      forall j | 0 < j < |InTextOrder(ids)| ensures TextLe(InTextOrder(ids)[0], InTextOrder(ids)[j]) {
        assert InTextOrder(ids)[j] in InTextOrder(ids - {least});
      }
    }
  }
}

module Sorting {
  ghost predicate TotalPreorder<T(!new)>(leq: (T, T) -> bool) {
    && (forall a, b :: leq(a, b) || leq(b, a))
    && (forall a, b, c :: leq(a, b) && leq(b, c) ==> leq(a, c))
  }

  ghost predicate SortedBy<T>(xs: seq<T>, leq: (T, T) -> bool) {
    forall i, j :: 0 <= i < j < |xs| ==> leq(xs[i], xs[j])
  }

  function Insert<T>(x: T, xs: seq<T>, leq: (T, T) -> bool): seq<T> {
    if xs == [] || leq(x, xs[0]) then [x] + xs else [xs[0]] + Insert(x, xs[1..], leq)
  }

  /** Stable: an element stays before later elements it is equivalent to. */
  function Sort<T>(xs: seq<T>, leq: (T, T) -> bool): seq<T> {
    if xs == [] then [] else Insert(xs[0], Sort(xs[1..], leq), leq)
  }

  lemma {:induction false} InsertSorts<T(!new)>(x: T, xs: seq<T>, leq: (T, T) -> bool)
    requires TotalPreorder(leq) && SortedBy(xs, leq)
    ensures SortedBy(Insert(x, xs, leq), leq)
    ensures multiset(Insert(x, xs, leq)) == multiset(xs) + multiset{x}
  {
    if xs == [] || leq(x, xs[0]) {
    } else {
      assert xs == [xs[0]] + xs[1..];
      InsertSorts(x, xs[1..], leq);
      var tail := Insert(x, xs[1..], leq);
      forall y | y in tail ensures leq(xs[0], y) {
        assert y in multiset(tail);
        assert y in multiset(xs[1..]) || y == x;
        if y != x { assert y in xs[1..]; }
      }
    }
  }

  lemma {:induction false} SortSorts<T(!new)>(xs: seq<T>, leq: (T, T) -> bool)
    requires TotalPreorder(leq)
    ensures SortedBy(Sort(xs, leq), leq)
    ensures multiset(Sort(xs, leq)) == multiset(xs)
  {
    if xs != [] {
      SortSorts(xs[1..], leq);
      InsertSorts(xs[0], Sort(xs[1..], leq), leq);
      assert xs == [xs[0]] + xs[1..];
    }
  }

  lemma SameElements<T>(xs: seq<T>, ys: seq<T>)
    requires multiset(xs) == multiset(ys)
    ensures |xs| == |ys|
    ensures forall x :: x in xs <==> x in ys
  {
    assert |multiset(xs)| == |multiset(ys)|;
    forall x ensures x in xs <==> x in ys {
      assert x in xs <==> x in multiset(xs);
      assert x in ys <==> x in multiset(ys);
    }
  }

  /** A list without repetition has the elements of a set, each once. */
  lemma {:induction false} DistinctAsSet<T>(ids: seq<T>, all: set<T>)
    requires forall i, j :: 0 <= i < j < |ids| ==> ids[i] != ids[j]
    requires forall id :: id in ids <==> id in all
    ensures multiset(ids) == multiset(all)
  {
    if ids == [] {
      assert all == {};
    } else {
      var n := |ids| - 1;
      assert ids == ids[..n] + [ids[n]];
      forall id ensures id in ids[..n] <==> id in all - {ids[n]} {
        if id in all - {ids[n]} { assert id in ids; }
      }
      DistinctAsSet(ids[..n], all - {ids[n]});
      assert all == (all - {ids[n]}) + {ids[n]};
    }
  }

  function SumOf<T>(f: T -> nat, xs: seq<T>): nat {
    if xs == [] then 0 else f(xs[0]) + SumOf(f, xs[1..])
  }

  lemma {:induction false} InsertKeepsSum<T>(f: T -> nat, x: T, xs: seq<T>, leq: (T, T) -> bool)
    ensures SumOf(f, Insert(x, xs, leq)) == f(x) + SumOf(f, xs)
  {
    if xs == [] || leq(x, xs[0]) {
      assert ([x] + xs)[1..] == xs;
    } else {
      InsertKeepsSum(f, x, xs[1..], leq);
      assert ([xs[0]] + Insert(x, xs[1..], leq))[1..] == Insert(x, xs[1..], leq);
    }
  }

  lemma {:induction false} SortKeepsSum<T>(f: T -> nat, xs: seq<T>, leq: (T, T) -> bool)
    ensures SumOf(f, Sort(xs, leq)) == SumOf(f, xs)
  {
    if xs != [] {
      SortKeepsSum(f, xs[1..], leq);
      InsertKeepsSum(f, xs[0], Sort(xs[1..], leq), leq);
    }
  }

  function Gather<T, U>(f: T -> multiset<U>, xs: seq<T>): multiset<U> {
    if xs == [] then multiset{} else f(xs[0]) + Gather(f, xs[1..])
  }

  lemma {:induction false} InsertKeepsGathered<T, U>(f: T -> multiset<U>, x: T, xs: seq<T>, leq: (T, T) -> bool)
    ensures Gather(f, Insert(x, xs, leq)) == f(x) + Gather(f, xs)
  {
    if xs == [] || leq(x, xs[0]) {
      assert ([x] + xs)[1..] == xs;
    } else {
      InsertKeepsGathered(f, x, xs[1..], leq);
      assert ([xs[0]] + Insert(x, xs[1..], leq))[1..] == Insert(x, xs[1..], leq);
    }
  }

  lemma {:induction false} SortKeepsGathered<T, U>(f: T -> multiset<U>, xs: seq<T>, leq: (T, T) -> bool)
    ensures Gather(f, Sort(xs, leq)) == Gather(f, xs)
  {
    if xs != [] {
      SortKeepsGathered(f, xs[1..], leq);
      InsertKeepsGathered(f, xs[0], Sort(xs[1..], leq), leq);
    }
  }

  lemma {:induction false} GatherAppends<T, U>(f: T -> multiset<U>, xs: seq<T>, x: T)
    ensures Gather(f, xs + [x]) == Gather(f, xs) + f(x)
  {
    if xs == [] {
      assert [x][1..] == [] && [] + [x] == [x];
    } else {
      GatherAppends(f, xs[1..], x);
      assert (xs + [x])[1..] == xs[1..] + [x];
    }
  }

  lemma {:induction false} SumAppends<T>(f: T -> nat, xs: seq<T>, x: T)
    ensures SumOf(f, xs + [x]) == SumOf(f, xs) + f(x)
  {
    if xs == [] {
      assert [x][1..] == [] && [] + [x] == [x];
    } else {
      SumAppends(f, xs[1..], x);
      assert (xs + [x])[1..] == xs[1..] + [x];
    }
  }

  lemma {:induction false} SameGathered<S, T, U>(f: S -> multiset<U>, xs: seq<S>, g: T -> multiset<U>, ys: seq<T>)
    requires |xs| == |ys| && forall i :: 0 <= i < |xs| ==> f(xs[i]) == g(ys[i])
    ensures Gather(f, xs) == Gather(g, ys)
  {
    if xs != [] {
      SameGathered(f, xs[1..], g, ys[1..]);
    }
  }

  lemma {:induction false} SameSum<S, T>(f: S -> nat, xs: seq<S>, g: T -> nat, ys: seq<T>)
    requires |xs| == |ys| && forall i :: 0 <= i < |xs| ==> f(xs[i]) == g(ys[i])
    ensures SumOf(f, xs) == SumOf(g, ys)
  {
    if xs != [] {
      SameSum(f, xs[1..], g, ys[1..]);
    }
  }
}
