/**
 List operations the models share.  They recurse on the last element, which is
 the direction in which the modelled loops append.
 */
module Sequences {
  import opened Wrappers

  /** The elements that satisfy `p`, in order. */
  function Filter<T>(xs: seq<T>, p: T -> bool): seq<T> {
    if xs == [] then []
    else
      var rest := Filter(xs[..|xs| - 1], p);
      if p(xs[|xs| - 1]) then rest + [xs[|xs| - 1]] else rest
  }

  /** The elements whose key, at the same position of `keys`, is `k`. */
  function Pick<K(==), T>(xs: seq<T>, keys: seq<K>, k: K): seq<T>
    requires |xs| == |keys|
  {
    if xs == [] then []
    else
      var n := |xs| - 1;
      var rest := Pick(xs[..n], keys[..n], k);
      if keys[n] == k then rest + [xs[n]] else rest
  }

  function Map<S, T>(f: S -> T, xs: seq<S>): (ys: seq<T>) {
    seq(|xs|, i requires 0 <= i < |xs| => f(xs[i]))
  }

  /** The lists `f` makes of the elements, one after the other. */
  function FlatMap<S, T>(f: S -> seq<T>, xs: seq<S>): seq<T> {
    if xs == [] then [] else FlatMap(f, xs[..|xs| - 1]) + f(xs[|xs| - 1])
  }

  function Last<T>(xs: seq<T>): Option<T> {
    if xs == [] then None else Some(xs[|xs| - 1])
  }

  /** First occurrences, in order: `list(dict.fromkeys(xs))` in Python. */
  function Distinct<T(==)>(xs: seq<T>): seq<T> {
    if xs == [] then []
    else
      var rest := Distinct(xs[..|xs| - 1]);
      if xs[|xs| - 1] in rest then rest else rest + [xs[|xs| - 1]]
  }

  ghost predicate NoDuplicates<T>(xs: seq<T>) {
    forall i, j :: 0 <= i < j < |xs| ==> xs[i] != xs[j]
  }

  lemma {:induction false} DistinctHasSameElements<T>(xs: seq<T>)
    ensures forall x :: x in Distinct(xs) <==> x in xs
    ensures NoDuplicates(Distinct(xs))
  {
    if xs != [] {
      DistinctHasSameElements(xs[..|xs| - 1]);
      assert xs == xs[..|xs| - 1] + [xs[|xs| - 1]];
    }
  }

  lemma {:induction false} FilterMembers<T>(xs: seq<T>, p: T -> bool)
    ensures forall x :: x in Filter(xs, p) <==> x in xs && p(x)
    ensures forall i :: 0 <= i < |Filter(xs, p)| ==> Filter(xs, p)[i] in xs && p(Filter(xs, p)[i])
    ensures NoDuplicates(xs) ==> NoDuplicates(Filter(xs, p))
  {
    if xs != [] {
      FilterMembers(xs[..|xs| - 1], p);
      assert xs == xs[..|xs| - 1] + [xs[|xs| - 1]];
    }
  }

  lemma {:induction false} FilterSame<T>(xs: seq<T>, p: T -> bool, q: T -> bool)
    requires forall x | x in xs :: p(x) == q(x)
    ensures Filter(xs, p) == Filter(xs, q)
  {
    if xs != [] {
      assert forall x | x in xs[..|xs| - 1] :: x in xs;
      FilterSame(xs[..|xs| - 1], p, q);
    }
  }

  lemma {:induction false} FilterFilter<T>(xs: seq<T>, p: T -> bool, q: T -> bool, both: T -> bool)
    requires forall x :: both(x) == (p(x) && q(x))
    ensures Filter(Filter(xs, p), q) == Filter(xs, both)
  {
    if xs != [] {
      FilterFilter(xs[..|xs| - 1], p, q, both);
      var rest, x := Filter(xs[..|xs| - 1], p), xs[|xs| - 1];
      if p(x) {
        assert (rest + [x])[..|rest|] == rest;
      }
    }
  }

  lemma {:induction false} FilterConcat<T>(xs: seq<T>, ys: seq<T>, p: T -> bool)
    ensures Filter(xs + ys, p) == Filter(xs, p) + Filter(ys, p)
  {
    if ys == [] {
      assert xs + ys == xs;
    } else {
      FilterConcat(xs, ys[..|ys| - 1], p);
      assert (xs + ys)[..|xs + ys| - 1] == xs + ys[..|ys| - 1];
    }
  }

  /** Picking by a key computed from each element is filtering by that key. */
  lemma {:induction false} PickIsFilter<K, T>(xs: seq<T>, keys: seq<K>, k: K, p: T -> bool)
    requires |xs| == |keys|
    requires forall i :: 0 <= i < |xs| ==> (p(xs[i]) <==> keys[i] == k)
    ensures Pick(xs, keys, k) == Filter(xs, p)
  {
    if xs != [] {
      PickIsFilter(xs[..|xs| - 1], keys[..|xs| - 1], k, p);
    }
  }

  /** Picking with the same keys selects the same positions of two lists. */
  lemma {:induction false} PickSamePositions<K, S, T>(xs: seq<S>, ys: seq<T>, keys: seq<K>, k: K)
    requires |xs| == |ys| == |keys|
    ensures |Pick(xs, keys, k)| == |Pick(ys, keys, k)|
    ensures forall m :: 0 <= m < |Pick(xs, keys, k)| ==>
              exists i :: 0 <= i < |xs| && Pick(xs, keys, k)[m] == xs[i] && Pick(ys, keys, k)[m] == ys[i]
  {
    if xs != [] {
      var n := |xs| - 1;
      PickSamePositions(xs[..n], ys[..n], keys[..n], k);
      forall m | 0 <= m < |Pick(xs, keys, k)|
        ensures exists i :: 0 <= i < |xs| && Pick(xs, keys, k)[m] == xs[i] && Pick(ys, keys, k)[m] == ys[i]
      {
        if m < |Pick(xs[..n], keys[..n], k)| {
          var i :| 0 <= i < n && Pick(xs[..n], keys[..n], k)[m] == xs[..n][i] && Pick(ys[..n], keys[..n], k)[m] == ys[..n][i];
        } else {
          assert Pick(xs, keys, k)[m] == xs[n] && Pick(ys, keys, k)[m] == ys[n];
        }
      }
    }
  }

  lemma {:induction false} FlatMapConcat<S, T>(f: S -> seq<T>, xs: seq<S>, ys: seq<S>)
    ensures FlatMap(f, xs + ys) == FlatMap(f, xs) + FlatMap(f, ys)
  {
    if ys == [] {
      assert xs + ys == xs;
    } else {
      FlatMapConcat(f, xs, ys[..|ys| - 1]);
      assert (xs + ys)[..|xs + ys| - 1] == xs + ys[..|ys| - 1];
    }
  }

  lemma MapOneMore<S, T>(f: S -> T, xs: seq<S>, k: nat)
    requires k < |xs|
    ensures Map(f, xs[..k + 1]) == Map(f, xs[..k]) + [f(xs[k])]
  {
  }

  lemma FlatMapOneMore<S, T>(f: S -> seq<T>, xs: seq<S>, k: nat)
    requires k < |xs|
    ensures FlatMap(f, xs[..k + 1]) == FlatMap(f, xs[..k]) + f(xs[k])
  {
    assert xs[..k + 1][..k] == xs[..k];
  }

  /** An element that contributes nothing can be left out. */
  lemma FlatMapDrop<S, T>(f: S -> seq<T>, before: seq<S>, x: S, after: seq<S>)
    requires f(x) == []
    ensures FlatMap(f, before + [x] + after) == FlatMap(f, before + after)
  {
    FlatMapConcat(f, before + [x], after);
    FlatMapConcat(f, before, after);
    assert (before + [x])[..|before|] == before;
  }

  lemma {:induction false} FlatMapFlatMap<R, S, T>(g: S -> seq<T>, f: R -> seq<S>, both: R -> seq<T>, xs: seq<R>)
    requires forall x | x in xs :: both(x) == FlatMap(g, f(x))
    ensures FlatMap(g, FlatMap(f, xs)) == FlatMap(both, xs)
  {
    if xs != [] {
      var n := |xs| - 1;
      FlatMapFlatMap(g, f, both, xs[..n]);
      FlatMapConcat(g, FlatMap(f, xs[..n]), f(xs[n]));
    }
  }

  lemma {:induction false} FlatMapSame<S, T>(f: S -> seq<T>, g: S -> seq<T>, xs: seq<S>)
    requires forall x | x in xs :: f(x) == g(x)
    ensures FlatMap(f, xs) == FlatMap(g, xs)
  {
    if xs != [] {
      FlatMapSame(f, g, xs[..|xs| - 1]);
    }
  }

  lemma {:induction false} FlatMapMembers<S, T>(f: S -> seq<T>, xs: seq<S>)
    ensures forall y :: y in FlatMap(f, xs) <==> exists x :: x in xs && y in f(x)
  {
    if xs != [] {
      var n := |xs| - 1;
      FlatMapMembers(f, xs[..n]);
      assert xs == xs[..n] + [xs[n]];
      forall y ensures y in FlatMap(f, xs) <==> exists x :: x in xs && y in f(x) {
        if y in f(xs[n]) {
          assert xs[n] in xs;
        }
      }
    }
  }

  // ----- permutations -----

  lemma TwoPositions<T>(xs: seq<T>, i: nat, j: nat)
    requires i < j < |xs| && xs[i] == xs[j]
    ensures multiset(xs)[xs[i]] >= 2
  {
    assert xs == xs[..i] + [xs[i]] + xs[i + 1..j] + [xs[j]] + xs[j + 1..];
  }

  lemma {:induction false} TwiceMeansTwoPositions<T>(xs: seq<T>, x: T)
    requires multiset(xs)[x] >= 2
    ensures exists i, j :: 0 <= i < j < |xs| && xs[i] == x && xs[j] == x
  {
    var n := |xs| - 1;
    assert xs == xs[..n] + [xs[n]];
    if xs[n] == x {
      assert x in multiset(xs[..n]);
      var i :| 0 <= i < n && xs[..n][i] == x;
      assert xs[i] == x && xs[n] == x;
    } else {
      TwiceMeansTwoPositions(xs[..n], x);
      var i, j :| 0 <= i < j < n && xs[..n][i] == x && xs[..n][j] == x;
      assert xs[i] == x && xs[j] == x;
    }
  }

  function Without<T>(xs: seq<T>, k: nat): seq<T>
    requires k < |xs|
  {
    xs[..k] + xs[k + 1..]
  }

  lemma TakenOut<T>(xs: seq<T>, k: nat)
    requires k < |xs|
    ensures multiset(xs) == multiset(Without(xs, k)) + multiset{xs[k]}
  {
    assert xs == xs[..k] + [xs[k]] + xs[k + 1..];
  }

  lemma MapTakenOut<S, T>(f: S -> T, xs: seq<S>, k: nat)
    requires k < |xs|
    ensures multiset(Map(f, xs)) == multiset(Map(f, Without(xs, k))) + multiset{f(xs[k])}
  {
    TakenOut(Map(f, xs), k);
    assert Without(Map(f, xs), k) == Map(f, Without(xs, k));
  }

  lemma {:induction false} MapPermuted<S, T>(f: S -> T, xs: seq<S>, ys: seq<S>)
    requires multiset(xs) == multiset(ys)
    ensures multiset(Map(f, xs)) == multiset(Map(f, ys))
    decreases |xs|
  {
    assert |multiset(xs)| == |multiset(ys)|;
    if xs != [] {
      assert xs[0] in multiset(ys);
      var k :| 0 <= k < |ys| && ys[k] == xs[0];
      TakenOut(xs, 0);
      TakenOut(ys, k);
      SameRest(multiset(Without(xs, 0)), multiset(Without(ys, k)), xs[0]);
      MapPermuted(f, Without(xs, 0), Without(ys, k));
      MapTakenOut(f, xs, 0);
      MapTakenOut(f, ys, k);
    }
  }

  lemma SameRest<T>(a: multiset<T>, b: multiset<T>, x: T)
    requires a + multiset{x} == b + multiset{x}
    ensures a == b
  {
    assert a == (a + multiset{x}) - multiset{x};
  }

  // ----- stable sorting -----

  /** Inserts `x` after every element whose key is not larger. */
  function Insert<T>(x: T, xs: seq<T>, key: T -> int): seq<T> {
    if xs != [] && key(xs[|xs| - 1]) > key(x)
    then Insert(x, xs[..|xs| - 1], key) + [xs[|xs| - 1]]
    else xs + [x]
  }

  function Sort<T>(xs: seq<T>, key: T -> int): seq<T> {
    if xs == [] then [] else Insert(xs[|xs| - 1], Sort(xs[..|xs| - 1], key), key)
  }

  /** Orders by the first key, ties by the second, and so on; full ties keep their order. */
  function Arrange<T>(xs: seq<T>, keys: seq<T -> int>): seq<T> {
    if keys == [] then xs else Sort(Arrange(xs, keys[1..]), keys[0])
  }

  ghost predicate Ordered<T>(xs: seq<T>, key: T -> int) {
    forall i, j :: 0 <= i < j < |xs| ==> key(xs[i]) <= key(xs[j])
  }

  lemma {:induction false} InsertMembers<T>(x: T, xs: seq<T>, key: T -> int)
    ensures multiset(Insert(x, xs, key)) == multiset(xs) + multiset{x}
  {
    if xs != [] && key(xs[|xs| - 1]) > key(x) {
      InsertMembers(x, xs[..|xs| - 1], key);
      assert xs == xs[..|xs| - 1] + [xs[|xs| - 1]];
    }
  }

  lemma {:induction false} InsertKeepsOrder<T>(x: T, xs: seq<T>, key: T -> int)
    requires Ordered(xs, key)
    ensures Ordered(Insert(x, xs, key), key)
  {
    if xs != [] && key(xs[|xs| - 1]) > key(x) {
      var before, last := xs[..|xs| - 1], xs[|xs| - 1];
      var ys := Insert(x, before, key);
      InsertKeepsOrder(x, before, key);
      InsertMembers(x, before, key);
      forall i | 0 <= i < |ys| ensures key(ys[i]) <= key(last) {
        assert ys[i] in multiset(ys);
        assert ys[i] in before || ys[i] == x;
      }
    }
  }

  lemma {:induction false} SortMembers<T>(xs: seq<T>, key: T -> int)
    ensures multiset(Sort(xs, key)) == multiset(xs)
  {
    if xs != [] {
      SortMembers(xs[..|xs| - 1], key);
      InsertMembers(xs[|xs| - 1], Sort(xs[..|xs| - 1], key), key);
      assert xs == xs[..|xs| - 1] + [xs[|xs| - 1]];
    }
  }

  lemma {:induction false} SortOrders<T>(xs: seq<T>, key: T -> int)
    ensures Ordered(Sort(xs, key), key)
  {
    if xs != [] {
      SortOrders(xs[..|xs| - 1], key);
      InsertKeepsOrder(xs[|xs| - 1], Sort(xs[..|xs| - 1], key), key);
    }
  }

  lemma FilterLast<T>(xs: seq<T>, x: T, p: T -> bool)
    ensures Filter(xs + [x], p) == if p(x) then Filter(xs, p) + [x] else Filter(xs, p)
  {
    assert (xs + [x])[..|xs|] == xs;
  }

  lemma InsertLast<T>(x: T, xs: seq<T>, last: T, key: T -> int)
    requires key(last) > key(x)
    ensures Insert(x, xs + [last], key) == Insert(x, xs, key) + [last]
  {
    assert (xs + [last])[..|xs|] == xs;
  }

  lemma {:induction false} FilterInsert<T>(x: T, xs: seq<T>, key: T -> int, p: T -> bool)
    requires Ordered(xs, key)
    ensures Filter(Insert(x, xs, key), p) == if p(x) then Insert(x, Filter(xs, p), key) else Filter(xs, p)
  {
    if xs != [] && key(xs[|xs| - 1]) > key(x) {
      var before, last := xs[..|xs| - 1], xs[|xs| - 1];
      FilterInsert(x, before, key, p);
      FilterLast(Insert(x, before, key), last, p);
      InsertLast(x, Filter(before, p), last, key);
    } else {
      FilterLast(xs, x, p);
      InsertAtEnd(x, xs, key, p);
    }
  }

  lemma LastOfFilter<T>(xs: seq<T>, p: T -> bool)
    ensures Filter(xs, p) != [] ==> Filter(xs, p)[|Filter(xs, p)| - 1] in xs
  {
    FilterMembers(xs, p);
  }

  lemma InsertAtEnd<T>(x: T, xs: seq<T>, key: T -> int, p: T -> bool)
    requires Ordered(xs, key) && (xs != [] ==> key(xs[|xs| - 1]) <= key(x))
    ensures Insert(x, Filter(xs, p), key) == Filter(xs, p) + [x]
  {
    LastOfFilter(xs, p);
  }

  /** Restricting a stably sorted list is sorting the restriction. */
  lemma {:induction false} FilterSort<T>(xs: seq<T>, key: T -> int, p: T -> bool)
    ensures Filter(Sort(xs, key), p) == Sort(Filter(xs, p), key)
  {
    if xs != [] {
      var n := |xs| - 1;
      FilterSort(xs[..n], key, p);
      SortOrders(xs[..n], key);
      FilterInsert(xs[n], Sort(xs[..n], key), key, p);
      var rest := Filter(xs[..n], p);
      assert (rest + [xs[n]])[..|rest|] == rest;
    }
  }

  lemma {:induction false} FilterArrange<T>(xs: seq<T>, keys: seq<T -> int>, p: T -> bool)
    ensures Filter(Arrange(xs, keys), p) == Arrange(Filter(xs, p), keys)
  {
    if keys != [] {
      FilterArrange(xs, keys[1..], p);
      FilterSort(Arrange(xs, keys[1..]), keys[0], p);
    }
  }

  lemma {:induction false} ArrangeMembers<T>(xs: seq<T>, keys: seq<T -> int>)
    ensures multiset(Arrange(xs, keys)) == multiset(xs)
    ensures |Arrange(xs, keys)| == |xs|
  {
    if keys != [] {
      ArrangeMembers(xs, keys[1..]);
      SortMembers(Arrange(xs, keys[1..]), keys[0]);
    }
    assert |multiset(Arrange(xs, keys))| == |multiset(xs)|;
  }

  // ----- positions: what filtering and arranging do, without their definitions -----

  /** `ys` is made of the elements of `xs` at these distinct positions. */
  ghost predicate TakenFrom<T>(ys: seq<T>, xs: seq<T>, pos: seq<nat>) {
    && |pos| == |ys|
    && (forall i :: 0 <= i < |pos| ==> pos[i] < |xs| && ys[i] == xs[pos[i]])
    && forall i, j :: 0 <= i < j < |pos| ==> pos[i] != pos[j]
  }

  /** `a` comes before `b` by the first key in which they differ. */
  ghost predicate Before<T>(a: T, b: T, keys: seq<T -> int>) {
    exists m :: 0 <= m < |keys| && keys[m](a) < keys[m](b) && forall j :: 0 <= j < m ==> keys[j](a) == keys[j](b)
  }

  ghost predicate Tied<T>(a: T, b: T, keys: seq<T -> int>) {
    forall m :: 0 <= m < |keys| ==> keys[m](a) == keys[m](b)
  }

  /** `ys` lists its elements by the keys, ties in the order of their positions. */
  ghost predicate ByKeys<T>(ys: seq<T>, pos: seq<nat>, keys: seq<T -> int>) {
    |pos| == |ys| && forall i, j :: 0 <= i < j < |ys| ==> Before(ys[i], ys[j], keys) || (Tied(ys[i], ys[j], keys) && pos[i] < pos[j])
  }

  lemma {:induction false} FilterPositions<T>(xs: seq<T>, p: T -> bool) returns (pos: seq<nat>)
    ensures TakenFrom(Filter(xs, p), xs, pos)
    ensures forall i, j :: 0 <= i < j < |pos| ==> pos[i] < pos[j]
    ensures forall k :: 0 <= k < |xs| ==> (k in pos <==> p(xs[k]))
  {
    pos := [];
    if xs != [] {
      var n := |xs| - 1;
      var part, x := xs[..n], xs[n];
      assert xs == part + [x];
      var before := FilterPositions(part, p);
      FilterLast(part, x, p);
      TakenFromPart(Filter(part, p), xs, before, n);
      OneMoreTaken(Filter(part, p), xs, before, n);
      OneMoreKept(xs, p, before, n);
      pos := if p(x) then before + [n] else before;
    }
  }

  lemma TakenFromPart<T>(ys: seq<T>, xs: seq<T>, pos: seq<nat>, n: nat)
    requires n <= |xs| && TakenFrom(ys, xs[..n], pos)
    ensures forall i :: 0 <= i < |pos| ==> pos[i] < n && ys[i] == xs[pos[i]]
  {
  }

  lemma OneMoreKept<T>(xs: seq<T>, p: T -> bool, before: seq<nat>, n: nat)
    requires n < |xs| && forall i :: 0 <= i < |before| ==> before[i] < n
    requires forall k :: 0 <= k < n ==> (k in before <==> p(xs[..n][k]))
    ensures forall k :: 0 <= k < n ==> (k in before <==> p(xs[k])) && (k in before + [n] <==> p(xs[k]))
    ensures n !in before && n in before + [n]
  {
    assert forall k :: 0 <= k < n ==> xs[..n][k] == xs[k];
  }

  lemma OneMoreTaken<T>(kept: seq<T>, xs: seq<T>, before: seq<nat>, n: nat)
    requires n < |xs| && |before| == |kept| && forall i :: 0 <= i < |before| ==> before[i] < n && kept[i] == xs[before[i]]
    requires forall i, j :: 0 <= i < j < |before| ==> before[i] < before[j]
    ensures TakenFrom(kept, xs, before) && TakenFrom(kept + [xs[n]], xs, before + [n])
  {
  }

  /** Where an insertion puts its element. */
  lemma {:induction false} InsertAt<T>(x: T, xs: seq<T>, key: T -> int) returns (at: nat)
    requires Ordered(xs, key)
    ensures at <= |xs| && Insert(x, xs, key) == xs[..at] + [x] + xs[at..]
    ensures forall i :: 0 <= i < at ==> key(xs[i]) <= key(x)
    ensures forall i :: at <= i < |xs| ==> key(x) < key(xs[i])
  {
    var n := |xs| - 1;
    if xs != [] && key(xs[n]) > key(x) {
      at := InsertAt(x, xs[..n], key);
      assert xs[..n][..at] == xs[..at] && xs[..n][at..] + [xs[n]] == xs[at..];
      assert forall i :: 0 <= i < n ==> xs[..n][i] == xs[i];
    } else {
      at := |xs|;
    }
  }

  /** One key: larger keys come later, equal keys keep their positions' order. */
  ghost predicate ByKey<T>(ys: seq<T>, pos: seq<nat>, key: T -> int) {
    |pos| == |ys| && forall i, j :: 0 <= i < j < |ys| ==> key(ys[i]) < key(ys[j]) || (key(ys[i]) == key(ys[j]) && pos[i] < pos[j])
  }

  lemma {:induction false} SortPositions<T>(xs: seq<T>, key: T -> int) returns (pos: seq<nat>)
    ensures |pos| == |xs| && TakenFrom(Sort(xs, key), xs, pos)
    ensures ByKey(Sort(xs, key), pos, key)
    ensures forall k :: 0 <= k < |xs| ==> k in pos
  {
    pos := [];
    if xs != [] {
      var n := |xs| - 1;
      var before := SortPositions(xs[..n], key);
      var ys := Sort(xs[..n], key);
      SortOrders(xs[..n], key);
      var at := InsertAt(xs[n], ys, key);
      PositionsInserted(ys, xs, before, at, key);
      pos := before[..at] + [n] + before[at..];
      PlacesInserted(before, n, at);
    }
  }

  lemma PlacesInserted(before: seq<nat>, n: nat, at: nat)
    requires at <= |before| && forall k :: 0 <= k < n ==> k in before
    ensures forall k :: 0 <= k < n + 1 ==> k in before[..at] + [n] + before[at..]
  {
    var all := before[..at] + [n] + before[at..];
    forall k | 0 <= k < n + 1 ensures k in all {
      if k == n {
        assert all[at] == n;
      } else {
        assert k in before;
        var i :| 0 <= i < |before| && before[i] == k;
        assert all[if i < at then i else i + 1] == k;
      }
    }
  }

  lemma PositionsInserted<T>(ys: seq<T>, xs: seq<T>, before: seq<nat>, at: nat, key: T -> int)
    requires xs != [] && at <= |ys| && TakenFrom(ys, xs[..|xs| - 1], before) && ByKey(ys, before, key)
    requires forall i :: 0 <= i < at ==> key(ys[i]) <= key(xs[|xs| - 1])
    requires forall i :: at <= i < |ys| ==> key(xs[|xs| - 1]) < key(ys[i])
    ensures var n := |xs| - 1;
            var zs, pos := ys[..at] + [xs[n]] + ys[at..], before[..at] + [n] + before[at..];
            TakenFrom(zs, xs, pos) && ByKey(zs, pos, key)
  {
    var n := |xs| - 1;
    var zs, pos := ys[..at] + [xs[n]] + ys[at..], before[..at] + [n] + before[at..];
    assert forall i :: 0 <= i < |ys| ==> before[i] < n;
    Inserted(ys, xs[n], at);
    Inserted(before, n, at);
    InsertedByKey(ys, before, zs, pos, xs[n], n, at, key);
  }

  lemma Inserted<T>(ys: seq<T>, y: T, at: nat)
    requires at <= |ys|
    ensures var zs := ys[..at] + [y] + ys[at..];
            |zs| == |ys| + 1 && forall i :: 0 <= i < |zs| ==> zs[i] == if i < at then ys[i] else if i == at then y else ys[i - 1]
  {
  }

  lemma InsertedByKey<T>(ys: seq<T>, before: seq<nat>, zs: seq<T>, pos: seq<nat>, y: T, n: nat, at: nat, key: T -> int)
    requires at <= |ys| && ByKey(ys, before, key) && forall i :: 0 <= i < |ys| ==> before[i] < n
    requires |zs| == |pos| == |ys| + 1
    requires forall i :: 0 <= i < at ==> zs[i] == ys[i] && pos[i] == before[i]
    requires zs[at] == y && pos[at] == n
    requires forall i :: at < i < |zs| ==> zs[i] == ys[i - 1] && pos[i] == before[i - 1]
    requires forall i :: 0 <= i < at ==> key(ys[i]) <= key(y)
    requires forall i :: at <= i < |ys| ==> key(y) < key(ys[i])
    ensures ByKey(zs, pos, key)
  {
    forall i, j | 0 <= i < j < |zs| ensures key(zs[i]) < key(zs[j]) || (key(zs[i]) == key(zs[j]) && pos[i] < pos[j]) {
      if j == at {
        assert zs[i] == ys[i] && pos[i] == before[i];
      } else if i == at {
        assert zs[j] == ys[j - 1];
      } else if i < at < j {
        assert zs[i] == ys[i] && zs[j] == ys[j - 1];
      } else if j < at {
        assert zs[i] == ys[i] && zs[j] == ys[j];
      } else {
        assert zs[i] == ys[i - 1] && zs[j] == ys[j - 1];
      }
    }
  }

  /** Positions taken twice over. */
  lemma TakenThrough<T>(zs: seq<T>, ys: seq<T>, xs: seq<T>, second: seq<nat>, first: seq<nat>) returns (pos: seq<nat>)
    requires TakenFrom(zs, ys, second) && TakenFrom(ys, xs, first)
    ensures TakenFrom(zs, xs, pos) && |pos| == |second| && forall i :: 0 <= i < |pos| ==> pos[i] == first[second[i]]
  {
    pos := seq(|second|, i requires 0 <= i < |second| => first[second[i]]);
  }

  /** Arranging lists all elements by the keys, the first key first, and keeps ties in order. */
  lemma {:induction false} ArrangePositions<T>(xs: seq<T>, keys: seq<T -> int>) returns (pos: seq<nat>)
    ensures |pos| == |xs| && TakenFrom(Arrange(xs, keys), xs, pos)
    ensures ByKeys(Arrange(xs, keys), pos, keys)
    ensures forall k :: 0 <= k < |xs| ==> k in pos
  {
    if keys == [] {
      pos := seq(|xs|, i => i);
      forall k | 0 <= k < |xs| ensures k in pos {
        assert pos[k] == k;
      }
    } else {
      var ys := Arrange(xs, keys[1..]);
      var first := ArrangePositions(xs, keys[1..]);
      var second := SortPositions(ys, keys[0]);
      pos := TakenThrough(Sort(ys, keys[0]), ys, xs, second, first);
      KeysExtended(Sort(ys, keys[0]), ys, second, first, pos, keys);
      ThroughAll(second, first, pos);
    }
  }

  /** Taking all positions of a selection takes the selection. */
  lemma ThroughAll(second: seq<nat>, first: seq<nat>, pos: seq<nat>)
    requires |pos| == |second| && forall i :: 0 <= i < |second| ==> second[i] < |first| && pos[i] == first[second[i]]
    requires forall k :: 0 <= k < |first| ==> k in second
    ensures forall k :: k in pos <==> k in first
  {
    forall k | k in first ensures k in pos {
      var i :| 0 <= i < |first| && first[i] == k;
      assert i in second;
      var j :| 0 <= j < |second| && second[j] == i;
      assert pos[j] == k;
    }
  }

  lemma KeysExtended<T>(zs: seq<T>, ys: seq<T>, second: seq<nat>, first: seq<nat>, pos: seq<nat>, keys: seq<T -> int>)
    requires keys != [] && TakenFrom(zs, ys, second) && ByKey(zs, second, keys[0])
    requires |first| == |ys| && ByKeys(ys, first, keys[1..])
    requires |pos| == |zs| && forall i :: 0 <= i < |pos| ==> pos[i] == first[second[i]]
    ensures ByKeys(zs, pos, keys)
  {
    forall i, j | 0 <= i < j < |zs|
      ensures Before(zs[i], zs[j], keys) || (Tied(zs[i], zs[j], keys) && pos[i] < pos[j])
    {
      if keys[0](zs[i]) < keys[0](zs[j]) {
        assert Before(zs[i], zs[j], keys);
      } else {
        MoreKeys(zs[i], zs[j], keys);
        assert zs[i] == ys[second[i]] && zs[j] == ys[second[j]];
      }
    }
  }

  lemma MoreKeys<T>(a: T, b: T, keys: seq<T -> int>)
    requires keys != [] && keys[0](a) == keys[0](b)
    ensures Before(a, b, keys[1..]) ==> Before(a, b, keys)
    ensures Tied(a, b, keys[1..]) ==> Tied(a, b, keys)
  {
    var rest := keys[1..];
    assert forall m :: 1 <= m < |keys| ==> keys[m] == rest[m - 1];
    if m :| 0 <= m < |rest| && rest[m](a) < rest[m](b) && forall j :: 0 <= j < m ==> rest[j](a) == rest[j](b) {
      assert keys[m + 1](a) < keys[m + 1](b);
      assert forall j :: 0 <= j < m + 1 ==> keys[j](a) == keys[j](b);
    }
  }
}
