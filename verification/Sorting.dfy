/** Stable sorting by an integer key, as the library sorts of the source do it. */
module Sorting {

  /** Puts `x` behind every element whose key is not larger. */
  function Insert<T>(x: T, s: seq<T>, key: T -> int): seq<T> {
    if s == [] then [x]
    else if key(s[|s| - 1]) <= key(x) then s + [x]
    else Insert(x, s[..|s| - 1], key) + [s[|s| - 1]]
  }

  function SortBy<T>(s: seq<T>, key: T -> int): seq<T> {
    if s == [] then [] else Insert(s[|s| - 1], SortBy(s[..|s| - 1], key), key)
  }

  ghost predicate Sorted<T>(s: seq<T>, key: T -> int) {
    forall i, j :: 0 <= i < j < |s| ==> key(s[i]) <= key(s[j])
  }

  /** The elements with key `k`, in order. */
  ghost function WithKey<T>(s: seq<T>, key: T -> int, k: int): seq<T> {
    if s == [] then []
    else WithKey(s[..|s| - 1], key, k) + if key(s[|s| - 1]) == k then [s[|s| - 1]] else []
  }

  /** `t` holds the elements of `s` in the order of their keys, equal keys in the order of `s`. */
  ghost predicate StableSortOf<T(!new)>(s: seq<T>, t: seq<T>, key: T -> int) {
    Sorted(t, key) && forall k :: WithKey(t, key, k) == WithKey(s, key, k)
  }

  lemma {:induction false} InsertContents<T>(x: T, s: seq<T>, key: T -> int)
    ensures multiset(Insert(x, s, key)) == multiset(s) + multiset{x}
    ensures |Insert(x, s, key)| == |s| + 1
  {
    if s != [] && key(s[|s| - 1]) > key(x) {
      assert s == s[..|s| - 1] + [s[|s| - 1]];
      InsertContents(x, s[..|s| - 1], key);
    }
  }

  lemma {:induction false} InsertSorted<T>(x: T, s: seq<T>, key: T -> int)
    requires Sorted(s, key)
    ensures Sorted(Insert(x, s, key), key)
  {
    if s != [] && key(s[|s| - 1]) > key(x) {
      InsertSorted(x, s[..|s| - 1], key);
      InsertedBelow(x, s[..|s| - 1], key, key(s[|s| - 1]));
    }
  }

  lemma {:induction false} InsertedBelow<T>(x: T, s: seq<T>, key: T -> int, bound: int)
    requires key(x) <= bound && forall i :: 0 <= i < |s| ==> key(s[i]) <= bound
    ensures forall i :: 0 <= i < |Insert(x, s, key)| ==> key(Insert(x, s, key)[i]) <= bound
  {
    if s != [] && key(s[|s| - 1]) > key(x) {
      InsertedBelow(x, s[..|s| - 1], key, bound);
    }
  }

  lemma {:induction false} InsertKeys<T>(x: T, s: seq<T>, key: T -> int, k: int)
    ensures WithKey(Insert(x, s, key), key, k) == WithKey(s, key, k) + if key(x) == k then [x] else []
  {
    if s == [] {
    } else if key(s[|s| - 1]) <= key(x) {
      assert (s + [x])[..|s|] == s;
    } else {
      var front, last := s[..|s| - 1], s[|s| - 1];
      InsertKeys(x, front, key, k);
      assert Insert(x, s, key)[..|Insert(x, front, key)|] == Insert(x, front, key);
    }
  }

  lemma {:induction false} SortContents<T>(s: seq<T>, key: T -> int)
    ensures multiset(SortBy(s, key)) == multiset(s)
    ensures Sorted(SortBy(s, key), key)
    ensures |SortBy(s, key)| == |s|
  {
    if s != [] {
      var front, last := s[..|s| - 1], s[|s| - 1];
      assert s == front + [last];
      SortContents(front, key);
      InsertContents(last, SortBy(front, key), key);
      InsertSorted(last, SortBy(front, key), key);
    }
  }

  lemma {:induction false} SortKeys<T>(s: seq<T>, key: T -> int, k: int)
    ensures WithKey(SortBy(s, key), key, k) == WithKey(s, key, k)
  {
    if s != [] {
      var front, last := s[..|s| - 1], s[|s| - 1];
      SortKeys(front, key, k);
      InsertKeys(last, SortBy(front, key), key, k);
    }
  }

  /** SortBy is a stable sort. */
  lemma SortIsStable<T(!new)>(s: seq<T>, key: T -> int)
    ensures StableSortOf(s, SortBy(s, key), key)
  {
    SortContents(s, key);
    forall k
      ensures WithKey(SortBy(s, key), key, k) == WithKey(s, key, k)
    {
      SortKeys(s, key, k);
    }
  }

  lemma {:induction false} WithKeyOf<T>(s: seq<T>, key: T -> int, i: nat)
    requires i < |s|
    ensures s[i] in WithKey(s, key, key(s[i]))
  {
    if i < |s| - 1 {
      WithKeyOf(s[..|s| - 1], key, i);
    }
  }

  lemma {:induction false} KeyOf<T>(s: seq<T>, key: T -> int, k: int, x: T)
    requires x in WithKey(s, key, k)
    ensures x in s && key(x) == k
  {
    if s != [] && x in WithKey(s[..|s| - 1], key, k) {
      KeyOf(s[..|s| - 1], key, k, x);
    }
  }

  /** There is only one stable order. */
  lemma {:induction false} StableSortIsUnique<T(!new)>(a: seq<T>, b: seq<T>, key: T -> int)
    requires Sorted(a, key) && Sorted(b, key) && forall k :: WithKey(a, key, k) == WithKey(b, key, k)
    ensures a == b
  {
    hide WithKey, Sorted;
    if b != [] {
      LastWithKey(b, key);
      NoneWithKey(a, key, key(b[|b| - 1]));
    }
    if a != [] {
      SameLast(a, b, key);
      var a', b' := a[..|a| - 1], b[..|b| - 1];
      forall k
        ensures WithKey(a', key, k) == WithKey(b', key, k)
      {
        WithoutLast(a, key, k);
        WithoutLast(b, key, k);
      }
      SortedPrefix(a, key);
      SortedPrefix(b, key);
      StableSortIsUnique(a', b', key);
      assert a == a' + [a[|a| - 1]];
      assert b == b' + [b[|b| - 1]];
    }
  }

  lemma NoneWithKey<T>(s: seq<T>, key: T -> int, k: int)
    ensures s == [] ==> WithKey(s, key, k) == []
  {
  }

  lemma SortedPrefix<T>(s: seq<T>, key: T -> int)
    requires s != [] && Sorted(s, key)
    ensures Sorted(s[..|s| - 1], key)
  {
  }

  lemma WithoutLast<T>(s: seq<T>, key: T -> int, k: int)
    requires s != []
    ensures
      var all, drop := WithKey(s, key, k), if key(s[|s| - 1]) == k then 1 else 0;
      |all| >= drop && WithKey(s[..|s| - 1], key, k) == all[..|all| - drop]
  {
  }

  /** So whatever stable sort a library runs, its result is SortBy. */
  lemma LibrarySort<T(!new)>(s: seq<T>, t: seq<T>, key: T -> int)
    requires StableSortOf(s, t, key)
    ensures t == SortBy(s, key)
  {
    SortIsStable(s, key);
    StableSortIsUnique(t, SortBy(s, key), key);
  }

  lemma SameLast<T(!new)>(a: seq<T>, b: seq<T>, key: T -> int)
    requires Sorted(a, key) && Sorted(b, key) && a != []
    requires forall k :: WithKey(a, key, k) == WithKey(b, key, k)
    ensures b != [] && a[|a| - 1] == b[|b| - 1]
  {
    hide WithKey, Sorted;
    var x := a[|a| - 1];
    WithKeyOf(a, key, |a| - 1);
    KeyOf(b, key, key(x), x);
    var y := b[|b| - 1];
    WithKeyOf(b, key, |b| - 1);
    KeyOf(a, key, key(y), y);
    LastIsLargest(a, key, y);
    LastIsLargest(b, key, x);
    LastWithKey(a, key);
    LastWithKey(b, key);
  }

  lemma LastIsLargest<T>(s: seq<T>, key: T -> int, x: T)
    requires Sorted(s, key) && x in s
    ensures key(x) <= key(s[|s| - 1])
  {
    var i :| 0 <= i < |s| && s[i] == x;
  }

  lemma LastWithKey<T>(s: seq<T>, key: T -> int)
    requires s != []
    ensures
      var w := WithKey(s, key, key(s[|s| - 1]));
      w != [] && w[|w| - 1] == s[|s| - 1]
  {
  }

  ghost predicate DistinctKeys<T>(s: seq<T>, key: T -> int) {
    forall i, j :: 0 <= i < j < |s| ==> key(s[i]) != key(s[j])
  }

  /** With distinct keys, the sorted order does not depend on the order of the input. */
  lemma {:induction false} SortedOrderIsUnique<T>(a: seq<T>, b: seq<T>, key: T -> int)
    requires Sorted(a, key) && Sorted(b, key) && DistinctKeys(a, key) && multiset(a) == multiset(b)
    ensures a == b
  {
    hide Sorted, DistinctKeys;
    if a == [] {
      assert |b| == |multiset(b)| == 0;
    } else {
      SameLastDistinct(a, b, key);
      DropLast(a, key);
      DropLast(b, key);
      SortedOrderIsUnique(a[..|a| - 1], b[..|b| - 1], key);
    }
  }

  lemma DropLast<T>(s: seq<T>, key: T -> int)
    requires s != []
    ensures
      var front, x := s[..|s| - 1], s[|s| - 1];
      && s == front + [x] && multiset(front) == multiset(s) - multiset{x}
      && (Sorted(s, key) ==> Sorted(front, key)) && (DistinctKeys(s, key) ==> DistinctKeys(front, key))
  {
    assert s == s[..|s| - 1] + [s[|s| - 1]];
  }

  lemma SameLastDistinct<T>(a: seq<T>, b: seq<T>, key: T -> int)
    requires Sorted(a, key) && Sorted(b, key) && DistinctKeys(a, key) && multiset(a) == multiset(b) && a != []
    ensures b != [] && a[|a| - 1] == b[|b| - 1]
  {
    hide Sorted;
    var x := a[|a| - 1];
    assert x in multiset(b);
    var y := b[|b| - 1];
    assert y in multiset(a);
    LastIsLargest(b, key, x);
    LastIsLargest(a, key, y);
    var i :| 0 <= i < |a| && a[i] == y;
  }

  // ----- the order in which a sort serves its input -----

  function Range(n: nat): seq<nat> {
    seq(n, k requires 0 <= k < n => k)
  }

  /** The elements of `s` at these places. */
  function Pick<T>(s: seq<T>, places: seq<nat>): seq<T>
    requires forall i :: 0 <= i < |places| ==> places[i] < |s|
  {
    seq(|places|, i requires 0 <= i < |places| => s[places[i]])
  }

  ghost predicate Within(places: seq<nat>, n: nat) {
    forall i :: 0 <= i < |places| ==> places[i] < n
  }

  /** Smaller keys come first, and of equal keys the one that stood earlier. */
  ghost predicate Before(key: nat -> int, a: nat, b: nat) {
    key(a) < key(b) || (key(a) == key(b) && a < b)
  }

  ghost predicate Stable(places: seq<nat>, key: nat -> int) {
    forall i, j :: 0 <= i < j < |places| ==> Before(key, places[i], places[j])
  }

  lemma InsertWithin(at: nat -> int, x: nat, u: seq<nat>)
    requires Within(u, x)
    ensures Within(Insert<nat>(x, u, at), x + 1)
  {
    hide Insert;
    InsertContents<nat>(x, u, at);
    var w := Insert<nat>(x, u, at);
    forall i | 0 <= i < |w|
      ensures w[i] < x + 1
    {
      assert w[i] in multiset(w);
      if w[i] != x {
        assert w[i] in multiset(u);
      }
    }
  }

  lemma AppendStable(at: nat -> int, u: seq<nat>, x: nat)
    requires Stable(u, at) && forall i :: 0 <= i < |u| ==> Before(at, u[i], x)
    ensures Stable(u + [x], at)
  {
    hide Before;
  }

  lemma {:induction false} InsertStable(at: nat -> int, x: nat, u: seq<nat>)
    requires Within(u, x) && Stable(u, at)
    ensures Stable(Insert<nat>(x, u, at), at)
  {
    if u == [] {
    } else if at(u[|u| - 1]) <= at(x) {
      forall i | 0 <= i < |u|
        ensures Before(at, u[i], x)
      {
        assert i < |u| - 1 ==> Before(at, u[i], u[|u| - 1]);
      }
      AppendStable(at, u, x);
    } else {
      hide Stable, Before;
      var front, last := u[..|u| - 1], u[|u| - 1];
      assert u == front + [last];
      StablePrefix(at, u);
      InsertStable(at, x, front);
      LaterIsLarger(at, x, front, last);
      AppendStable(at, Insert<nat>(x, front, at), last);
    }
  }

  lemma StablePrefix(at: nat -> int, u: seq<nat>)
    requires Stable(u, at) && u != []
    ensures Stable(u[..|u| - 1], at)
  {
  }

  /** Everything but the new place stays in front of `last` as it was; the new one has a smaller key. */
  lemma LaterIsLarger(at: nat -> int, x: nat, front: seq<nat>, last: nat)
    requires Stable(front + [last], at) && at(x) < at(last)
    ensures
      var w := Insert<nat>(x, front, at);
      forall i :: 0 <= i < |w| ==> Before(at, w[i], last)
  {
    hide Insert;
    InsertContents<nat>(x, front, at);
    var w := Insert<nat>(x, front, at);
    forall i | 0 <= i < |w|
      ensures Before(at, w[i], last)
    {
      assert w[i] in multiset(w);
      if w[i] != x {
        assert w[i] in multiset(front);
        var k :| 0 <= k < |front| && front[k] == w[i];
        assert (front + [last])[k] == w[i] && (front + [last])[|front|] == last;
      }
    }
  }

  lemma {:induction false} InsertPicks<T>(s: seq<T>, key: T -> int, at: nat -> int, x: nat, u: seq<nat>)
    requires x < |s| && Within(u, x) && forall k :: 0 <= k < |s| ==> at(k) == key(s[k])
    ensures Within(Insert<nat>(x, u, at), |s|)
    ensures Insert(s[x], Pick(s, u), key) == Pick(s, Insert<nat>(x, u, at))
  {
    InsertWithin(at, x, u);
    if u != [] {
      var front, last := u[..|u| - 1], u[|u| - 1];
      assert Pick(s, u)[..|u| - 1] == Pick(s, front);
      if at(last) > at(x) {
        InsertPicks(s, key, at, x, front);
      }
    }
  }

  lemma {:induction false} SortPlaces<T>(s: seq<T>, key: T -> int, at: nat -> int, n: nat)
    requires n <= |s| && forall k :: 0 <= k < |s| ==> at(k) == key(s[k])
    ensures Within(SortBy<nat>(Range(n), at), n) && Stable(SortBy<nat>(Range(n), at), at)
    ensures SortBy(s[..n], key) == Pick(s, SortBy<nat>(Range(n), at))
  {
    hide Insert, Stable;
    if n == 0 {
      NothingStable(at);
    } else {
      SortPlaces(s, key, at, n - 1);
      assert Range(n)[..n - 1] == Range(n - 1) && s[..n][..n - 1] == s[..n - 1];
      var u := SortBy<nat>(Range(n - 1), at);
      InsertWithin(at, n - 1, u);
      InsertStable(at, n - 1, u);
      InsertPicks(s, key, at, n - 1, u);
    }
  }

  lemma NothingStable(at: nat -> int)
    ensures Stable([], at)
  {
  }

  function KeyAt<T>(s: seq<T>, key: T -> int): nat -> int {
    (k: nat) => if k < |s| then key(s[k]) else 0
  }

  /** The places of the input in the order of the sort: each once, in stable order. */
  lemma SortOrder<T>(s: seq<T>, key: T -> int) returns (places: seq<nat>)
    ensures |places| == |s| && multiset(places) == multiset(Range(|s|)) && Within(places, |s|)
    ensures SortBy(s, key) == Pick(s, places) && Stable(places, KeyAt(s, key))
  {
    places := SortBy(Range(|s|), KeyAt(s, key));
    SortPlaces(s, key, KeyAt(s, key), |s|);
    SortContents(Range(|s|), KeyAt(s, key));
    assert s[..|s|] == s;
  }

  // ----- sums do not depend on the order -----

  function SumOf<T>(s: seq<T>, f: T -> int): int {
    if s == [] then 0 else SumOf(s[..|s| - 1], f) + f(s[|s| - 1])
  }

  lemma {:induction false} SumOfParts<T>(s: seq<T>, t: seq<T>, f: T -> int)
    ensures SumOf(s + t, f) == SumOf(s, f) + SumOf(t, f)
  {
    if t == [] {
      assert s + t == s;
    } else {
      assert (s + t)[..|s + t| - 1] == s + t[..|t| - 1];
      SumOfParts(s, t[..|t| - 1], f);
    }
  }

  lemma {:induction false} SumOfPermuted<T>(s: seq<T>, t: seq<T>, f: T -> int)
    requires multiset(s) == multiset(t)
    ensures SumOf(s, f) == SumOf(t, f)
    decreases |s|
  {
    if s == [] {
      assert |multiset(t)| == 0;
    } else {
      var x := s[|s| - 1];
      assert s == s[..|s| - 1] + [x];
      assert x in multiset(t);
      var i :| 0 <= i < |t| && t[i] == x;
      assert t == t[..i] + [x] + t[i + 1..];
      assert multiset(s[..|s| - 1]) == multiset(s) - multiset{x};
      assert multiset(t[..i] + t[i + 1..]) == multiset(t) - multiset{x};
      SumOfPermuted(s[..|s| - 1], t[..i] + t[i + 1..], f);
      SumOfParts(t[..i], t[i + 1..], f);
      SumOfParts(t[..i] + [x], t[i + 1..], f);
    }
  }
}
