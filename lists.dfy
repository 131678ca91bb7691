/** The array operations the store and the views are built from:
    `findIndex` by id, replace-at-index, `filter`, `slice(0, n)` and
    the comparator `sort` (stable, as JavaScript's is). */
module Lists {

  /** `findIndex(x => key(x) === id)`: the first position holding `id`, or -1. */
  function IndexOf<T>(s: seq<T>, key: T -> string, id: string): (r: int)
    ensures -1 <= r < |s|
    ensures r == -1 <==> forall i :: 0 <= i < |s| ==> key(s[i]) != id
    ensures 0 <= r ==> key(s[r]) == id && forall i :: 0 <= i < r ==> key(s[i]) != id
    decreases |s|
  {
    if s == [] then -1
    else if key(s[0]) == id then 0
    else
      var r := IndexOf(s[1..], key, id);
      if r == -1 then -1 else r + 1
  }

  /** The scan behind `findIndex`. */
  method FindIndex<T>(s: seq<T>, key: T -> string, id: string) returns (r: int)
    ensures -1 <= r < |s|
    ensures r == -1 ==> forall i :: 0 <= i < |s| ==> key(s[i]) != id
    ensures 0 <= r ==> key(s[r]) == id && forall i :: 0 <= i < r ==> key(s[i]) != id
    ensures r == IndexOf(s, key, id)
  {
    r := 0;
    while r < |s| && key(s[r]) != id
      invariant 0 <= r <= |s|
      invariant forall i :: 0 <= i < r ==> key(s[i]) != id
    {
      r := r + 1;
    }
    if r == |s| {
      r := -1;
    }
  }

  /** Searching a list extended at the end finds the old match first. */
  lemma IndexOfAppend<T>(s: seq<T>, x: T, key: T -> string, id: string)
    ensures IndexOf(s + [x], key, id) ==
      if IndexOf(s, key, id) >= 0 then IndexOf(s, key, id) else if key(x) == id then |s| else -1
  {
    var r := IndexOf(s + [x], key, id);
    if IndexOf(s, key, id) >= 0 {
      assert (s + [x])[IndexOf(s, key, id)] == s[IndexOf(s, key, id)];
    } else if key(x) == id {
      assert (s + [x])[|s|] == x;
    }
  }

  /** Replace-or-push by id (`list[index] = x` when found, `push(x)` otherwise). */
  function Upsert<T>(s: seq<T>, key: T -> string, x: T): (r: seq<T>)
    ensures IndexOf(s, key, key(x)) >= 0 ==> |r| == |s| && r[IndexOf(s, key, key(x))] == x
    ensures IndexOf(s, key, key(x)) == -1 ==> |r| == |s| + 1 && r[|s|] == x
    ensures forall j :: 0 <= j < |s| && j != IndexOf(s, key, key(x)) ==> r[j] == s[j]
  {
    var i := IndexOf(s, key, key(x));
    if i == -1 then s + [x] else s[i := x]
  }

  /** Update the first entry holding `id` with `f`; nothing changes when `id` is absent. */
  function UpdateFirst<T>(s: seq<T>, key: T -> string, id: string, f: T -> T): (r: seq<T>)
    ensures |r| == |s|
    ensures IndexOf(s, key, id) == -1 ==> r == s
    ensures IndexOf(s, key, id) >= 0 ==> r[IndexOf(s, key, id)] == f(s[IndexOf(s, key, id)])
    ensures forall j :: 0 <= j < |s| && j != IndexOf(s, key, id) ==> r[j] == s[j]
  {
    var i := IndexOf(s, key, id);
    if i == -1 then s else s[i := f(s[i])]
  }

  /** Entries whose key differs from `id` are never touched by an upsert of `x`. */
  lemma UpsertOthers<T>(s: seq<T>, key: T -> string, x: T, j: int)
    requires 0 <= j < |s| && key(s[j]) != key(x)
    ensures Upsert(s, key, x)[j] == s[j]
  {
  }

  /** `filter(p)`. */
  function Filter<T(!new)>(s: seq<T>, p: T -> bool): (r: seq<T>)
    ensures |r| <= |s|
    ensures forall x :: x in r <==> x in s && p(x)
  {
    if s == [] then []
    else if p(s[0]) then [s[0]] + Filter(s[1..], p)
    else Filter(s[1..], p)
  }

  lemma {:induction false} FilterAppend<T(!new)>(a: seq<T>, b: seq<T>, p: T -> bool)
    ensures Filter(a + b, p) == Filter(a, p) + Filter(b, p)
  {
    if a == [] {
      assert a + b == b;
    } else {
      assert (a + b)[1..] == a[1..] + b;
      FilterAppend(a[1..], b, p);
    }
  }

  /** No two entries share a key. */
  ghost predicate DistinctKeys<T>(s: seq<T>, key: T -> string) {
    forall i, j :: 0 <= i < j < |s| ==> key(s[i]) != key(s[j])
  }

  lemma {:induction false} FilterDistinct<T(!new)>(s: seq<T>, key: T -> string, p: T -> bool)
    requires DistinctKeys(s, key)
    ensures DistinctKeys(Filter(s, p), key)
  {
    if s != [] {
      assert DistinctKeys(s[1..], key) by {
        forall i, j | 0 <= i < j < |s[1..]| ensures key(s[1..][i]) != key(s[1..][j]) {
          assert s[1..][i] == s[i + 1] && s[1..][j] == s[j + 1];
        }
      }
      FilterDistinct(s[1..], key, p);
      var rest := Filter(s[1..], p);
      if p(s[0]) {
        forall x | x in rest ensures key(x) != key(s[0]) {
          var k :| 0 <= k < |s[1..]| && s[1..][k] == x;
          assert s[k + 1] == x;
        }
        var r := [s[0]] + rest;
        forall i, j | 0 <= i < j < |r| ensures key(r[i]) != key(r[j]) {
          assert r[j] == rest[j - 1] && r[j] in rest;
          if i > 0 {
            assert r[i] == rest[i - 1];
          }
        }
      }
    }
  }

  /** A filter every element passes keeps the list as it is. */
  lemma {:induction false} FilterAll<T(!new)>(s: seq<T>, p: T -> bool)
    requires forall x :: x in s ==> p(x)
    ensures Filter(s, p) == s
  {
    if s != [] {
      FilterAll(s[1..], p);
      assert s == [s[0]] + s[1..];
    }
  }

  /** `filter(p).length`. */
  function Count<T(!new)>(s: seq<T>, p: T -> bool): (n: nat)
    ensures n <= |s|
  {
    |Filter(s, p)|
  }

  lemma {:induction false} CountAppend<T(!new)>(a: seq<T>, b: seq<T>, p: T -> bool)
    ensures Count(a + b, p) == Count(a, p) + Count(b, p)
  {
    FilterAppend(a, b, p);
  }

  lemma FilterSingle<T(!new)>(x: T, p: T -> bool)
    ensures Filter([x], p) == if p(x) then [x] else []
  {
    assert [x][1..] == [];
  }

  lemma CountSingle<T(!new)>(x: T, p: T -> bool)
    ensures Count([x], p) == if p(x) then 1 else 0
  {
    FilterSingle(x, p);
  }

  /** Nothing passes, nothing is counted. */
  lemma {:induction false} CountNone<T(!new)>(s: seq<T>, p: T -> bool)
    requires forall i :: 0 <= i < |s| ==> !p(s[i])
    ensures Count(s, p) == 0
  {
    if s != [] {
      CountNone(s[1..], p);
    }
  }

  /** A filter and the filter of its negation split a list between them. */
  lemma {:induction false} CountComplement<T(!new)>(s: seq<T>, p: T -> bool, q: T -> bool)
    requires forall x :: q(x) == !p(x)
    ensures Count(s, p) + Count(s, q) == |s|
  {
    if s != [] {
      CountComplement(s[1..], p, q);
    }
  }

  /** `slice(0, n)`. */
  function Take<T>(s: seq<T>, n: nat): (r: seq<T>)
    ensures |r| == if |s| < n then |s| else n
    ensures r <= s
  {
    if |s| < n then s else s[..n]
  }

  ghost predicate SortedBy<T>(s: seq<T>, key: T -> int) {
    forall i, j :: 0 <= i < j < |s| ==> key(s[i]) <= key(s[j])
  }

  function Insert<T>(x: T, s: seq<T>, key: T -> int): (r: seq<T>)
    ensures |r| == |s| + 1
    ensures multiset(r) == multiset(s) + multiset{x}
  {
    if s == [] then [x]
    else if key(x) <= key(s[0]) then [x] + s
    else
      assert s == [s[0]] + s[1..];
      [s[0]] + Insert(x, s[1..], key)
  }

  /** Neighbours are in order. */
  ghost predicate Chained<T>(s: seq<T>, key: T -> int) {
    forall i :: 0 < i < |s| ==> key(s[i - 1]) <= key(s[i])
  }

  lemma {:induction false} ChainedSorted<T>(s: seq<T>, key: T -> int)
    requires Chained(s, key)
    ensures SortedBy(s, key)
  {
    if s != [] {
      ChainedSorted(s[1..], key);
      forall i, j | 0 <= i < j < |s| ensures key(s[i]) <= key(s[j]) {
        if i == 0 && j > 1 {
          assert key(s[1]) <= key(s[j]) by { assert s[1..][0] == s[1] && s[1..][j - 1] == s[j]; }
        } else if i > 0 {
          assert s[1..][i - 1] == s[i] && s[1..][j - 1] == s[j];
        }
      }
    }
  }

  lemma ChainedTail<T>(s: seq<T>, key: T -> int)
    requires s != [] && Chained(s, key)
    ensures Chained(s[1..], key)
  {
    var tail := s[1..];
    forall i | 0 < i < |tail| ensures key(tail[i - 1]) <= key(tail[i]) {
      assert tail[i - 1] == s[i] && tail[i] == s[i + 1];
    }
  }

  lemma ChainedCons<T>(h: T, t: seq<T>, key: T -> int)
    requires Chained(t, key) && (t != [] ==> key(h) <= key(t[0]))
    ensures Chained([h] + t, key)
  {
    var r := [h] + t;
    forall i | 0 < i < |r| ensures key(r[i - 1]) <= key(r[i]) {
      if i > 1 {
        assert r[i - 1] == t[i - 2] && r[i] == t[i - 1];
      }
    }
  }

  lemma {:induction false} InsertChained<T>(x: T, s: seq<T>, key: T -> int)
    requires Chained(s, key)
    ensures Chained(Insert(x, s, key), key)
    ensures Insert(x, s, key)[0] == if s == [] || key(x) <= key(s[0]) then x else s[0]
  {
    if s != [] && key(x) > key(s[0]) {
      var tail := s[1..];
      ChainedTail(s, key);
      InsertChained(x, tail, key);
      var t := Insert(x, tail, key);
      assert key(s[0]) <= key(t[0]);
      ChainedCons(s[0], t, key);
    } else {
      ChainedCons(x, s, key);
    }
  }

  /** `sort((a, b) => key(a) - key(b))`: an insertion sort that places an element
      before the equal keys that follow it, so equal keys keep their order. */
  function SortBy<T>(s: seq<T>, key: T -> int): (r: seq<T>)
    ensures |r| == |s|
    ensures multiset(r) == multiset(s)
    ensures SortedBy(r, key) && Chained(r, key)
  {
    if s == [] then []
    else
      assert s == [s[0]] + s[1..];
      var t := SortBy(s[1..], key);
      InsertChained(s[0], t, key);
      ChainedSorted(Insert(s[0], t, key), key);
      Insert(s[0], t, key)
  }

  /** The entries whose key is `v`. */
  function KeyIs<T>(key: T -> int, v: int): T -> bool {
    (x: T) => key(x) == v
  }

  /** Inserting passes over smaller keys only, so among equal keys the inserted
      element comes first. */
  lemma {:induction false} InsertFilter<T(!new)>(x: T, s: seq<T>, key: T -> int, v: int)
    ensures Filter(Insert(x, s, key), KeyIs(key, v))
      == (if key(x) == v then [x] else []) + Filter(s, KeyIs(key, v))
  {
    var p := KeyIs(key, v);
    if s == [] {
      assert Insert(x, s, key) == [x] + s;
    } else if key(x) <= key(s[0]) {
      assert ([x] + s)[1..] == s;
    } else {
      var t := Insert(x, s[1..], key);
      assert ([s[0]] + t)[1..] == t;
      InsertFilter(x, s[1..], key, v);
    }
  }

  /** Equal keys keep their order: the sort is stable. */
  lemma {:induction false} SortByStable<T(!new)>(s: seq<T>, key: T -> int, v: int)
    ensures Filter(SortBy(s, key), KeyIs(key, v)) == Filter(s, KeyIs(key, v))
  {
    if s != [] {
      SortByStable(s[1..], key, v);
      InsertFilter(s[0], SortBy(s[1..], key), key, v);
    }
  }

  lemma SortByMembers<T>(s: seq<T>, key: T -> int, x: T)
    ensures x in SortBy(s, key) <==> x in s
  {
    var r := SortBy(s, key);
    assert x in r <==> x in multiset(r);
    assert x in s <==> x in multiset(s);
  }
}
