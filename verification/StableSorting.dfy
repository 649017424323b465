/** Stable sorting by an integer key, and the fact that its result is determined by being
    sorted and keeping the order inside every key. */
module StableSorting {

  function Insert<T>(s: seq<T>, x: T, key: T -> int): seq<T> {
    if s == [] || key(s[|s| - 1]) <= key(x) then s + [x]
    else Insert(s[..|s| - 1], x, key) + [s[|s| - 1]]
  }

  function StableSort<T>(s: seq<T>, key: T -> int): seq<T> {
    if s == [] then [] else Insert(StableSort(s[..|s| - 1], key), s[|s| - 1], key)
  }

  ghost predicate Sorted<T>(s: seq<T>, key: T -> int) {
    forall i, j :: 0 <= i < j < |s| ==> key(s[i]) <= key(s[j])
  }

  /** The elements with key `v`, in order. */
  function WithKey<T>(s: seq<T>, key: T -> int, v: int): seq<T> {
    if s == [] then []
    else WithKey(s[..|s| - 1], key, v) + if key(s[|s| - 1]) == v then [s[|s| - 1]] else []
  }

  lemma {:induction false} InsertElements<T>(s: seq<T>, x: T, key: T -> int)
    ensures multiset(Insert(s, x, key)) == multiset(s) + multiset{x}
    ensures |Insert(s, x, key)| == |s| + 1
  {
    if s != [] && key(s[|s| - 1]) > key(x) {
      InsertElements(s[..|s| - 1], x, key);
      assert s == s[..|s| - 1] + [s[|s| - 1]];
    }
  }

  lemma {:induction false} InsertSorted<T>(s: seq<T>, x: T, key: T -> int)
    requires Sorted(s, key)
    ensures Sorted(Insert(s, x, key), key)
    ensures key(Insert(s, x, key)[|Insert(s, x, key)| - 1]) ==
              if s != [] && key(s[|s| - 1]) > key(x) then key(s[|s| - 1]) else key(x)
  {
    if s != [] && key(s[|s| - 1]) > key(x) {
      var t := Insert(s[..|s| - 1], x, key);
      InsertSorted(s[..|s| - 1], x, key);
      assert key(t[|t| - 1]) <= key(s[|s| - 1]);
      assert forall i :: 0 <= i < |t| ==> key(t[i]) <= key(t[|t| - 1]);
    }
  }

  lemma {:induction false} SortElements<T>(s: seq<T>, key: T -> int)
    ensures multiset(StableSort(s, key)) == multiset(s)
    ensures |StableSort(s, key)| == |s|
  {
    if s != [] {
      SortElements(s[..|s| - 1], key);
      InsertElements(StableSort(s[..|s| - 1], key), s[|s| - 1], key);
      assert s == s[..|s| - 1] + [s[|s| - 1]];
    }
  }

  lemma {:induction false} SortOrders<T>(s: seq<T>, key: T -> int)
    ensures Sorted(StableSort(s, key), key)
  {
    if s != [] {
      SortOrders(s[..|s| - 1], key);
      InsertSorted(StableSort(s[..|s| - 1], key), s[|s| - 1], key);
    }
  }

  /** Sorting permutes and sorts. */
  lemma SortSorts<T>(s: seq<T>, key: T -> int)
    ensures Sorted(StableSort(s, key), key)
    ensures multiset(StableSort(s, key)) == multiset(s)
    ensures |StableSort(s, key)| == |s|
  {
    SortOrders(s, key);
    SortElements(s, key);
  }

  lemma SortMembers<T>(s: seq<T>, key: T -> int)
    ensures forall x :: x in StableSort(s, key) <==> x in s
  {
    SortElements(s, key);
    forall x
      ensures x in StableSort(s, key) <==> x in s
    {
      assert x in multiset(StableSort(s, key)) <==> x in multiset(s);
    }
  }

  lemma {:induction false} InsertWithKey<T>(s: seq<T>, x: T, key: T -> int, v: int)
    requires Sorted(s, key)
    ensures WithKey(Insert(s, x, key), key, v) == WithKey(s + [x], key, v)
  {
    assert (s + [x])[..|s + [x]| - 1] == s;
    if s != [] && key(s[|s| - 1]) > key(x) {
      var t := s[..|s| - 1];
      InsertWithKey(t, x, key, v);
      assert (t + [x])[..|t + [x]| - 1] == t;
      var r := Insert(t, x, key) + [s[|s| - 1]];
      assert r[..|r| - 1] == Insert(t, x, key);
    }
  }

  /** Elements with equal keys keep their order. */
  lemma {:induction false} SortIsStable<T>(s: seq<T>, key: T -> int, v: int)
    ensures WithKey(StableSort(s, key), key, v) == WithKey(s, key, v)
  {
    if s != [] {
      var t := s[..|s| - 1];
      SortIsStable(t, key, v);
      SortOrders(t, key);
      InsertWithKey(StableSort(t, key), s[|s| - 1], key, v);
      var u := StableSort(t, key) + [s[|s| - 1]];
      assert u[..|u| - 1] == StableSort(t, key);
    }
  }

  lemma {:induction false} SortOfSorted<T>(s: seq<T>, key: T -> int)
    requires Sorted(s, key)
    ensures StableSort(s, key) == s
  {
    if s != [] {
      SortOfSorted(s[..|s| - 1], key);
    }
  }

  lemma {:induction false} WithKeyLast<T>(s: seq<T>, key: T -> int, v: int)
    requires Sorted(s, key)
    ensures WithKey(s, key, v) != [] ==> s != [] && key(s[|s| - 1]) >= v
    ensures s != [] && key(s[|s| - 1]) == v ==>
              WithKey(s, key, v) != [] && WithKey(s, key, v)[|WithKey(s, key, v)| - 1] == s[|s| - 1]
  {
    if s != [] {
      WithKeyLast(s[..|s| - 1], key, v);
    }
  }

  lemma WithKeyCancel<T>(s: seq<T>, t: seq<T>, key: T -> int, v: int)
    requires s != [] && t != [] && s[|s| - 1] == t[|t| - 1]
    requires WithKey(s, key, v) == WithKey(t, key, v)
    ensures WithKey(s[..|s| - 1], key, v) == WithKey(t[..|t| - 1], key, v)
  {
    var a, b := WithKey(s[..|s| - 1], key, v), WithKey(t[..|t| - 1], key, v);
    var l := if key(s[|s| - 1]) == v then [s[|s| - 1]] else [];
    assert a + l == b + l;
    assert a == (a + l)[..|a + l| - |l|] && b == (b + l)[..|b + l| - |l|];
  }

  /** Sorted and stable leaves only one result. */
  lemma {:induction false} StableIsUnique<T>(s: seq<T>, t: seq<T>, key: T -> int)
    requires Sorted(s, key) && Sorted(t, key)
    requires forall v :: WithKey(s, key, v) == WithKey(t, key, v)
    ensures s == t
  {
    if s != [] || t != [] {
      var v := if s != [] then key(s[|s| - 1]) else key(t[|t| - 1]);
      WithKeyLast(s, key, v);
      WithKeyLast(t, key, v);
      assert s != [] && t != [];
      var w := key(t[|t| - 1]);
      WithKeyLast(s, key, w);
      WithKeyLast(t, key, w);
      var s', t' := s[..|s| - 1], t[..|t| - 1];
      forall u
        ensures WithKey(s', key, u) == WithKey(t', key, u)
      {
        WithKeyCancel(s, t, key, u);
      }
      StableIsUnique(s', t', key);
      assert s == s' + [s[|s| - 1]] && t == t' + [t[|t| - 1]];
    }
  }

  function Reverse<T>(s: seq<T>): (r: seq<T>)
    ensures |r| == |s| && forall i :: 0 <= i < |s| ==> r[i] == s[|s| - 1 - i]
  {
    seq(|s|, i requires 0 <= i < |s| => s[|s| - 1 - i])
  }

  lemma {:induction false} InsertFront<T>(s: seq<T>, x: T, key: T -> int)
    requires forall i :: 0 <= i < |s| ==> key(s[i]) > key(x)
    ensures Insert(s, x, key) == [x] + s
  {
    if s != [] {
      InsertFront(s[..|s| - 1], x, key);
    }
  }

  /** Sorting a strictly descending sequence reverses it. */
  lemma {:induction false} SortOfDescending<T>(s: seq<T>, key: T -> int)
    requires forall i, j :: 0 <= i < j < |s| ==> key(s[i]) > key(s[j])
    ensures StableSort(s, key) == Reverse(s)
  {
    if s != [] {
      var t, x := s[..|s| - 1], s[|s| - 1];
      SortOfDescending(t, key);
      InsertFront(Reverse(t), x, key);
      assert Reverse(s) == [x] + Reverse(t);
    }
  }
}
