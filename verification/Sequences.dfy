/** Sequence functions shared by the modules, with the few facts about them that the proofs use. */
module Sequences {

  lemma Assoc<T>(a: seq<T>, b: seq<T>, c: seq<T>)
    ensures a + (b + c) == a + b + c
  {}

  /** The last `n` elements, or all of them when there are fewer. */
  function LastN<T>(s: seq<T>, n: nat): seq<T> {
    if |s| <= n then s else s[|s| - n..]
  }

  lemma LastNAbsorbs<T>(s: seq<T>, t: seq<T>, n: nat)
    ensures LastN(LastN(s, n) + t, n) == LastN(s + t, n)
  {}

  lemma LastNOfLastN<T>(s: seq<T>, m: nat, n: nat)
    ensures LastN(LastN(s, n), m) == LastN(s, if m < n then m else n)
  {}

  function Filter<T>(s: seq<T>, p: T -> bool): seq<T> {
    if s == [] then []
    else Filter(s[..|s| - 1], p) + if p(s[|s| - 1]) then [s[|s| - 1]] else []
  }

  lemma {:induction false} FilterMember<T>(s: seq<T>, p: T -> bool)
    ensures forall x :: x in Filter(s, p) <==> x in s && p(x)
    ensures |Filter(s, p)| <= |s|
  {
    if s != [] {
      FilterMember(s[..|s| - 1], p);
      assert s == s[..|s| - 1] + [s[|s| - 1]];
    }
  }

  lemma {:induction false} FilterConcat<T>(s: seq<T>, t: seq<T>, p: T -> bool)
    ensures Filter(s + t, p) == Filter(s, p) + Filter(t, p)
  {
    if t == [] {
      assert s + t == s;
    } else {
      FilterConcat(s, t[..|t| - 1], p);
      assert (s + t)[..|s + t| - 1] == s + t[..|t| - 1];
    }
  }

  lemma {:induction false} FilterAll<T>(s: seq<T>, p: T -> bool)
    requires forall x :: x in s ==> p(x)
    ensures Filter(s, p) == s
  {
    if s != [] {
      FilterAll(s[..|s| - 1], p);
      assert s == s[..|s| - 1] + [s[|s| - 1]];
    }
  }

  lemma {:induction false} FilterNone<T>(s: seq<T>, p: T -> bool)
    requires forall x :: x in s ==> !p(x)
    ensures Filter(s, p) == []
  {
    if s != [] {
      FilterNone(s[..|s| - 1], p);
      assert s == s[..|s| - 1] + [s[|s| - 1]];
    }
  }

  /** The kept and the dropped elements together are all elements. */
  lemma {:induction false} FilterPartition<T>(s: seq<T>, p: T -> bool, q: T -> bool)
    requires forall x :: x in s ==> (p(x) <==> !q(x))
    ensures |Filter(s, p)| + |Filter(s, q)| == |s|
  {
    if s != [] {
      FilterPartition(s[..|s| - 1], p, q);
      assert s == s[..|s| - 1] + [s[|s| - 1]];
    }
  }

  /** Each element of a filtered sequence, with its place in the original, in order. */
  lemma {:induction false} FilterPlaces<T>(s: seq<T>, p: T -> bool) returns (at: seq<nat>)
    ensures |at| == |Filter(s, p)|
    ensures forall i :: 0 <= i < |at| ==> at[i] < |s| && s[at[i]] == Filter(s, p)[i]
    ensures forall i, j :: 0 <= i < j < |at| ==> at[i] < at[j]
  {
    if s == [] {
      at := [];
    } else {
      at := FilterPlaces(s[..|s| - 1], p);
      if p(s[|s| - 1]) {
        at := at + [|s| - 1];
      }
    }
  }

  function Count<T>(s: seq<T>, p: T -> bool): nat {
    |Filter(s, p)|
  }
}
