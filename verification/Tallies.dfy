/** Accumulating weights into a record by key, as the statistics loops of the storage do. */
module Tallies {

  function Tally<T, K>(s: seq<T>, key: T -> K, weight: T -> nat): map<K, nat> {
    if s == [] then map[]
    else Bump(Tally(s[..|s| - 1], key, weight), key(s[|s| - 1]), weight(s[|s| - 1]))
  }

  /** m[k] = (m[k] || 0) + w */
  function Bump<K>(m: map<K, nat>, k: K, w: nat): map<K, nat> {
    m[k := (if k in m then m[k] else 0) + w]
  }

  /** The weight found at one key by scanning. */
  function WeightAt<T, K(==)>(s: seq<T>, key: T -> K, weight: T -> nat, k: K): nat {
    if s == [] then 0
    else WeightAt(s[..|s| - 1], key, weight, k) + if key(s[|s| - 1]) == k then weight(s[|s| - 1]) else 0
  }

  function TotalWeight<T>(s: seq<T>, weight: T -> nat): nat {
    if s == [] then 0 else TotalWeight(s[..|s| - 1], weight) + weight(s[|s| - 1])
  }

  /** The sum of all values of a record. */
  ghost function Total<K>(m: map<K, nat>): nat {
    if m == map[] then 0 else
      var k :| k in m;
      m[k] + Total(m - {k})
  }

  lemma {:induction false} TotalAny<K>(m: map<K, nat>, k: K)
    requires k in m
    ensures Total(m) == m[k] + Total(m - {k})
  {
    var j :| j in m && Total(m) == m[j] + Total(m - {j});
    if j != k {
      TotalAny(m - {j}, k);
      TotalAny(m - {k}, j);
      assert m - {j} - {k} == m - {k} - {j};
    }
  }

  lemma TotalBump<K>(m: map<K, nat>, k: K, w: nat)
    ensures Total(Bump(m, k, w)) == Total(m) + w
  {
    TotalAny(Bump(m, k, w), k);
    assert Bump(m, k, w) - {k} == m - {k};
    if k in m {
      TotalAny(m, k);
    } else {
      assert m - {k} == m;
    }
  }

  /** The record holds exactly the keys that occur, each with its scanned weight. */
  lemma {:induction false} TallyIsScan<T, K>(s: seq<T>, key: T -> K, weight: T -> nat, k: K)
    ensures k in Tally(s, key, weight) <==> exists i :: 0 <= i < |s| && key(s[i]) == k
    ensures k in Tally(s, key, weight) ==> Tally(s, key, weight)[k] == WeightAt(s, key, weight, k)
    ensures k !in Tally(s, key, weight) ==> WeightAt(s, key, weight, k) == 0
  {
    if s != [] {
      TallyIsScan(s[..|s| - 1], key, weight, k);
      if key(s[|s| - 1]) == k {
        assert key(s[|s| - 1]) == k;
      } else if i :| 0 <= i < |s| && key(s[i]) == k {
        assert s[..|s| - 1][i] == s[i];
      }
    }
  }

  /** The values of the record add up to the total weight. */
  lemma {:induction false} TallyTotals<T, K>(s: seq<T>, key: T -> K, weight: T -> nat)
    ensures Total(Tally(s, key, weight)) == TotalWeight(s, weight)
  {
    if s != [] {
      TallyTotals(s[..|s| - 1], key, weight);
      TotalBump(Tally(s[..|s| - 1], key, weight), key(s[|s| - 1]), weight(s[|s| - 1]));
    }
  }

  lemma TallySnoc<T, K>(s: seq<T>, i: nat, key: T -> K, weight: T -> nat)
    requires i < |s|
    ensures Tally(s[..i + 1], key, weight) == Bump(Tally(s[..i], key, weight), key(s[i]), weight(s[i]))
    ensures TotalWeight(s[..i + 1], weight) == TotalWeight(s[..i], weight) + weight(s[i])
  {
    assert s[..i + 1][..i] == s[..i];
  }
}
