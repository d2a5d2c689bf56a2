/** Small notions about maps and sequences that several modules need. */
module Collections {
  import opened Wrappers

  predicate Distinct<T(==)>(s: seq<T>) {
    forall i, j :: 0 <= i < j < |s| ==> s[i] != s[j]
  }

  function Elements<T(==)>(s: seq<T>): set<T> {
    set x | x in s
  }

  function Lookup<K(==), V>(m: map<K, V>, k: K): Option<V> {
    if k in m then Some(m[k]) else None
  }

  lemma Associate<T>(a: seq<T>, b: seq<T>, c: seq<T>)
    ensures a + (b + c) == (a + b) + c
  {
  }

  lemma {:induction false} DistinctMultiset<T>(s: seq<T>, x: T)
    requires Distinct(s)
    ensures multiset(s)[x] == if x in s then 1 else 0
    decreases |s|
  {
    if s != [] {
      var init, last := s[..|s| - 1], s[|s| - 1];
      assert s == init + [last];
      DistinctMultiset(init, x);
    }
  }

  /** A sequence with one element taken out. */
  function RemoveAt<T>(s: seq<T>, k: nat): (r: seq<T>)
    requires k < |s|
    ensures |r| == |s| - 1
  {
    s[..k] + s[k + 1..]
  }

  lemma RemoveSnoc<T>(s: seq<T>, k: nat)
    requires k < |s|
    ensures s == s[..|s| - 1] + [s[|s| - 1]]
    ensures RemoveAt(s, k) == if k == |s| - 1 then s[..|s| - 1] else RemoveAt(s[..|s| - 1], k) + [s[|s| - 1]]
  {
  }

  lemma RemoveMultiset<T>(s: seq<T>, k: nat)
    requires k < |s|
    ensures multiset(s) == multiset(RemoveAt(s, k)) + multiset{s[k]}
  {
    assert s == s[..k] + [s[k]] + s[k + 1..];
  }

  /** Of two permutations of each other: where the last element of the one is in the other. */
  lemma Unmatch<T>(s: seq<T>, t: seq<T>) returns (k: nat)
    requires s != [] && multiset(s) == multiset(t)
    ensures k < |t| && t[k] == s[|s| - 1]
    ensures multiset(RemoveAt(s, |s| - 1)) == multiset(RemoveAt(t, k))
  {
    var e := s[|s| - 1];
    RemoveMultiset(s, |s| - 1);
    assert e in multiset(t);
    k :| 0 <= k < |t| && t[k] == e;
    RemoveMultiset(t, k);
    forall x
      ensures multiset(RemoveAt(s, |s| - 1))[x] == multiset(RemoveAt(t, k))[x]
    {
      assert multiset(s)[x] == multiset(t)[x];
    }
  }
}
