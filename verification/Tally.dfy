/** Maps of counts: one entry per key that counts anything. */
module Tally {
  function Get<K>(m: map<K, nat>, k: K): nat {
    if k in m then m[k] else 0
  }

  function Up<K>(m: map<K, nat>, k: K): map<K, nat> {
    m[k := Get(m, k) + 1]
  }

  /** One fewer, the entry gone with the last. */
  function Down<K>(m: map<K, nat>, k: K): map<K, nat> {
    if k !in m then m
    else if m[k] <= 1 then m - {k}
    else m[k := m[k] - 1]
  }

  /** No entry is kept for nothing. */
  predicate Compact<K(!new)>(m: map<K, nat>) {
    forall k | k in m :: m[k] > 0
  }

  lemma DownUndoesUp<K(!new)>(m: map<K, nat>, k: K)
    requires Compact(m)
    ensures Down(Up(m, k), k) == m && Compact(Up(m, k)) && Compact(Down(m, k))
  {
    assert k !in m ==> m[k := 1] - {k} == m;
  }

  ghost function Sum<K(!new)>(m: map<K, nat>): nat {
    if m == map[] then 0 else
    var k :| k in m;
    m[k] + Sum(m - {k})
  }

  lemma {:induction false} SumWithout<K(!new)>(m: map<K, nat>, k: K)
    requires k in m
    ensures Sum(m) == m[k] + Sum(m - {k})
    decreases |m|
  {
    var j :| j in m && Sum(m) == m[j] + Sum(m - {j});
    if j != k {
      SumWithout(m - {j}, k);
      SumWithout(m - {k}, j);
      assert m - {j} - {k} == m - {k} - {j};
    }
  }

  lemma UpAddsOne<K(!new)>(m: map<K, nat>, k: K)
    ensures Compact(m) ==> Compact(Up(m, k))
    ensures forall j :: Get(Up(m, k), j) == Get(m, j) + (if j == k then 1 else 0)
  {
  }

  lemma DownTakesOne<K(!new)>(m: map<K, nat>, k: K)
    ensures Compact(m) ==> Compact(Down(m, k))
    ensures Get(m, k) > 0 ==> forall j :: Get(Down(m, k), j) + (if j == k then 1 else 0) == Get(m, j)
  {
  }

  /** A map that counts the members of a set by their keys adds up to the set. */
  lemma {:induction false} SumIsTheWhole<T, K(!new)>(m: map<K, nat>, members: set<T>, key: T -> K)
    requires Compact(m)
    requires forall k :: Get(m, k) == |With(members, key, k)|
    ensures Sum(m) == |members|
    decreases |members|
  {
    if members == {} {
      forall k ensures k !in m {
        assert With(members, key, k) == {};
      }
    } else {
      var x :| x in members;
      var k := key(x);
      var fewer := members - {x};
      assert x in With(members, key, k);
      DownTakesOne(m, k);
      forall j ensures Get(Down(m, k), j) == |With(fewer, key, j)| {
        assert With(members, key, j) == With(fewer, key, j) + (if j == k then {x} else {});
      }
      SumIsTheWhole(Down(m, k), fewer, key);
      SumAfterDown(m, k);
    }
  }

  ghost function With<T, K(!new)>(members: set<T>, key: T -> K, k: K): set<T> {
    set x | x in members && key(x) == k
  }

  lemma SumAfterDown<K(!new)>(m: map<K, nat>, k: K)
    requires k in m && m[k] > 0
    ensures Sum(m) == Sum(Down(m, k)) + 1
  {
    SumWithout(m, k);
    if m[k] > 1 {
      SumWithout(Down(m, k), k);
      assert Down(m, k) - {k} == m - {k};
    }
  }
}
