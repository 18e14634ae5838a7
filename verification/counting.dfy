/** Counting lemmas: distinct numbers of an interval. */
module Counting {

  ghost predicate Distinct<T>(ks: seq<T>) {
    forall i, j :: 0 <= i < j < |ks| ==> ks[i] != ks[j]
  }

  function Elements(ks: seq<nat>): (s: set<nat>)
    ensures forall k :: k in s <==> k in ks
  {
    if ks == [] then {} else {ks[0]} + Elements(ks[1..])
  }

  lemma {:induction false} DistinctCount(ks: seq<nat>)
    requires Distinct(ks)
    ensures |Elements(ks)| == |ks|
  {
    if ks != [] {
      DistinctCount(ks[1..]);
      assert ks[0] !in Elements(ks[1..]);
    }
  }

  /** The numbers 1..n. */
  function UpTo(n: nat): (s: set<nat>)
    ensures |s| == n && forall i :: i in s <==> 1 <= i <= n
  {
    if n == 0 then {} else UpTo(n - 1) + {n}
  }

  /** Distinct positive numbers are as many as their bound exactly when they are all of 1..max. */
  lemma CountEqualsMax(ks: seq<nat>, max: nat)
    requires Distinct(ks) && (forall k :: k in ks ==> 1 <= k <= max)
    ensures |ks| <= max
    ensures |ks| == max <==> forall i :: 1 <= i <= max ==> i in ks
  {
    hide Elements, UpTo;
    var s, r := Elements(ks), UpTo(max);
    DistinctCount(ks);
    assert s <= r;
    assert |r| == |s| + |r - s| by {
      assert r == s + (r - s);
    }
    assert (forall i :: 1 <= i <= max ==> i in ks) <==> r - s == {};
  }

  /** At most n distinct numbers are below n. */
  lemma DistinctBelow(ks: seq<nat>, n: nat)
    requires Distinct(ks) && forall i :: 0 <= i < |ks| ==> ks[i] < n
    ensures |ks| <= n
  {
    var shifted: seq<nat> := seq(|ks|, i requires 0 <= i < |ks| => ks[i] + 1);
    CountEqualsMax(shifted, n);
  }
}
