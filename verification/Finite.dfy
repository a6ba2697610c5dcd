/** Finite sets of numbers, and lists of them without repetition. */
module Finite {

  ghost function Below(n: nat): (r: set<nat>)
    ensures |r| == n
    ensures forall t :: t in r <==> 0 <= t < n
  {
    if n == 0 then {} else Below(n - 1) + {n - 1}
  }

  /** A set of numbers below `n` that has `n` members holds all of them. */
  lemma {:induction false} FullSet(a: set<nat>, n: nat)
    requires forall t :: t in a ==> t < n
    ensures |a| <= n
    ensures |a| == n ==> forall t :: 0 <= t < n ==> t in a
  {
    if n > 0 {
      var b := a - {n - 1};
      assert |b| == if n - 1 in a then |a| - 1 else |a|;
      FullSet(b, n - 1);
    }
  }

  ghost predicate Distinct<T>(list: seq<T>)
  {
    forall i, j :: 0 <= i < j < |list| ==> list[i] != list[j]
  }

  ghost function Members(list: seq<nat>): set<nat>
  {
    set x | x in list
  }

  lemma {:induction false} DistinctSize(list: seq<nat>)
    requires Distinct(list)
    ensures |Members(list)| == |list|
  {
    if list != [] {
      var k := |list| - 1;
      DistinctSize(list[..k]);
      assert list == list[..k] + [list[k]];
      assert Members(list) == Members(list[..k]) + {list[k]};
    }
  }

  lemma SameSize(a: set<nat>, b: set<nat>)
    requires a <= b && |a| == |b|
    ensures a == b
  {
    assert b == a + (b - a);
  }
}
