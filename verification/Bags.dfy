/** Sums of multisets, used to account for values that move between places. */
module Bags {

  ghost function Sum<V>(parts: seq<multiset<V>>): multiset<V>
  {
    if parts == [] then multiset{} else parts[0] + Sum(parts[1..])
  }

  lemma {:induction false} SumUpdate<V>(parts: seq<multiset<V>>, k: nat, m: multiset<V>)
    requires k < |parts|
    ensures Sum(parts[k := m]) + parts[k] == Sum(parts) + m
  {
    if k == 0 {
      assert parts[k := m][1..] == parts[1..];
    } else {
      assert parts[k := m][1..] == parts[1..][k - 1 := m];
      SumUpdate(parts[1..], k - 1, m);
      assert parts[k := m][0] == parts[0] && parts[1..][k - 1] == parts[k];
      assert Sum(parts[k := m]) + parts[k] == parts[0] + (Sum(parts[1..][k - 1 := m]) + parts[k]);
    }
  }

  lemma Cancel<V>(a: multiset<V>, b: multiset<V>, c: multiset<V>)
    requires a + c == b + c
    ensures a == b
  {
    forall v ensures a[v] == b[v] {
      assert (a + c)[v] == (b + c)[v];
    }
  }

  lemma Regroup<V>(a: multiset<V>, b: multiset<V>, c: multiset<V>, x: multiset<V>)
    ensures (x + a) + b + c == a + (b + x) + c == a + b + (c + x)
  {
  }

  lemma SumGrow<V>(parts: seq<multiset<V>>, k: nat, x: multiset<V>)
    requires k < |parts|
    ensures Sum(parts[k := parts[k] + x]) == Sum(parts) + x
  {
    SumUpdate(parts, k, parts[k] + x);
    Regroup(Sum(parts), parts[k], multiset{}, x);
    Cancel(Sum(parts[k := parts[k] + x]), Sum(parts) + x, parts[k]);
  }

  lemma SumShrink<V>(parts: seq<multiset<V>>, k: nat, rest: multiset<V>, x: multiset<V>)
    requires k < |parts| && parts[k] == rest + x
    ensures Sum(parts) == Sum(parts[k := rest]) + x
  {
    SumGrow(parts[k := rest], k, x);
    assert parts[k := rest][k := rest + x] == parts;
  }

  /** Moving `x` from one part to another. */
  lemma SumMove<V>(parts: seq<multiset<V>>, i: nat, j: nat, a: multiset<V>, b: multiset<V>, x: multiset<V>)
    requires i < |parts| && j < |parts| && i != j
    requires parts[i] == a + x && b == parts[j] + x
    ensures Sum(parts[i := a][j := b]) == Sum(parts)
  {
    var mid := parts[i := a];
    SumShrink(parts, i, a, x);
    SumGrow(mid, j, x);
  }

  lemma {:induction false} SumEmpty<V>(parts: seq<multiset<V>>)
    requires forall k :: 0 <= k < |parts| ==> parts[k] == multiset{}
    ensures Sum(parts) == multiset{}
  {
    if parts != [] { SumEmpty(parts[1..]); }
  }

  /** `xs` can be had from `ys` by leaving values out. */
  ghost predicate Subsequence<V>(xs: seq<V>, ys: seq<V>)
  {
    if xs == [] then true
    else if ys == [] then false
    else if xs[|xs| - 1] == ys[|ys| - 1] && Subsequence(xs[..|xs| - 1], ys[..|ys| - 1]) then true
    else Subsequence(xs, ys[..|ys| - 1])
  }

  lemma SubsequenceGrows<V>(xs: seq<V>, ys: seq<V>, y: V)
    requires Subsequence(xs, ys)
    ensures Subsequence(xs, ys + [y])
    ensures Subsequence(xs + [y], ys + [y])
  {
    assert (xs + [y])[..|xs|] == xs && (ys + [y])[..|ys|] == ys;
  }
}
