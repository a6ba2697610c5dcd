/** Handing out the members of a list round and round. */
module Cyclic {
  import opened Finite

  /** `xs` goes round `list` from its first member. */
  ghost predicate Cycles<T>(list: seq<T>, xs: seq<T>)
  {
    list != [] && forall m :: 0 <= m < |xs| ==> xs[m] == list[m % |list|]
  }

  lemma NextIndex(k: nat, n: nat)
    requires n > 0
    ensures (k + 1) % n == (if k % n + 1 == n then 0 else k % n + 1)
    ensures (k + 1) / n == (if k % n + 1 == n then k / n + 1 else k / n)
  {
    var q, r := k / n, k % n;
    assert k == q * n + r;
    if r + 1 == n {
      assert k + 1 == (q + 1) * n;
      DivMod(q + 1, 0, n);
    } else {
      assert k + 1 == q * n + (r + 1);
      DivMod(q, r + 1, n);
    }
  }

  lemma DivMod(q: nat, r: nat, n: nat)
    requires r < n
    ensures (q * n + r) / n == q && (q * n + r) % n == r
  {
    var x := q * n + r;
    var d := x / n - q;
    assert x == (x / n) * n + x % n;
    assert d * n == r - x % n by {
      assert (x / n) * n == d * n + q * n;
    }
    Multiples(d, n);
  }

  lemma Multiples(d: int, n: nat)
    ensures d > 0 ==> d * n >= n
    ensures d < 0 ==> d * n + n <= 0
  {
  }

  /** After k picks the member at position p has been picked floor(k/n) times, once more if p lies
      among the first k mod n. */
  lemma {:induction false} CyclicCount<T>(list: seq<T>, xs: seq<T>, p: nat)
    requires Distinct(list) && Cycles(list, xs) && p < |list|
    ensures multiset(xs)[list[p]] == |xs| / |list| + (if p < |xs| % |list| then 1 else 0)
  {
    var n := |list|;
    if xs == [] {
      DivMod(0, 0, n);
    } else {
      var k := |xs| - 1;
      var ys := xs[..k];
      assert xs == ys + [xs[k]];
      CyclicCount(list, ys, p);
      NextIndex(k, n);
      assert multiset(xs) == multiset(ys) + multiset{xs[k]};
      assert xs[k] == list[p] <==> k % n == p;
    }
  }

  /** Fairness: no member is ever more than one pick ahead of another. */
  lemma Balanced<T>(list: seq<T>, xs: seq<T>, a: T, b: T)
    requires Distinct(list) && Cycles(list, xs) && a in list && b in list
    ensures multiset(xs)[a] <= multiset(xs)[b] + 1
  {
    var p :| 0 <= p < |list| && list[p] == a;
    var q :| 0 <= q < |list| && list[q] == b;
    CyclicCount(list, xs, p);
    CyclicCount(list, xs, q);
  }

  /** Indices less than a whole turn apart name different members. */
  lemma WithinOneTurn(i: nat, j: nat, n: nat)
    requires i < j < i + n
    ensures i % n != j % n
  {
    var d := j / n - i / n;
    assert j - i == d * n + (j % n - i % n) by {
      assert i == (i / n) * n + i % n && j == (j / n) * n + j % n;
      assert (j / n) * n - (i / n) * n == d * n;
    }
    Multiples(d, n);
  }

  /** A request for no more members than there are gets different ones. */
  lemma WindowDistinct<T>(list: seq<T>, xs: seq<T>, start: nat, count: nat)
    requires Distinct(list) && Cycles(list, xs) && start + count <= |xs| && count <= |list|
    ensures Distinct(xs[start..start + count])
  {
    var window := xs[start..start + count];
    forall i, j | 0 <= i < j < count ensures window[i] != window[j] {
      var a, b := start + i, start + j;
      WithinOneTurn(a, b, |list|);
      assert window[i] == list[a % |list|] && window[j] == list[b % |list|];
    }
  }
}
