/** Handing processing elements to runnables, and building the engines and contexts that run them.

    A cpu set is kept as the ascending list of its members. Each factory object remembers, as a ghost
    history, everything it has handed out; its invariant says what that history looks like after any
    sequence of requests. */
module EngineAllocation {
  import opened Cyclic
  import opened Finite
  import opened Options
  import ThreadBarrier

  ghost predicate Ascending(cpus: seq<nat>)
  {
    forall i, j :: 0 <= i < j < |cpus| ==> cpus[i] < cpus[j]
  }

  /** `Bitmap::next`: the smallest member above `prev`, -1 if there is none. */
  function NextCpu(cpus: seq<nat>, prev: int): int
  {
    if cpus == [] then -1
    else if cpus[0] > prev then cpus[0]
    else NextCpu(cpus[1..], prev)
  }

  /** From one member `next` leads to the following one, from the last to -1, and from -1 to the first. */
  lemma {:induction false} NextCpuWalks(cpus: seq<nat>, p: nat)
    requires Ascending(cpus) && p <= |cpus|
    ensures NextCpu(cpus, if p == 0 then -1 else cpus[p - 1]) == if p < |cpus| then cpus[p] else -1
  {
    if p > 1 {
      NextCpuWalks(cpus[1..], p - 1);
    } else if p == 1 && |cpus| > 1 {
      assert cpus[1..][0] == cpus[1];
    }
  }

  // ---------------------------------------------------------------------------------------
  // Reusable pools: round and round

  /** No member has been handed out more than once oftener than another. */
  ghost predicate Even(list: seq<nat>, given: seq<nat>)
  {
    forall a, b :: a in list && b in list ==> multiset(given)[a] <= multiset(given)[b] + 1
  }

  lemma EvenShares(list: seq<nat>, given: seq<nat>)
    requires Distinct(list) && Cycles(list, given)
    ensures Even(list, given)
  {
    forall a, b | a in list && b in list ensures multiset(given)[a] <= multiset(given)[b] + 1 {
      Balanced(list, given, a, b);
    }
  }

  /** The reusable fiber factory; queues are numbered by the pool's threads. */
  class ReusableFibers {
    const threads: nat
    var offset: nat
    ghost var given: seq<nat>

    ghost function Pool(): seq<nat>
    {
      seq(threads, i => i)
    }

    ghost predicate Valid()
      reads this
    {
      threads > 0 && Cycles(Pool(), given) && offset == |given| % threads
    }

    constructor (threads: nat)
      requires threads > 0
      ensures Valid() && given == [] && this.threads == threads
    {
      this.threads, offset, given := threads, 0, [];
      new;
      DivMod(0, 0, threads);
    }

    method Next() returns (n: nat)
      requires Valid()
      modifies this
      ensures Valid() && given == old(given) + [n]
    {
      NextIndex(|given|, threads);
      n := offset;
      offset := offset + 1;
      if offset == threads {
        offset := 0;
      }
      given := given + [n];
    }

    method GetNextN(count: nat) returns (queues: seq<nat>)
      requires Valid()
      modifies this
      ensures Valid() && given == old(given) + queues && |queues| == count
      ensures Distinct(queues) <==> count <= threads
      ensures Even(Pool(), given)
    {
      queues := [];
      for i := 0 to count
        invariant Valid() && given == old(given) + queues && |queues| == i
      {
        var n := Next();
        queues := queues + [n];
      }
      EvenShares(Pool(), given);
      DistinctExactly(Pool(), given, |old(given)|, count);
      assert queues == given[|old(given)|..|old(given)| + count];
    }
  }

  /** A run of picks has no repetition exactly when it is no longer than the list. */
  lemma DistinctExactly<T>(list: seq<T>, xs: seq<T>, start: nat, count: nat)
    requires Distinct(list) && Cycles(list, xs) && start + count <= |xs|
    ensures Distinct(xs[start..start + count]) <==> count <= |list|
  {
    var window, n := xs[start..start + count], |list|;
    if count <= n {
      WindowDistinct(list, xs, start, count);
    } else {
      OneTurnLater(start, n);
      assert window[0] == list[start % n] && window[n] == xs[start + n] == list[(start + n) % n];
    }
  }

  lemma OneTurnLater(k: nat, n: nat)
    requires n > 0
    ensures (k + n) % n == k % n
  {
    assert k + n == (k / n + 1) * n + k % n;
    DivMod(k / n + 1, k % n, n);
  }

  /** The reusable thread factory. */
  class ReusableThreads {
    const cpus: seq<nat>
    var prev: int
    ghost var given: seq<nat>

    ghost predicate Valid()
      reads this
    {
      && cpus != [] && Ascending(cpus) && Cycles(cpus, given)
      && prev == if given == [] then -1 else given[|given| - 1]
    }

    constructor (cpus: seq<nat>)
      requires cpus != [] && Ascending(cpus)
      ensures Valid() && given == [] && this.cpus == cpus
    {
      this.cpus, prev, given := cpus, -1, [];
    }

    /** The body of the loop: one step of the cursor, wrapping round. */
    method Advance()
      requires Valid()
      modifies this
      ensures Valid() && prev >= 0 && given == old(given) + [prev as nat]
    {
      var k, n := |given|, |cpus|;
      if k > 0 {
        NextIndex(k - 1, n);
        NextCpuWalks(cpus, (k - 1) % n + 1);
      } else {
        DivMod(0, 0, n);
      }
      NextCpuWalks(cpus, 0);
      prev := NextCpu(cpus, prev);
      if prev == -1 {
        prev := NextCpu(cpus, prev);
      }
      given := given + [prev as nat];
    }

    /** The granted set has as many cpus as asked for, or all of them; so the check that it has
        exactly `pe_count` members passes exactly when no more were asked for than there are. */
    method GetNextN(count: nat) returns (granted: set<nat>)
      requires Valid()
      modifies this
      ensures Valid() && |given| == |old(given)| + count && old(given) <= given
      ensures granted == Members(given[|old(given)|..])
      ensures |granted| == if count <= |cpus| then count else |cpus|
      ensures Even(cpus, given)
    {
      granted := {};
      ghost var start := |given|;
      for i := 0 to count
        invariant Valid() && |given| == start + i && old(given) <= given
        invariant granted == Members(given[start..])
      {
        ghost var before := given;
        Advance();
        assert given[start..] == before[start..] + [prev as nat];
        granted := granted + {prev as nat};
      }
      assert given[start..] == given[start..start + count];
      AscendingDistinct(cpus);
      EvenShares(cpus, given);
      WindowSize(cpus, given, start, count);
    }
  }

  lemma AscendingDistinct(cpus: seq<nat>)
    requires Ascending(cpus)
    ensures Distinct(cpus)
  {
  }

  lemma WindowMembers(list: seq<nat>, xs: seq<nat>, start: nat, count: nat)
    requires Distinct(list) && Cycles(list, xs) && start + count <= |xs| && count > |list|
    ensures Members(xs[start..start + count]) == Members(list)
  {
    var n, window := |list|, xs[start..start + count];
    WholeTurn(list, xs, start);
    forall i | 0 <= i < |window| ensures window[i] in Members(list) {
      var m := start + i;
      assert window[i] == list[m % n];
    }
    assert xs[start..start + n] == window[..n];
    assert forall x :: x in window[..n] ==> x in window;
  }

  lemma WindowSize(list: seq<nat>, xs: seq<nat>, start: nat, count: nat)
    requires Distinct(list) && Cycles(list, xs) && start + count <= |xs|
    ensures |Members(xs[start..start + count])| == if count <= |list| then count else |list|
  {
    if count <= |list| {
      WindowDistinct(list, xs, start, count);
      DistinctSize(xs[start..start + count]);
    } else {
      WindowMembers(list, xs, start, count);
      DistinctSize(list);
    }
  }

  /** A whole turn meets every member. */
  lemma WholeTurn(list: seq<nat>, xs: seq<nat>, start: nat)
    requires Distinct(list) && Cycles(list, xs) && start + |list| <= |xs|
    ensures Members(xs[start..start + |list|]) == Members(list)
  {
    var n := |list|;
    var turn := xs[start..start + n];
    WindowDistinct(list, xs, start, n);
    DistinctSize(turn);
    DistinctSize(list);
    forall i | 0 <= i < n ensures turn[i] in Members(list) {
      var m := start + i;
      assert turn[i] == list[m % n];
    }
    SameSize(Members(turn), Members(list));
  }

  // ---------------------------------------------------------------------------------------
  // Single-use pools

  /** A grant is the stretch of the pool from `lo` up to `hi`. */
  datatype Grant = Grant(lo: nat, hi: nat)

  /** The single-use thread factory as requests see it: `used` members are gone; a request that asks
      for more than are left fails, and the pool starts over. */
  function Request(n: nat, used: nat, count: nat): (r: (nat, Option<Grant>))
  {
    if used + count <= n then (used + count, Some(Grant(used, used + count))) else (0, None)
  }

  class SingleUseThreads {
    const cpus: seq<nat>
    var prev: int
    ghost var used: nat

    ghost predicate Valid()
      reads this
    {
      && cpus != [] && Ascending(cpus) && used <= |cpus|
      && prev == if used == 0 then -1 else cpus[used - 1]
    }

    constructor (cpus: seq<nat>)
      requires cpus != [] && Ascending(cpus)
      ensures Valid() && used == 0 && this.cpus == cpus
    {
      this.cpus, prev, used := cpus, -1, 0;
    }

    /** The body of the loop: one step of the cursor, -1 when the cpus are exhausted. */
    method Advance()
      requires Valid()
      modifies this
      ensures Valid()
      ensures if old(used) < |cpus| then prev == cpus[old(used)] && used == old(used) + 1
              else prev == -1 && used == 0
    {
      NextCpuWalks(cpus, used);
      prev := NextCpu(cpus, prev);
      used := if prev == -1 then 0 else used + 1;
    }

    method GetNextN(count: nat) returns (granted: Option<set<nat>>)
      requires Valid()
      modifies this
      ensures Valid()
      ensures used == Request(|cpus|, old(used), count).0
      ensures granted.Some? <==> Request(|cpus|, old(used), count).1.Some?
      ensures granted.Some? ==>
                var g := Request(|cpus|, old(used), count).1.value;
                granted.value == Members(cpus[g.lo..g.hi]) && |granted.value| == count
    {
      var picked := {};
      for i := 0 to count
        invariant Valid() && used == old(used) + i
        invariant picked == Members(cpus[old(used)..used])
      {
        ghost var p := used;
        Advance();
        if prev == -1 {
          return None;
        }
        SliceMembers(cpus, old(used), p);
        picked := picked + {prev as nat};
      }
      SliceSize(cpus, old(used), used);
      return Some(picked);
    }
  }

  lemma SliceMembers(cpus: seq<nat>, lo: nat, hi: nat)
    requires lo <= hi < |cpus|
    ensures Members(cpus[lo..hi + 1]) == Members(cpus[lo..hi]) + {cpus[hi]}
  {
    assert cpus[lo..hi + 1] == cpus[lo..hi] + [cpus[hi]];
  }

  lemma SliceSize(cpus: seq<nat>, lo: nat, hi: nat)
    requires Ascending(cpus) && lo <= hi <= |cpus|
    ensures |Members(cpus[lo..hi])| == hi - lo
  {
    DistinctSize(cpus[lo..hi]);
  }

  /** The single-use fiber factory never moves its offset. */
  function FiberRequest(n: nat, count: nat): Option<Grant>
  {
    if count <= n then Some(Grant(0, count)) else None
  }

  class SingleUseFibers {
    const threads: nat
    var offset: nat

    constructor (threads: nat)
      ensures offset == 0 && this.threads == threads
    {
      this.threads, offset := threads, 0;
    }

    method GetNextN(count: nat) returns (queues: Option<seq<nat>>)
      requires offset == 0
      modifies this
      ensures offset == 0
      ensures queues.Some? <==> FiberRequest(threads, count).Some?
      ensures queues.Some? ==> queues.value == seq(count, i => i)
    {
      if offset + count > threads {
        return None;
      }
      var list := [];
      for i := 0 to count
        invariant list == seq(i, k => k)
      {
        list := list + [offset + i];
      }
      return Some(list);
    }
  }

  // ---------------------------------------------------------------------------------------
  // When "single use" is true

  ghost predicate Fills(g: Option<Grant>)
  {
    g.Some? && g.value.lo < g.value.hi
  }

  ghost predicate Overlap(g: Option<Grant>, h: Option<Grant>)
  {
    Fills(g) && Fills(h) && g.value.lo < h.value.hi && h.value.lo < g.value.hi
  }

  /** What the option promises: no member is handed out twice. */
  ghost predicate SingleUse(grants: seq<Option<Grant>>)
  {
    forall i, k :: 0 <= i < k < |grants| ==> !Overlap(grants[i], grants[k])
  }

  ghost function ThreadRun(n: nat, counts: seq<nat>): (nat, seq<Option<Grant>>)
  {
    if counts == [] then (0, [])
    else
      var (used, grants) := ThreadRun(n, counts[..|counts| - 1]);
      var (used', grant) := Request(n, used, counts[|counts| - 1]);
      (used', grants + [grant])
  }

  ghost predicate Granted(grants: seq<Option<Grant>>)
  {
    exists i :: 0 <= i < |grants| && Fills(grants[i])
  }

  /** Something was granted, and after it a request failed. */
  ghost predicate FailedAfterGrant(grants: seq<Option<Grant>>)
  {
    grants != [] &&
    var k := |grants| - 1; FailedAfterGrant(grants[..k]) || (grants[k].None? && Granted(grants[..k]))
  }

  /** Something was granted, then a request failed, then something was granted again. */
  ghost predicate Regranted(grants: seq<Option<Grant>>)
  {
    grants != [] &&
    var k := |grants| - 1; Regranted(grants[..k]) || (Fills(grants[k]) && FailedAfterGrant(grants[..k]))
  }

  ghost predicate RunInv(used: nat, grants: seq<Option<Grant>>)
  {
    && (Granted(grants) ==> exists i :: 0 <= i < |grants| && Fills(grants[i]) && grants[i].value.lo == 0)
    && (!Granted(grants) ==> used == 0 && !FailedAfterGrant(grants))
    && (!FailedAfterGrant(grants) ==> forall i :: 0 <= i < |grants| && Fills(grants[i]) ==> grants[i].value.hi <= used)
    && (FailedAfterGrant(grants) && used > 0 ==> Regranted(grants))
    && (SingleUse(grants) <==> !Regranted(grants))
  }

  lemma AppendGrant(grants: seq<Option<Grant>>, g: Option<Grant>)
    ensures Granted(grants + [g]) <==> Granted(grants) || Fills(g)
    ensures FailedAfterGrant(grants + [g]) <==> FailedAfterGrant(grants) || (g.None? && Granted(grants))
    ensures Regranted(grants + [g]) <==> Regranted(grants) || (Fills(g) && FailedAfterGrant(grants))
    ensures SingleUse(grants + [g]) <==> SingleUse(grants) && forall i :: 0 <= i < |grants| ==> !Overlap(grants[i], g)
  {
    var more, k := grants + [g], |grants|;
    assert more[..k] == grants && more[k] == g;
    assert forall i :: 0 <= i < k ==> more[i] == grants[i];
  }

  lemma GrantKeepsInv(n: nat, used: nat, count: nat, grants: seq<Option<Grant>>)
    requires RunInv(used, grants)
    ensures var (used', g) := Request(n, used, count); RunInv(used', grants + [g])
  {
    var (used', g) := Request(n, used, count);
    var more, k := grants + [g], |grants|;
    AppendGrant(grants, g);
    assert more[k] == g && forall i :: 0 <= i < k ==> more[i] == grants[i];
    if Granted(grants) {
      var z :| 0 <= z < k && Fills(grants[z]) && grants[z].value.lo == 0;
      assert Fills(more[z]) && more[z].value.lo == 0;
      assert Fills(g) && used == 0 ==> Overlap(grants[z], g);
    } else if Fills(g) {
      assert Fills(more[k]) && more[k].value.lo == 0;
    }
  }

  lemma {:induction false} ThreadRunInv(n: nat, counts: seq<nat>)
    ensures RunInv(ThreadRun(n, counts).0, ThreadRun(n, counts).1)
  {
    if counts != [] {
      var before := counts[..|counts| - 1];
      ThreadRunInv(n, before);
      GrantKeepsInv(n, ThreadRun(n, before).0, counts[|counts| - 1], ThreadRun(n, before).1);
    }
  }

  ghost function Total(counts: seq<nat>): nat
  {
    if counts == [] then 0 else Total(counts[..|counts| - 1]) + counts[|counts| - 1]
  }

  /** A request that an untouched pool would serve with something. */
  ghost predicate Servable(n: nat, count: nat)
  {
    0 < count <= n
  }

  ghost predicate SomeServable(n: nat, counts: seq<nat>)
  {
    exists i :: 0 <= i < |counts| && Servable(n, counts[i])
  }

  /** From some servable request on, more has been asked for than the pool holds. */
  ghost predicate Exhausted(n: nat, counts: seq<nat>)
  {
    exists i :: 0 <= i < |counts| && Servable(n, counts[i]) && Total(counts[i..]) > n
  }

  /** A servable request comes after the pool was exhausted. */
  ghost predicate StartsOver(n: nat, counts: seq<nat>)
  {
    exists k :: 0 <= k < |counts| && Servable(n, counts[k]) && Exhausted(n, counts[..k])
  }

  lemma TotalFrom(counts: seq<nat>, c: nat, i: nat)
    requires i <= |counts|
    ensures Total((counts + [c])[i..]) == Total(counts[i..]) + c
  {
    assert (counts + [c])[i..] == counts[i..] + [c];
    assert (counts[i..] + [c])[..|counts[i..]|] == counts[i..];
  }

  lemma StartsOverGrows(n: nat, counts: seq<nat>, c: nat)
    ensures StartsOver(n, counts + [c]) <==> StartsOver(n, counts) || (Servable(n, c) && Exhausted(n, counts))
  {
    var more := counts + [c];
    assert more[|counts|] == c && more[..|counts|] == counts;
    assert forall k :: 0 <= k < |counts| ==> more[k] == counts[k] && more[..k] == counts[..k];
  }

  lemma SomeServableGrows(n: nat, counts: seq<nat>, c: nat)
    ensures SomeServable(n, counts + [c]) <==> SomeServable(n, counts) || Servable(n, c)
  {
    assert (counts + [c])[|counts|] == c;
    assert forall i :: 0 <= i < |counts| ==> (counts + [c])[i] == counts[i];
  }

  /** Until the pool is exhausted, `used` is what was asked for since the first servable request. */
  ghost predicate Tracks(n: nat, counts: seq<nat>, used: nat)
  {
    && (forall i :: 0 <= i < |counts| && Servable(n, counts[i]) ==> Total(counts[i..]) <= used)
    && (SomeServable(n, counts) ==>
          exists i :: 0 <= i < |counts| && Servable(n, counts[i]) && Total(counts[i..]) == used)
    && (!SomeServable(n, counts) ==> used == 0)
    && used <= n
  }

  lemma TracksAbove(n: nat, counts: seq<nat>, used: nat, c: nat, i: nat)
    requires Tracks(n, counts, used) && i <= |counts| && Servable(n, (counts + [c])[i])
    ensures Total((counts + [c])[i..]) <= used + c
  {
    TotalFrom(counts, c, i);
    if i < |counts| {
      assert Servable(n, counts[i]);
    } else {
      assert counts[i..] == [];
    }
  }

  lemma TracksSome(n: nat, counts: seq<nat>, used: nat, c: nat) returns (i: nat)
    requires Tracks(n, counts, used) && SomeServable(n, counts + [c])
    ensures i <= |counts| && Servable(n, (counts + [c])[i]) && Total((counts + [c])[i..]) == used + c
  {
    SomeServableGrows(n, counts, c);
    if SomeServable(n, counts) {
      i :| 0 <= i < |counts| && Servable(n, counts[i]) && Total(counts[i..]) == used;
    } else {
      i := |counts|;
      assert counts[i..] == [];
    }
    TotalFrom(counts, c, i);
  }

  /** A request that fits. */
  lemma TracksServed(n: nat, counts: seq<nat>, used: nat, c: nat)
    requires Tracks(n, counts, used) && used + c <= n
    ensures Tracks(n, counts + [c], used + c)
  {
    var more := counts + [c];
    SomeServableGrows(n, counts, c);
    forall i | 0 <= i < |more| && Servable(n, more[i]) ensures Total(more[i..]) <= used + c {
      TracksAbove(n, counts, used, c, i);
    }
    if SomeServable(n, more) {
      var i := TracksSome(n, counts, used, c);
      assert Servable(n, more[i]) && Total(more[i..]) == used + c;
    }
  }

  /** A pool exhausted by some request stays exhausted. */
  lemma ExhaustedStays(n: nat, counts: seq<nat>, c: nat)
    requires Exhausted(n, counts)
    ensures Exhausted(n, counts + [c])
  {
    var i :| 0 <= i < |counts| && Servable(n, counts[i]) && Total(counts[i..]) > n;
    TotalFrom(counts, c, i);
    assert Servable(n, (counts + [c])[i]);
  }

  /** A request that does not fit exhausts a pool that has served something. */
  lemma ExhaustedNow(n: nat, counts: seq<nat>, used: nat, c: nat)
    requires Tracks(n, counts, used) && SomeServable(n, counts) && used + c > n
    ensures Exhausted(n, counts + [c])
  {
    var i :| 0 <= i < |counts| && Servable(n, counts[i]) && Total(counts[i..]) == used;
    TotalFrom(counts, c, i);
    assert Servable(n, (counts + [c])[i]);
  }

  /** Any other request does not. */
  lemma ExhaustedNever(n: nat, counts: seq<nat>, used: nat, c: nat)
    requires Tracks(n, counts, used) && Exhausted(n, counts + [c])
    ensures SomeServable(n, counts) && used + c > n
  {
    var more := counts + [c];
    var i :| 0 <= i < |more| && Servable(n, more[i]) && Total(more[i..]) > n;
    TotalFrom(counts, c, i);
    if i < |counts| {
      assert Servable(n, counts[i]) && Total(counts[i..]) <= used;
    }
  }

  /** Whether the next request exhausts the pool. */
  lemma ExhaustedGrows(n: nat, counts: seq<nat>, used: nat, c: nat)
    requires !Exhausted(n, counts) ==> Tracks(n, counts, used)
    ensures Exhausted(n, counts + [c]) <==> Exhausted(n, counts) || (SomeServable(n, counts) && used + c > n)
  {
    if Exhausted(n, counts) {
      ExhaustedStays(n, counts, c);
    } else {
      if SomeServable(n, counts) && used + c > n { ExhaustedNow(n, counts, used, c); }
      if Exhausted(n, counts + [c]) { ExhaustedNever(n, counts, used, c); }
    }
  }

  /** The outcomes, told from the requests alone. */
  ghost predicate Predicts(n: nat, counts: seq<nat>, used: nat, grants: seq<Option<Grant>>)
  {
    && (Granted(grants) <==> SomeServable(n, counts))
    && (FailedAfterGrant(grants) <==> Exhausted(n, counts))
    && (Regranted(grants) <==> StartsOver(n, counts))
    && (!Exhausted(n, counts) ==> Tracks(n, counts, used))
  }

  lemma PredictsNext(n: nat, counts: seq<nat>, used: nat, grants: seq<Option<Grant>>, c: nat)
    requires RunInv(used, grants) && Predicts(n, counts, used, grants)
    ensures var (used', g) := Request(n, used, c); Predicts(n, counts + [c], used', grants + [g])
  {
    var (used', g) := Request(n, used, c);
    AppendGrant(grants, g);
    SomeServableGrows(n, counts, c);
    StartsOverGrows(n, counts, c);
    ExhaustedGrows(n, counts, used, c);
    if !Exhausted(n, counts + [c]) {
      if used + c <= n { TracksServed(n, counts, used, c); }
    }
  }

  lemma ThreadRunNext(n: nat, counts: seq<nat>, c: nat)
    ensures var (used, grants) := ThreadRun(n, counts);
            var (used', g) := Request(n, used, c);
            ThreadRun(n, counts + [c]) == (used', grants + [g])
  {
    assert (counts + [c])[..|counts|] == counts;
  }

  ghost predicate RunPredicted(n: nat, counts: seq<nat>)
  {
    Predicts(n, counts, ThreadRun(n, counts).0, ThreadRun(n, counts).1)
  }

  lemma PredictedNext(n: nat, counts: seq<nat>, c: nat)
    requires RunPredicted(n, counts)
    ensures RunPredicted(n, counts + [c])
  {
    ThreadRunInv(n, counts);
    ThreadRunNext(n, counts, c);
    PredictsNext(n, counts, ThreadRun(n, counts).0, ThreadRun(n, counts).1, c);
  }

  lemma NothingPredicted(n: nat)
    ensures RunPredicted(n, [])
  {
  }

  lemma {:induction false} ThreadRunPredicted(n: nat, counts: seq<nat>)
    ensures RunPredicted(n, counts)
  {
    if counts == [] {
      NothingPredicted(n);
    } else {
      var k := |counts| - 1;
      ThreadRunPredicted(n, counts[..k]);
      PredictedNext(n, counts[..k], counts[k]);
      assert counts == counts[..k] + [counts[k]];
    }
  }

  /** Dedicated threads are handed out once exactly as long as no servable request follows the point
      where the requests, from a servable one on, asked for more than there are: the request that
      fails starts the pool over. */
  lemma ThreadsSingleUseExactly(n: nat, counts: seq<nat>)
    ensures SingleUse(ThreadRun(n, counts).1) <==> !StartsOver(n, counts)
  {
    ThreadRunInv(n, counts);
    ThreadRunPredicted(n, counts);
  }

  /** Two cpus; one is granted, two are refused, and then the first is granted again. */
  lemma ThreadGrantedTwice()
    ensures ThreadRun(2, [1, 2, 1]).1 == [Some(Grant(0, 1)), None, Some(Grant(0, 1))]
    ensures !SingleUse(ThreadRun(2, [1, 2, 1]).1)
  {
    var one, two, three: seq<nat> := [1], [1, 2], [1, 2, 1];
    assert three[..2] == two && two[..1] == one && one[..0] == [];
    assert ThreadRun(2, one).1 == [Some(Grant(0, 1))];
    assert ThreadRun(2, two).1 == [Some(Grant(0, 1)), None];
    var grants := ThreadRun(2, three).1;
    assert grants == [Some(Grant(0, 1)), None, Some(Grant(0, 1))];
    assert Overlap(grants[0], grants[2]);
  }

  ghost function FiberRun(n: nat, counts: seq<nat>): seq<Option<Grant>>
  {
    seq(|counts|, i requires 0 <= i < |counts| => FiberRequest(n, counts[i]))
  }

  /** Dedicated fiber threads are handed out once exactly when at most one request is non-empty and
      small enough to succeed: every successful request gets the same first queues. */
  lemma FibersSingleUseExactly(n: nat, counts: seq<nat>)
    ensures SingleUse(FiberRun(n, counts)) <==>
            forall i, k :: 0 <= i < k < |counts| ==> !(0 < counts[i] <= n && 0 < counts[k] <= n)
  {
    var grants := FiberRun(n, counts);
    forall i, k | 0 <= i < k < |counts|
      ensures Overlap(grants[i], grants[k]) <==> 0 < counts[i] <= n && 0 < counts[k] <= n
    {
    }
  }

  /** Two queues; two requests for one both get the first. */
  lemma FiberGrantedTwice()
    ensures FiberRun(2, [1, 1]) == [Some(Grant(0, 1)), Some(Grant(0, 1))]
    ensures !SingleUse(FiberRun(2, [1, 1]))
  {
    assert Overlap(FiberRun(2, [1, 1])[0], FiberRun(2, [1, 1])[1]);
  }

  // ---------------------------------------------------------------------------------------
  // Engines and contexts

  ghost function Times(x: nat, k: nat): seq<nat>
  {
    seq(k, _ => x)
  }

  /** Each element `k` times, element after element. */
  ghost function Product(elements: seq<nat>, k: nat): seq<nat>
  {
    if elements == [] then []
    else Product(elements[..|elements| - 1], k) + Times(elements[|elements| - 1], k)
  }

  lemma {:induction false} TimesCount(x: nat, k: nat, y: nat)
    ensures multiset(Times(x, k))[y] == if x == y then k else 0
  {
    if k > 0 {
      TimesCount(x, k - 1, y);
      assert Times(x, k) == Times(x, k - 1) + [x];
    }
  }

  lemma OneMore(a: nat, k: nat)
    ensures (a + 1) * k == a * k + k
  {
  }

  /** The engines number exactly elements times engines per element. */
  lemma {:induction false} ProductSize(elements: seq<nat>, k: nat)
    ensures |Product(elements, k)| == |elements| * k
  {
    if elements != [] {
      ProductSize(elements[..|elements| - 1], k);
      OneMore(|elements| - 1, k);
    }
  }

  /** Engine number `i` is backed by element number `i / k`. */
  lemma {:induction false} ProductAt(elements: seq<nat>, k: nat, i: nat)
    requires k > 0 && i < |Product(elements, k)|
    ensures i / k < |elements| && Product(elements, k)[i] == elements[i / k]
  {
    ProductSize(elements, k);
    var n := |elements| - 1;
    ProductSize(elements[..n], k);
    OneMore(n, k);
    if i < n * k {
      ProductAt(elements[..n], k, i);
    } else {
      DivMod(n, i - n * k, k);
    }
  }

  /** Every element backs exactly `k` engines, as many again for each time it occurs. */
  lemma {:induction false} ProductShares(elements: seq<nat>, k: nat, y: nat)
    ensures multiset(Product(elements, k))[y] == multiset(elements)[y] * k
  {
    if elements != [] {
      var n := |elements| - 1;
      var before, last := elements[..n], elements[n];
      var count: nat := multiset(elements[..n])[y];
      ProductShares(before, k, y);
      TimesCount(last, k, y);
      OneMore(count, k);
      assert elements == before + [last];
      assert multiset(elements)[y] == if last == y then count + 1 else count;
      assert multiset(Product(elements, k)) == multiset(Product(before, k)) + multiset(Times(last, k));
    }
  }

  /** Builds the launchers of a set of engines; none when a check on the options fails. `threads` is
      set for thread engines, which also check that there is at least one engine per element. */
  method InitializeLaunchers(peCount: nat, perElement: nat, elements: seq<nat>, threads: bool)
    returns (engines: Option<seq<nat>>)
    ensures engines.Some? <==> peCount == |elements| && (threads ==> perElement >= 1)
    ensures engines.Some? ==> engines.value == Product(elements, perElement)
  {
    if peCount != |elements| || (threads && perElement < 1) {
      return None;
    }
    var list := [];
    for i := 0 to |elements|
      invariant list == Product(elements[..i], perElement)
    {
      for j := 0 to perElement
        invariant list == Product(elements[..i], perElement) + Times(elements[i], j)
      {
        list := list + [elements[i]];
      }
      assert elements[..i + 1][..i] == elements[..i];
    }
    assert elements[..|elements|] == elements;
    return Some(list);
  }

  /** An engine runs one task: a second launch ends the process. */
  class Engine {
    var launched: bool
    var tasks: nat

    ghost predicate Valid()
      reads this
    {
      tasks == if launched then 1 else 0
    }

    constructor ()
      ensures Valid() && !launched
    {
      launched, tasks := false, 0;
    }

    method LaunchTask() returns (ok: bool)
      requires Valid()
      modifies this
      ensures Valid() && launched
      ensures ok <==> !old(launched)
    {
      if launched {
        return false;
      }
      launched := true;
      tasks := tasks + 1;
      return true;
    }
  }

  /** What an instance of a runnable is given: its rank, the number of instances, and the barrier. */
  datatype Context = Context(rank: nat, size: nat, barrier: ThreadBarrier.Barrier)

  /** One context per engine, ranked in order, all sharing one new barrier that awaits exactly that many
      threads; none when there is no engine, for which there is no barrier. */
  method MakeContexts(size: nat) returns (contexts: Option<seq<Context>>)
    ensures contexts.Some? <==> size > 0
    ensures contexts.Some? ==>
              && |contexts.value| == size
              && (forall i :: 0 <= i < size ==> contexts.value[i].rank == i && contexts.value[i].size == size)
              && (forall i :: 0 <= i < size ==> contexts.value[i].barrier == contexts.value[0].barrier)
              && fresh(contexts.value[0].barrier)
              && contexts.value[0].barrier.View() == ThreadBarrier.Init(size).fields
  {
    if size == 0 {
      return None;
    }
    var barrier := new ThreadBarrier.Barrier(size);
    var list := [];
    for i := 0 to size
      invariant |list| == i
      invariant forall k :: 0 <= k < i ==> list[k] == Context(k, size, barrier)
    {
      list := list + [Context(i, size, barrier)];
    }
    return Some(list);
  }
}
