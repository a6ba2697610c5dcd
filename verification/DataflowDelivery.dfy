/** Exactly-once delivery along every edge, and through a whole graph of default nodes. */
module DataflowDelivery {
  import opened Dataflow
  import opened DataflowSafety
  import opened Bags

  // ---------------------------------------------------------------------------------------
  // What the instances of a node got, sent, and still have to send

  ghost function GotParts<V>(insts: seq<Inst<V>>): seq<multiset<V>>
  {
    seq(|insts|, k requires 0 <= k < |insts| => multiset(insts[k].got))
  }

  ghost function SentParts<V>(insts: seq<Inst<V>>): seq<multiset<V>>
  {
    seq(|insts|, k requires 0 <= k < |insts| => multiset(insts[k].sent))
  }

  ghost function OutParts<V>(insts: seq<Inst<V>>): seq<multiset<V>>
  {
    seq(|insts|, k requires 0 <= k < |insts| => multiset(insts[k].outbox))
  }

  lemma PartsUpdate<V>(insts: seq<Inst<V>>, k: nat, t: Inst<V>)
    requires k < |insts|
    ensures Sum(GotParts(insts[k := t])) + multiset(insts[k].got) == Sum(GotParts(insts)) + multiset(t.got)
    ensures Sum(SentParts(insts[k := t])) + multiset(insts[k].sent) == Sum(SentParts(insts)) + multiset(t.sent)
    ensures Sum(OutParts(insts[k := t])) + multiset(insts[k].outbox) == Sum(OutParts(insts)) + multiset(t.outbox)
  {
    assert GotParts(insts[k := t]) == GotParts(insts)[k := multiset(t.got)];
    assert SentParts(insts[k := t]) == SentParts(insts)[k := multiset(t.sent)];
    assert OutParts(insts[k := t]) == OutParts(insts)[k := multiset(t.outbox)];
    SumUpdate(GotParts(insts), k, multiset(t.got));
    SumUpdate(SentParts(insts), k, multiset(t.sent));
    SumUpdate(OutParts(insts), k, multiset(t.outbox));
  }

  // ---------------------------------------------------------------------------------------
  // One node: everything taken from the channel was given to exactly one instance

  ghost predicate GivenOnce<V>(n: Node<V>)
  {
    && Sum(GotParts(n.insts)) == multiset(n.taken)
    && (|n.insts| == 1 ==> n.insts[0].got == n.taken)
  }

  lemma TakeGot<V>(n: Node<V>, k: nat, out: seq<V>)
    requires GivenOnce(n) && k < |n.insts| && n.buf != []
    ensures GivenOnce(Take(n, k, out))
  {
    var n', got, x := Take(n, k, out), multiset(n.insts[k].got), n.buf[0];
    PartsUpdate(n.insts, k, n'.insts[k]);
    assert multiset(n'.insts[k].got) == got + multiset{x} && multiset(n'.taken) == multiset(n.taken) + multiset{x};
    assert Sum(GotParts(n'.insts)) + got == multiset(n'.taken) + got;
    Cancel(Sum(GotParts(n'.insts)), multiset(n'.taken), got);
  }

  lemma OwnGot<V>(spec: Spec<V>, n: Node<V>, k: nat, act: Action<V>)
    requires GivenOnce(n) && Ready(spec, n, k, act)
    ensures GivenOnce(Own(n, k, act))
  {
    if act.Read? {
      TakeGot(n, k, act.out);
    } else {
      var n', got := Own(n, k, act), multiset(n.insts[k].got);
      PartsUpdate(n.insts, k, n'.insts[k]);
      Cancel(Sum(GotParts(n'.insts)), Sum(GotParts(n.insts)), got);
    }
  }

  // ---------------------------------------------------------------------------------------
  // One edge: everything a channel accepted was sent by exactly one instance feeding it

  ghost function FeedParts<V>(g: Graph<V>, s: State<V>, j: nat): seq<multiset<V>>
    requires |s| == |g|
  {
    seq(|g|, i requires 0 <= i < |g| => if Upstream(g, i, j) then Sum(SentParts(s[i].insts)) else multiset{})
  }

  ghost predicate SentOnce<V>(g: Graph<V>, s: State<V>, j: nat)
    requires |s| == |g| && j < |g|
  {
    Sum(FeedParts(g, s, j)) == multiset(s[j].accepted)
  }

  /** Each sender's values were accepted in the order it sent them. */
  ghost predicate SenderOrder<V>(g: Graph<V>, s: State<V>, j: nat)
    requires |s| == |g| && j < |g|
  {
    forall i, k :: 0 <= i < |g| && Upstream(g, i, j) && 0 <= k < |s[i].insts| ==>
      Subsequence(s[i].insts[k].sent, s[j].accepted)
  }

  ghost predicate FeedInv<V>(g: Graph<V>, s: State<V>, j: nat)
    requires |s| == |g| && j < |g|
  {
    SentOnce(g, s, j) && SenderOrder(g, s, j)
  }

  ghost predicate SameSent<V>(n: Node<V>, n': Node<V>)
  {
    && |n'.insts| == |n.insts|
    && forall k :: 0 <= k < |n.insts| ==> n'.insts[k].sent == n.insts[k].sent
  }

  /** Nobody feeding `j` sent anything. */
  lemma SameFeed<V>(g: Graph<V>, s: State<V>, s': State<V>, j: nat)
    requires |s| == |s'| == |g| && j < |g| && FeedInv(g, s, j) && s'[j].accepted == s[j].accepted
    requires forall i :: 0 <= i < |g| && Upstream(g, i, j) ==> SameSent(s[i], s'[i])
    ensures FeedInv(g, s', j)
  {
    forall i | 0 <= i < |g| && Upstream(g, i, j) ensures SentParts(s'[i].insts) == SentParts(s[i].insts) {
      assert SameSent(s[i], s'[i]);
    }
    assert FeedParts(g, s', j) == FeedParts(g, s, j);
    forall i, k | 0 <= i < |g| && Upstream(g, i, j) && 0 <= k < |s'[i].insts|
      ensures Subsequence(s'[i].insts[k].sent, s'[j].accepted)
    {
      assert SameSent(s[i], s'[i]);
    }
  }

  /** The state after instance `k` of `i` has sent its first emitted value to `j`. */
  ghost function AfterSend<V>(g: Graph<V>, s: State<V>, i: nat, k: nat, j: nat): State<V>
    requires |s| == |g| && i < |g| && j < |g| && k < |s[i].insts| && s[i].insts[k].outbox != []
  {
    s[i := Sent(s[i], k)][j := Accept(s[j], s[i].insts[k].outbox[0])]
  }

  lemma SendSum<V>(n: Node<V>, k: nat)
    requires k < |n.insts| && n.insts[k].outbox != []
    ensures Sum(SentParts(Sent(n, k).insts)) == Sum(SentParts(n.insts)) + multiset{n.insts[k].outbox[0]}
  {
    var t' := Sent(n, k).insts[k];
    PartsUpdate(n.insts, k, t');
    assert multiset(t'.sent) == multiset(n.insts[k].sent) + multiset{n.insts[k].outbox[0]};
    Cancel(Sum(SentParts(Sent(n, k).insts)), Sum(SentParts(n.insts)) + multiset{n.insts[k].outbox[0]},
           multiset(n.insts[k].sent));
  }

  lemma SendParts<V>(g: Graph<V>, s: State<V>, i: nat, k: nat, j: nat)
    requires |s| == |g| && i < |g| && j < |g| && i != j && Upstream(g, i, j)
    requires k < |s[i].insts| && s[i].insts[k].outbox != []
    ensures var parts := FeedParts(g, s, j);
            FeedParts(g, AfterSend(g, s, i, k, j), j) == parts[i := parts[i] + multiset{s[i].insts[k].outbox[0]}]
  {
    SendSum(s[i], k);
  }

  lemma SendOnce<V>(g: Graph<V>, s: State<V>, i: nat, k: nat, j: nat)
    requires |s| == |g| && i < |g| && j < |g| && i != j && Upstream(g, i, j) && SentOnce(g, s, j)
    requires k < |s[i].insts| && s[i].insts[k].outbox != []
    ensures SentOnce(g, AfterSend(g, s, i, k, j), j)
  {
    SendParts(g, s, i, k, j);
    SumGrow(FeedParts(g, s, j), i, multiset{s[i].insts[k].outbox[0]});
  }

  lemma SendOrder<V>(g: Graph<V>, s: State<V>, i: nat, k: nat, j: nat)
    requires |s| == |g| && i < |g| && j < |g| && i != j && SenderOrder(g, s, j)
    requires k < |s[i].insts| && s[i].insts[k].outbox != []
    ensures SenderOrder(g, AfterSend(g, s, i, k, j), j)
  {
    var s' := AfterSend(g, s, i, k, j);
    forall u, h | 0 <= u < |g| && Upstream(g, u, j) && 0 <= h < |s'[u].insts|
      ensures Subsequence(s'[u].insts[h].sent, s'[j].accepted)
    {
      SubsequenceGrows(s[u].insts[h].sent, s[j].accepted, s[i].insts[k].outbox[0]);
    }
  }

  lemma OwnSent<V>(spec: Spec<V>, n: Node<V>, k: nat, act: Action<V>)
    requires Ready(spec, n, k, act)
    ensures Own(n, k, act).accepted == n.accepted
    ensures !act.Write? ==> SameSent(n, Own(n, k, act))
  {
    if !act.Write? {
      var n' := Own(n, k, act);
      assert n'.insts == n.insts[k := n'.insts[k]] && n'.insts[k].sent == n.insts[k].sent;
    }
  }

  lemma QuietFeeds<V>(g: Graph<V>, rank: seq<nat>, s: State<V>, l: Step<V>, j: nat)
    requires WellFormed(g) && Ranked(g, rank) && Inv(g, s) && j < |g| && FeedInv(g, s, j)
    requires Enabled(g, s, l) && !(l.act.Write? && Upstream(g, l.i, j))
    ensures FeedInv(g, Next(g, s, l), j)
  {
    var s' := Next(g, s, l);
    OwnSent(g[l.i], s[l.i], l.k, l.act);
    forall i | 0 <= i < |g| && Upstream(g, i, j) ensures SameSent(s[i], s'[i]) {
      Effect(g, rank, s, l, i);
    }
    Effect(g, rank, s, l, j);
    SameFeed(g, s, s', j);
  }

  lemma StepFeeds<V>(g: Graph<V>, rank: seq<nat>, s: State<V>, l: Step<V>, j: nat)
    requires WellFormed(g) && Ranked(g, rank) && Inv(g, s) && j < |g| && FeedInv(g, s, j)
    ensures FeedInv(g, Next(g, s, l), j)
  {
    if Enabled(g, s, l) {
      if l.act.Write? && Upstream(g, l.i, j) {
        WriteReaches(g, rank, s, l);
        SendOnce(g, s, l.i, l.k, j);
        SendOrder(g, s, l.i, l.k, j);
      } else {
        QuietFeeds(g, rank, s, l, j);
      }
    }
  }

  lemma {:induction false} RunFeeds<V>(g: Graph<V>, rank: seq<nat>, steps: seq<Step<V>>, j: nat)
    requires WellFormed(g) && Ranked(g, rank) && j < |g|
    ensures FeedInv(g, Run(g, steps), j)
  {
    if steps == [] {
      var s := Init(g);
      forall i | 0 <= i < |g| ensures FeedParts(g, s, j)[i] == multiset{} {
        SumEmpty(SentParts(s[i].insts));
      }
      SumEmpty(FeedParts(g, s, j));
    } else {
      RunInv(g, steps[..|steps| - 1]);
      RunFeeds(g, rank, steps[..|steps| - 1], j);
      StepFeeds(g, rank, Run(g, steps[..|steps| - 1]), steps[|steps| - 1], j);
    }
  }

  lemma {:induction false} RunGives<V>(g: Graph<V>, rank: seq<nat>, steps: seq<Step<V>>, j: nat)
    requires WellFormed(g) && Ranked(g, rank) && j < |g|
    ensures GivenOnce(Run(g, steps)[j])
  {
    if steps == [] {
      SumEmpty(GotParts(Init(g)[j].insts));
    } else {
      var before, l := Run(g, steps[..|steps| - 1]), steps[|steps| - 1];
      RunInv(g, steps[..|steps| - 1]);
      RunGives(g, rank, steps[..|steps| - 1], j);
      if Enabled(g, before, l) {
        Effect(g, rank, before, l, j);
        if l.i == j { OwnGot(g[j], before[j], l.k, l.act); }
      }
    }
  }

  /** The channel is first-in first-out and within capacity; nothing this node wrote went to a closed
      or a missing channel; and once one of its instances is past reading, the channel is closed and
      everything it accepted has been taken. */
  ghost predicate CleanChannel<V>(spec: Spec<V>, n: Node<V>)
  {
    && n.accepted == n.taken + n.buf
    && (!spec.source ==> |n.buf| <= spec.capacity)
    && n.lost == [] && !n.thrown
    && forall k :: 0 <= k < |n.insts| && n.insts[k].phase.Ord() > Subscribed.Ord() && !spec.source ==>
         n.closed && n.taken == n.accepted
  }

  lemma InvClean<V>(spec: Spec<V>, n: Node<V>)
    requires NodeInv(spec, n)
    ensures CleanChannel(spec, n)
  {
    forall k | 0 <= k < |n.insts| && n.insts[k].phase.Ord() > Subscribed.Ord() && !spec.source
      ensures n.closed && n.taken == n.accepted
    {
      assert InstInv(spec, n, n.insts[k]);
    }
  }

  ghost predicate Delivers<V>(g: Graph<V>, s: State<V>, j: nat)
    requires |s| == |g| && j < |g|
  {
    CleanChannel(g[j], s[j]) && SentOnce(g, s, j) && SenderOrder(g, s, j) && GivenOnce(s[j])
  }

  /** In every run and for every node: the channel keeps what it promises; what it accepted is exactly
      what the instances feeding it sent, each sender's values in order; and what was taken from it
      was given to exactly one of its instances, in order when there is just one. */
  lemma ExactlyOnce<V>(g: Graph<V>, steps: seq<Step<V>>, j: nat)
    requires WellFormed(g) && Acyclic(g) && j < |g|
    ensures Delivers(g, Run(g, steps), j)
  {
    var rank :| Ranked(g, rank);
    RunInv(g, steps);
    InvClean(g[j], Run(g, steps)[j]);
    RunFeeds(g, rank, steps, j);
    RunGives(g, rank, steps, j);
  }
}
