/** What operators emit is what is written: for every instance, the values it has sent and those it has still
    to send are those its operator emitted, in order, on reading, on completion, or as a source. */
module DataflowEmission {
  import opened Bags
  import opened Dataflow
  import opened DataflowDelivery
  import opened DataflowSafety

  /** What the step makes instance `k` of node `i` emit. */
  ghost function EmittedAt<V>(g: Graph<V>, s: State<V>, l: Step<V>, i: nat, k: nat): seq<V>
  {
    if Enabled(g, s, l) && l.i == i && l.k == k && (l.act.Read? || l.act.Complete?) then l.act.out else []
  }

  /** Everything instance `k` of node `i` has emitted: its own values first, then what each of its reads and its
      completion produced. */
  ghost function EmittedBy<V>(g: Graph<V>, steps: seq<Step<V>>, i: nat, k: nat): seq<V>
    requires i < |g| && k < |g[i].items|
  {
    if steps == [] then g[i].items[k]
    else
      var before := steps[..|steps| - 1];
      EmittedBy(g, before, i, k) + EmittedAt(g, Run(g, before), steps[|steps| - 1], i, k)
  }

  ghost function Pipe<V>(t: Inst<V>): seq<V>
  {
    t.sent + t.outbox
  }

  /** One step of an instance adds what its operator emits at the end of what it has to send. */
  lemma OwnEmits<V>(spec: Spec<V>, n: Node<V>, k: nat, act: Action<V>)
    requires Ready(spec, n, k, act)
    ensures var t' := Own(n, k, act).insts[k];
            Pipe(t') == Pipe(n.insts[k]) + (if act.Read? || act.Complete? then act.out else [])
  {
    var t, t' := n.insts[k], Own(n, k, act).insts[k];
    if act.Write? {
      assert t.outbox == [t.outbox[0]] + t.outbox[1..];
      assert (t.sent + [t.outbox[0]]) + t.outbox[1..] == t.sent + t.outbox;
    } else if act.Read? || act.Complete? {
      assert t.outbox == [] && t'.outbox == act.out && t'.sent == t.sent;
    } else {
      assert t'.outbox == t.outbox && t'.sent == t.sent;
    }
  }

  /** Nothing another instance does touches it. */
  lemma OthersStay<V>(n: Node<V>, k: nat, act: Action<V>, j: nat)
    requires k < |n.insts| && j < |n.insts| && j != k
    requires act.Write? ==> n.insts[k].outbox != []
    requires act.Read? ==> n.buf != []
    ensures Own(n, k, act).insts[j] == n.insts[j]
  {
  }

  /** What instance `k` of the node has sent and has still to send is `emitted`. */
  ghost predicate Sends<V>(n: Node<V>, k: nat, emitted: seq<V>)
  {
    k < |n.insts| && Pipe(n.insts[k]) == emitted
  }

  lemma OwnSends<V>(spec: Spec<V>, n: Node<V>, j: nat, act: Action<V>, k: nat, emitted: seq<V>)
    requires Ready(spec, n, j, act) && Sends(n, k, emitted)
    ensures Sends(Own(n, j, act), k, emitted + (if j == k && (act.Read? || act.Complete?) then act.out else []))
  {
    if j == k {
      OwnEmits(spec, n, k, act);
    } else {
      OthersStay(n, j, act, k);
      assert |Own(n, j, act).insts| == |n.insts| && emitted + [] == emitted;
    }
  }

  lemma StepEmits<V>(g: Graph<V>, rank: seq<nat>, s: State<V>, l: Step<V>, i: nat, k: nat, emitted: seq<V>)
    requires WellFormed(g) && Ranked(g, rank) && Inv(g, s) && Enabled(g, s, l) && i < |g| && Sends(s[i], k, emitted)
    ensures Sends(Next(g, s, l)[i], k, emitted + EmittedAt(g, s, l, i, k))
  {
    Effect(g, rank, s, l, i);
    if l.i == i {
      OwnSends(g[i], s[i], l.k, l.act, k, emitted);
    } else {
      assert emitted + [] == emitted;
    }
  }

  lemma InitSends<V>(g: Graph<V>, i: nat, k: nat)
    requires i < |g| && k < |g[i].items|
    ensures Sends(Init(g)[i], k, g[i].items[k])
  {
    assert [] + g[i].items[k] == g[i].items[k];
  }

  lemma {:induction false} RunSends<V>(g: Graph<V>, rank: seq<nat>, steps: seq<Step<V>>, i: nat, k: nat)
    requires WellFormed(g) && Ranked(g, rank) && i < |g| && k < |g[i].items|
    ensures Sends(Run(g, steps)[i], k, EmittedBy(g, steps, i, k))
    decreases |steps|
  {
    if steps == [] {
      InitSends(g, i, k);
    } else {
      var before, l := steps[..|steps| - 1], steps[|steps| - 1];
      RunSends(g, rank, before, i, k);
      if Enabled(g, Run(g, before), l) {
        RunInv(g, before);
        StepEmits(g, rank, Run(g, before), l, i, k, EmittedBy(g, before, i, k));
      } else {
        assert EmittedBy(g, before, i, k) + [] == EmittedBy(g, before, i, k);
      }
    }
  }

  /** In every run and for every instance: what it has sent, and then what it still has to send, is what its
      operator emitted, in order. */
  lemma EmittedIsSent<V>(g: Graph<V>, steps: seq<Step<V>>, i: nat, k: nat)
    requires WellFormed(g) && Acyclic(g) && i < |g| && k < |g[i].items|
    ensures Sends(Run(g, steps)[i], k, EmittedBy(g, steps, i, k))
  {
    var rank :| Ranked(g, rank);
    RunSends(g, rank, steps, i, k);
  }

  // ---------------------------------------------------------------------------------------
  // Every node has finished: everything emitted has been accepted

  ghost function EmittedParts<V>(g: Graph<V>, steps: seq<Step<V>>, i: nat): seq<multiset<V>>
    requires i < |g|
  {
    seq(|g[i].items|, k requires 0 <= k < |g[i].items| => multiset(EmittedBy(g, steps, i, k)))
  }

  /** What the feeders of `j` emitted, feeder by feeder. */
  ghost function EmittedTo<V>(g: Graph<V>, steps: seq<Step<V>>, j: nat): seq<multiset<V>>
  {
    seq(|g|, i requires 0 <= i < |g| => if Upstream(g, i, j) then Sum(EmittedParts(g, steps, i)) else multiset{})
  }

  lemma FinishedHasSent<V>(spec: Spec<V>, n: Node<V>, k: nat, emitted: seq<V>)
    requires NodeInv(spec, n) && AllFinished(n) && Sends(n, k, emitted)
    ensures n.insts[k].sent == emitted
  {
    assert InstInv(spec, n, n.insts[k]);
    assert n.insts[k].sent + [] == n.insts[k].sent;
  }

  lemma SameWidth<V>(g: Graph<V>, s: State<V>, i: nat)
    requires Inv(g, s) && i < |g|
    ensures NodeInv(g[i], s[i]) && |s[i].insts| == |g[i].items|
  {
  }

  lemma FinishedSentAll<V>(g: Graph<V>, rank: seq<nat>, steps: seq<Step<V>>, i: nat)
    requires WellFormed(g) && Ranked(g, rank) && i < |g| && AllFinished(Run(g, steps)[i])
    ensures SentParts(Run(g, steps)[i].insts) == EmittedParts(g, steps, i)
  {
    RunInv(g, steps);
    SameWidth(g, Run(g, steps), i);
    forall k | 0 <= k < |g[i].items|
      ensures Run(g, steps)[i].insts[k].sent == EmittedBy(g, steps, i, k)
    {
      RunSends(g, rank, steps, i, k);
      FinishedHasSent(g[i], Run(g, steps)[i], k, EmittedBy(g, steps, i, k));
    }
  }

  /** Whatever the operators do: once the feeders of a node have finished, its channel has accepted exactly
      what their operators emitted, value for value. */
  lemma AcceptedIsEmitted<V>(g: Graph<V>, steps: seq<Step<V>>, j: nat)
    requires WellFormed(g) && Acyclic(g) && j < |g|
    requires forall i :: 0 <= i < |g| && Upstream(g, i, j) ==> AllFinished(Run(g, steps)[i])
    ensures multiset(Run(g, steps)[j].accepted) == Sum(EmittedTo(g, steps, j))
  {
    var rank :| Ranked(g, rank);
    ExactlyOnce(g, steps, j);
    forall i | 0 <= i < |g| && Upstream(g, i, j)
      ensures Sum(SentParts(Run(g, steps)[i].insts)) == Sum(EmittedParts(g, steps, i))
    {
      FinishedSentAll(g, rank, steps, i);
    }
    assert FeedParts(g, Run(g, steps), j) == EmittedTo(g, steps, j);
  }
}
