/** The order of a node's callbacks: data, then every subscribe returning, then the critical section
    on rank 0 once, then every return from `run`. */
module DataflowOrder {
  import opened Dataflow
  import opened DataflowSafety

  /** Whether an event may come after the events `before`. */
  ghost predicate Allowed(width: nat, before: seq<Event>, e: Event)
  {
    match e
    case Data(k) => SubscribeReturned(k) !in before && forall j :: Section(j) !in before
    case SubscribeReturned(k) => SubscribeReturned(k) !in before
    case Section(k) =>
      k == 0 && (forall j :: Section(j) !in before) && forall j :: 0 <= j < width ==> SubscribeReturned(j) in before
    case RunReturned(k) => Section(0) in before && RunReturned(k) !in before
  }

  ghost predicate Ordered(width: nat, log: seq<Event>)
  {
    log == [] || (Ordered(width, log[..|log| - 1]) && Allowed(width, log[..|log| - 1], log[|log| - 1]))
  }

  lemma AppendOrdered(width: nat, log: seq<Event>, e: Event)
    requires Ordered(width, log) && Allowed(width, log, e)
    ensures Ordered(width, log + [e])
  {
    assert (log + [e])[..|log|] == log;
  }

  /** The log agrees with the phase of instance `k`. */
  ghost predicate Agrees(p: Phase, k: nat, log: seq<Event>)
  {
    && (SubscribeReturned(k) in log <==> p.Ord() >= AtShutdown.Ord())
    && (RunReturned(k) in log <==> p.Finished?)
    && (Section(k) in log <==> k == 0 && p.Ord() >= AtFinish.Ord())
  }

  ghost predicate LogInv<V>(n: Node<V>)
  {
    && Ordered(|n.insts|, n.log)
    && (forall k: nat :: Section(k) in n.log ==> k < |n.insts|)
    && (forall k :: 0 <= k < |n.insts| ==> Agrees(n.insts[k].phase, k, n.log))
  }

  lemma NoSectionYet<V>(spec: Spec<V>, n: Node<V>, k: nat)
    requires NodeInv(spec, n) && LogInv(n) && k < |n.insts|
    requires n.insts[k].phase.Ord() <= Completing.Ord() || n.insts[0].phase.Ord() < AtFinish.Ord()
    ensures forall j :: Section(j) !in n.log
  {
    assert BarrierOrder(n.insts[0].phase, n.insts[k].phase);
    forall j: nat ensures Section(j) !in n.log {
      if j < |n.insts| { assert Agrees(n.insts[j].phase, j, n.log); }
    }
  }

  /** One instance changes phase and `e` is logged. */
  lemma LogOne<V>(n: Node<V>, k: nat, n': Node<V>, e: Event)
    requires LogInv(n) && k < |n.insts| && Allowed(|n.insts|, n.log, e)
    requires n'.log == n.log + [e] && |n'.insts| == |n.insts| && e.k == k
    requires forall j :: 0 <= j < |n.insts| && j != k ==> n'.insts[j].phase == n.insts[j].phase
    requires Agrees(n'.insts[k].phase, k, n'.log)
    ensures LogInv(n')
  {
    AppendOrdered(|n.insts|, n.log, e);
    forall j | 0 <= j < |n.insts| ensures Agrees(n'.insts[j].phase, j, n'.log) {
      assert Agrees(n.insts[j].phase, j, n.log);
    }
  }

  lemma TakeLog<V>(spec: Spec<V>, n: Node<V>, k: nat, out: seq<V>)
    requires NodeInv(spec, n) && LogInv(n) && Ready(spec, n, k, Read(out))
    ensures LogInv(Take(n, k, out))
  {
    NoSectionYet(spec, n, k);
    assert Agrees(n.insts[k].phase, k, n.log);
    LogOne(n, k, Take(n, k, out), Data(k));
  }

  lemma ReturnLog<V>(n: Node<V>, k: nat)
    requires LogInv(n) && k < |n.insts| && n.insts[k].phase.Completing?
    ensures LogInv(Pass(n, k, Return))
  {
    assert Agrees(n.insts[k].phase, k, n.log);
    LogOne(n, k, Pass(n, k, Return), SubscribeReturned(k));
  }

  lemma FinishLog<V>(n: Node<V>, k: nat)
    requires LogInv(n) && k < |n.insts| && n.insts[k].phase.AtFinish? && n.insts[0].phase.Ord() >= AtFinish.Ord()
    ensures LogInv(Pass(n, k, LeaveFinish))
  {
    assert Agrees(n.insts[k].phase, k, n.log) && Agrees(n.insts[0].phase, 0, n.log);
    LogOne(n, k, Pass(n, k, LeaveFinish), RunReturned(k));
  }

  /** Phase changes that are not logged. */
  lemma QuietLog<V>(n: Node<V>, k: nat, n': Node<V>)
    requires LogInv(n) && k < |n.insts| && n'.log == n.log && |n'.insts| == |n.insts|
    requires forall j :: 0 <= j < |n.insts| && j != k ==> n'.insts[j].phase == n.insts[j].phase
    requires var p, q := n.insts[k].phase, n'.insts[k].phase;
             && (p.Ord() >= AtShutdown.Ord() <==> q.Ord() >= AtShutdown.Ord())
             && (k == 0 ==> (p.Ord() >= AtFinish.Ord() <==> q.Ord() >= AtFinish.Ord()))
             && !p.Finished? && !q.Finished?
    ensures LogInv(n')
  {
    forall j | 0 <= j < |n.insts| ensures Agrees(n'.insts[j].phase, j, n'.log) {
      assert Agrees(n.insts[j].phase, j, n.log);
    }
  }

  lemma PassLog<V>(spec: Spec<V>, n: Node<V>, k: nat, act: Action<V>)
    requires |n.insts| > 0 && LogInv(n) && Ready(spec, n, k, act)
    requires !act.Read? && !act.Write? && !act.RunSection?
    ensures LogInv(Pass(n, k, act))
  {
    if act.Return? {
      ReturnLog(n, k);
    } else if act.LeaveFinish? {
      FinishLog(n, k);
    } else {
      assert n.log + [] == n.log;
      QuietLog(n, k, Pass(n, k, act));
    }
  }

  lemma SectionLog<V>(spec: Spec<V>, n: Node<V>, k: nat)
    requires NodeInv(spec, n) && LogInv(n) && Ready(spec, n, k, RunSection)
    ensures LogInv(Own(n, k, RunSection))
  {
    var n' := Own(n, k, RunSection);
    assert Agrees(n.insts[k].phase, k, n.log);
    if k == 0 {
      forall j | 0 <= j < |n.insts| ensures SubscribeReturned(j) in n.log {
        assert BarrierOrder(n.insts[0].phase, n.insts[j].phase);
        assert Agrees(n.insts[j].phase, j, n.log);
      }
      NoSectionYet(spec, n, 0);
      LogOne(n, 0, n', Section(0));
    } else {
      QuietLog(n, k, n');
    }
  }

  /** A change that leaves the phases and the log alone. */
  lemma SameLog<V>(n: Node<V>, n': Node<V>)
    requires LogInv(n) && n'.log == n.log && |n'.insts| == |n.insts|
    requires forall k :: 0 <= k < |n.insts| ==> n'.insts[k].phase == n.insts[k].phase
    ensures LogInv(n')
  {
  }

  lemma OwnLog<V>(spec: Spec<V>, n: Node<V>, k: nat, act: Action<V>)
    requires NodeInv(spec, n) && LogInv(n) && Ready(spec, n, k, act)
    ensures LogInv(Own(n, k, act))
  {
    if act.Write? {
      SameLog(n, Sent(n, k));
    } else if act.Read? {
      TakeLog(spec, n, k, act.out);
    } else if act.RunSection? {
      SectionLog(spec, n, k);
    } else {
      PassLog(spec, n, k, act);
    }
  }

  lemma StepLog<V>(g: Graph<V>, rank: seq<nat>, s: State<V>, l: Step<V>, u: nat)
    requires WellFormed(g) && Ranked(g, rank) && Inv(g, s) && u < |g| && LogInv(s[u])
    ensures LogInv(Next(g, s, l)[u])
  {
    if Enabled(g, s, l) {
      Effect(g, rank, s, l, u);
      if u == l.i { OwnLog(g[u], s[u], l.k, l.act); } else { SameLog(s[u], Next(g, s, l)[u]); }
    }
  }

  lemma {:induction false} RunLog<V>(g: Graph<V>, rank: seq<nat>, steps: seq<Step<V>>, u: nat)
    requires WellFormed(g) && Ranked(g, rank) && u < |g|
    ensures LogInv(Run(g, steps)[u])
  {
    if steps != [] {
      var before := steps[..|steps| - 1];
      RunInv(g, before);
      RunLog(g, rank, before, u);
      StepLog(g, rank, Run(g, before), steps[|steps| - 1], u);
    }
  }

  /** In every run, every node's callbacks come in the shutdown order: the critical section runs at
      most once, on rank 0, after every instance's subscribe has returned and with no data after it,
      and no instance returns from `run` before it; a node whose instances have all returned has run
      it. */
  lemma ShutdownOrder<V>(g: Graph<V>, steps: seq<Step<V>>, u: nat)
    requires WellFormed(g) && Acyclic(g) && u < |g|
    ensures var n := Run(g, steps)[u];
            Ordered(|g[u].items|, n.log) && (AllFinished(n) ==> Section(0) in n.log)
  {
    var rank :| Ranked(g, rank);
    RunLog(g, rank, steps, u);
    RunInv(g, steps);
    var n := Run(g, steps)[u];
    assert NodeInv(g[u], n) && Agrees(n.insts[0].phase, 0, n.log);
  }

  // ---------------------------------------------------------------------------------------
  // Every value read is a data callback

  /** Instance `k` has had one data callback for each value it was given. */
  ghost predicate DataLogged<V>(n: Node<V>, k: nat)
  {
    k < |n.insts| && multiset(n.log)[Data(k)] == |n.insts[k].got|
  }

  lemma LogMore(log: seq<Event>, more: seq<Event>, k: nat)
    ensures multiset(log + more)[Data(k)] == multiset(log)[Data(k)] + multiset(more)[Data(k)]
  {
  }

  /** What an action of instance `j` adds to the log. */
  ghost function Logged<V>(j: nat, act: Action<V>): seq<Event>
  {
    if act.Read? then [Data(j)]
    else if act.Return? then [SubscribeReturned(j)]
    else if act.LeaveFinish? then [RunReturned(j)]
    else if act.RunSection? && j == 0 then [Section(j)]
    else []
  }

  lemma OwnLogged<V>(spec: Spec<V>, n: Node<V>, j: nat, act: Action<V>)
    requires Ready(spec, n, j, act)
    ensures Own(n, j, act).log == n.log + Logged(j, act)
  {
  }

  lemma OwnGiven<V>(spec: Spec<V>, n: Node<V>, j: nat, act: Action<V>, k: nat)
    requires Ready(spec, n, j, act) && k < |n.insts|
    ensures var n' := Own(n, j, act);
            |n'.insts| == |n.insts| &&
            |n'.insts[k].got| == |n.insts[k].got| + (if act.Read? && j == k then 1 else 0)
  {
  }

  lemma OwnData<V>(spec: Spec<V>, n: Node<V>, j: nat, act: Action<V>, k: nat)
    requires Ready(spec, n, j, act) && DataLogged(n, k)
    ensures DataLogged(Own(n, j, act), k)
  {
    OwnLogged(spec, n, j, act);
    OwnGiven(spec, n, j, act, k);
    LogMore(n.log, Logged(j, act), k);
  }

  lemma {:induction false} RunData<V>(g: Graph<V>, rank: seq<nat>, steps: seq<Step<V>>, u: nat, k: nat)
    requires WellFormed(g) && Ranked(g, rank) && u < |g| && k < |g[u].items|
    ensures DataLogged(Run(g, steps)[u], k)
    decreases |steps|
  {
    if steps != [] {
      var before, l := steps[..|steps| - 1], steps[|steps| - 1];
      RunInv(g, before);
      RunData(g, rank, before, u, k);
      if Enabled(g, Run(g, before), l) {
        Effect(g, rank, Run(g, before), l, u);
        if l.i == u { OwnData(g[u], Run(g, before)[u], l.k, l.act, k); }
      }
    }
  }

  /** In every run every instance of every node has had exactly one data callback per value it was given. */
  lemma DataCallbacks<V>(g: Graph<V>, steps: seq<Step<V>>, u: nat, k: nat)
    requires WellFormed(g) && Acyclic(g) && u < |g| && k < |g[u].items|
    ensures DataLogged(Run(g, steps)[u], k)
  {
    var rank :| Ranked(g, rank);
    RunData(g, rank, steps, u, k);
  }
}
