/** Shutdown cascades and ends: a graph that has not finished can always take a step, and no run
    takes steps for ever. */
module DataflowLiveness {
  import opened Dataflow
  import opened DataflowSafety
  import opened Finite

  // ---------------------------------------------------------------------------------------
  // Progress

  /** A member of `nodes` of greatest rank. */
  lemma {:induction false} Topmost(nodes: set<nat>, rank: seq<nat>) returns (m: nat)
    requires nodes != {} && forall i :: i in nodes ==> i < |rank|
    ensures m in nodes && forall i :: i in nodes ==> rank[i] <= rank[m]
    decreases nodes
  {
    m :| m in nodes;
    if nodes != {m} {
      var best := Topmost(nodes - {m}, rank);
      m := if rank[best] > rank[m] then best else m;
    }
  }

  /** A node with something in its channel can still read it, unless it has emitted values to write. */
  lemma ReaderMoves<V>(spec: Spec<V>, n: Node<V>) returns (k: nat, act: Action<V>)
    requires NodeInv(spec, n) && !spec.source && n.buf != []
    ensures Ready(spec, n, k, act)
  {
    assert forall k :: 0 <= k < |n.insts| ==> InstInv(spec, n, n.insts[k]);
    if j :| 0 <= j < |n.insts| && n.insts[j].phase.Launched? {
      k, act := j, Arrive;
    } else if j :| 0 <= j < |n.insts| && n.insts[j].phase.AtStart? {
      k, act := j, LeaveStart;
    } else {
      k, act := 0, if n.insts[0].outbox == [] then Read([]) else Write;
    }
  }

  lemma {:induction false} FullNodeMoves<V>(g: Graph<V>, rank: seq<nat>, s: State<V>, j: nat) returns (l: Step<V>)
    requires WellFormed(g) && Ranked(g, rank) && Inv(g, s)
    requires j < |g| && !g[j].source && s[j].buf != []
    ensures Enabled(g, s, l)
    decreases rank[j]
  {
    var k, act := ReaderMoves(g[j], s[j]);
    l := Step(j, k, act);
    if act.Write? { l := WriterMoves(g, rank, s, j, k); }
  }

  /** An instance with something to write can write it, or the node that blocks it can move. */
  lemma {:induction false} WriterMoves<V>(g: Graph<V>, rank: seq<nat>, s: State<V>, i: nat, k: nat) returns (l: Step<V>)
    requires WellFormed(g) && Ranked(g, rank) && Inv(g, s)
    requires i < |g| && Ready(g[i], s[i], k, Write)
    ensures Enabled(g, s, l)
    decreases rank[i], 0
  {
    if !Blocked(g, s, i) {
      l := Step(i, k, Write);
    } else {
      var j := g[i].down.value;
      assert WellFormedNode(g, i) && WellFormedNode(g, j) && Upstream(g, i, j);
      l := FullNodeMoves(g, rank, s, j);
    }
  }

  /** When all its feeders have finished, a node's channel is closed. */
  lemma FinishedFeedersClose<V>(g: Graph<V>, s: State<V>, m: nat)
    requires WellFormed(g) && Inv(g, s) && m < |g| && !g[m].source
    requires forall u: nat :: Upstream(g, u, m) ==> AllFinished(s[u])
    ensures s[m].closed
  {
    assert NodeInv(g[m], s[m]);
    forall u: nat | Upstream(g, u, m) ensures !s[u].held {
      assert NodeInv(g[u], s[u]);
    }
    assert Holders(g, s, m) == {};
  }

  /** A node between barriers, its channel closed if it has one, can move. */
  lemma BusyNodeMoves<V>(g: Graph<V>, rank: seq<nat>, s: State<V>, m: nat, k: nat) returns (l: Step<V>)
    requires WellFormed(g) && Ranked(g, rank) && Inv(g, s)
    requires m < |g| && k < |s[m].insts| && (g[m].source || s[m].closed)
    requires BetweenBarriers(s[m].insts[k].phase)
    ensures Enabled(g, s, l)
  {
    var t := s[m].insts[k];
    if t.phase.Launched? {
      l := Step(m, k, Arrive);
    } else if t.phase.Critical? {
      l := Step(m, k, RunSection);
    } else if t.outbox != [] {
      l := WriterMoves(g, rank, s, m, k);
    } else if t.phase.Completing? {
      l := Step(m, k, Return);
    } else if !g[m].source && s[m].buf != [] {
      l := Step(m, k, Read([]));
    } else {
      l := Step(m, k, Complete([]));
    }
  }

  /** A node all of whose instances sit in barriers, not all of them done, can move. */
  lemma WaitingNodeMoves<V>(g: Graph<V>, s: State<V>, m: nat) returns (l: Step<V>)
    requires |s| == |g| && m < |g| && !AllFinished(s[m])
    requires forall k :: 0 <= k < |s[m].insts| ==> !BetweenBarriers(s[m].insts[k].phase)
    ensures Enabled(g, s, l)
  {
    var n := s[m];
    if k :| 0 <= k < |n.insts| && n.insts[k].phase.AtStart? {
      l := Step(m, k, LeaveStart);
    } else if k :| 0 <= k < |n.insts| && n.insts[k].phase.AtShutdown? {
      l := Step(m, k, LeaveShutdown);
    } else {
      var k :| 0 <= k < |n.insts| && !n.insts[k].phase.Finished?;
      l := Step(m, k, LeaveFinish);
    }
  }

  ghost predicate BetweenBarriers(p: Phase)
  {
    p.Launched? || p.Subscribed? || p.Completing? || p.Critical?
  }

  /** An unfinished node whose feeders have all finished can move. */
  lemma UnfinishedMoves<V>(g: Graph<V>, rank: seq<nat>, s: State<V>, m: nat) returns (l: Step<V>)
    requires WellFormed(g) && Ranked(g, rank) && Inv(g, s) && m < |g| && !AllFinished(s[m])
    requires forall u: nat :: Upstream(g, u, m) ==> AllFinished(s[u])
    ensures Enabled(g, s, l)
  {
    if !g[m].source { FinishedFeedersClose(g, s, m); }
    if k :| 0 <= k < |s[m].insts| && BetweenBarriers(s[m].insts[k].phase) {
      l := BusyNodeMoves(g, rank, s, m, k);
    } else {
      l := WaitingNodeMoves(g, s, m);
    }
  }

  /** Until every instance of every node has returned from `run`, some step is enabled. */
  lemma Progress<V>(g: Graph<V>, s: State<V>) returns (l: Step<V>)
    requires WellFormed(g) && Acyclic(g) && Inv(g, s)
    requires exists i :: 0 <= i < |g| && !AllFinished(s[i])
    ensures Enabled(g, s, l)
  {
    var rank :| Ranked(g, rank);
    var busy: set<nat> := set i | 0 <= i < |g| && !AllFinished(s[i]);
    var i :| 0 <= i < |g| && !AllFinished(s[i]);
    assert i in busy;
    var m := Topmost(busy, rank);
    forall u: nat | Upstream(g, u, m) ensures AllFinished(s[u]) {
      assert rank[m] < rank[u];
    }
    l := UnfinishedMoves(g, rank, s, m);
  }

  // ---------------------------------------------------------------------------------------
  // Termination

  ghost function Total<V>(insts: seq<Inst<V>>, f: Inst<V> -> nat): nat
  {
    if insts == [] then 0 else f(insts[0]) + Total(insts[1..], f)
  }

  lemma {:induction false} TotalUpdate<V>(insts: seq<Inst<V>>, f: Inst<V> -> nat, k: nat, t: Inst<V>)
    requires k < |insts|
    ensures Total(insts[k := t], f) + f(insts[k]) == Total(insts, f) + f(t)
  {
    if k == 0 {
      assert insts[k := t][1..] == insts[1..];
    } else {
      assert insts[k := t][1..] == insts[1..][k - 1 := t];
      TotalUpdate(insts[1..], f, k - 1, t);
    }
  }

  ghost function Early<V>(t: Inst<V>): nat { if t.phase.Ord() <= Subscribed.Ord() then 1 else 0 }
  ghost function Pending<V>(t: Inst<V>): nat { |t.outbox| }
  ghost function Ahead<V>(t: Inst<V>): nat { Finished.Ord() - t.phase.Ord() }

  /** What a node has left to do, most significant part first: values to read and completions to
      see, values to write, phases to pass. */
  datatype Work = Work(input: nat, output: nat, phases: nat)

  ghost function Remaining<V>(n: Node<V>): Work
  {
    Work(|n.buf| + Total(n.insts, Early), Total(n.insts, Pending), Total(n.insts, Ahead))
  }

  predicate Less(a: Work, b: Work)
  {
    || a.input < b.input
    || (a.input == b.input && a.output < b.output)
    || (a.input == b.input && a.output == b.output && a.phases < b.phases)
  }

  lemma WorkUpdate<V>(n: Node<V>, k: nat, t: Inst<V>)
    requires k < |n.insts|
    ensures var w, w' := Remaining(n), Remaining(SetInst(n, k, t));
            && w'.input + Early(n.insts[k]) == w.input + Early(t)
            && w'.output + Pending(n.insts[k]) == w.output + Pending(t)
            && w'.phases + Ahead(n.insts[k]) == w.phases + Ahead(t)
  {
    TotalUpdate(n.insts, Early, k, t);
    TotalUpdate(n.insts, Pending, k, t);
    TotalUpdate(n.insts, Ahead, k, t);
  }

  lemma WriteWorks<V>(n: Node<V>, k: nat)
    requires k < |n.insts| && n.insts[k].outbox != []
    ensures Less(Remaining(Sent(n, k)), Remaining(n))
  {
    WorkUpdate(n, k, Sent(n, k).insts[k]);
  }

  lemma ReadWorks<V>(n: Node<V>, k: nat, out: seq<V>)
    requires k < |n.insts| && n.buf != []
    ensures Less(Remaining(Take(n, k, out)), Remaining(n))
  {
    WorkUpdate(n, k, Take(n, k, out).insts[k]);
  }

  lemma PassWorks<V>(spec: Spec<V>, n: Node<V>, k: nat, act: Action<V>)
    requires Ready(spec, n, k, act) && !act.Read? && !act.Write?
    ensures Less(Remaining(Pass(n, k, act)), Remaining(n))
  {
    var t, t' := n.insts[k], Pass(n, k, act).insts[k];
    WorkUpdate(n, k, t');
    assert if act.Complete? then Early(t') < Early(t)
           else Early(t') <= Early(t) && Pending(t') == Pending(t) && Ahead(t') < Ahead(t);
  }

  /** Every step leaves its own node less to do, whatever its operator emits. */
  lemma StepWorks<V>(spec: Spec<V>, n: Node<V>, k: nat, act: Action<V>)
    requires Ready(spec, n, k, act)
    ensures Less(Remaining(Own(n, k, act)), Remaining(n))
  {
    if act.Write? {
      WriteWorks(n, k);
    } else if act.Read? {
      ReadWorks(n, k, act.out);
    } else {
      PassWorks(spec, n, k, act);
      assert Remaining(Own(n, k, act)) == Remaining(Pass(n, k, act));
    }
  }

  /** A run that never stops: `l(t)` is the step taken in state `f(t)`. */
  ghost predicate InfiniteRun<V(!new)>(g: Graph<V>, f: nat -> State<V>, l: nat -> Step<V>)
  {
    && f(0) == Init(g)
    && forall t: nat :: |f(t)| == |g| && Enabled(g, f(t), l(t)) && f(t + 1) == Next(g, f(t), l(t))
  }

  ghost predicate QuietFrom<V>(l: nat -> Step<V>, i: nat, start: nat)
  {
    forall t: nat :: t >= start ==> l(t).i != i
  }

  lemma {:induction false} AlwaysInv<V(!new)>(g: Graph<V>, f: nat -> State<V>, l: nat -> Step<V>, t: nat)
    requires WellFormed(g) && Acyclic(g) && InfiniteRun(g, f, l)
    ensures Inv(g, f(t))
  {
    if t == 0 {
      InitInv(g);
    } else {
      AlwaysInv(g, f, l, t - 1);
      StepInv(g, f(t - 1), l(t - 1));
      assert f((t - 1) + 1) == Next(g, f(t - 1), l(t - 1));
    }
  }

  /** While neither a node nor anyone feeding it steps, its work stays what it is. */
  lemma {:induction false} WorkStays<V(!new)>(
      g: Graph<V>, rank: seq<nat>, f: nat -> State<V>, l: nat -> Step<V>, m: nat, start: nat, t: nat)
    requires WellFormed(g) && Ranked(g, rank) && InfiniteRun(g, f, l) && m < |g| && start <= t
    requires forall u: nat :: Upstream(g, u, m) ==> QuietFrom(l, u, start)
    requires forall x :: start <= x < t ==> l(x).i != m
    ensures Remaining(f(t)[m]) == Remaining(f(start)[m])
    decreases t
  {
    if start < t {
      WorkStays(g, rank, f, l, m, start, t - 1);
      AlwaysInv(g, f, l, t - 1);
      Effect(g, rank, f(t - 1), l(t - 1), m);
      assert f((t - 1) + 1) == Next(g, f(t - 1), l(t - 1));
    }
  }

  lemma FirstStep<V>(l: nat -> Step<V>, m: nat, start: nat) returns (t: nat)
    requires !QuietFrom(l, m, start)
    ensures t >= start && l(t).i == m && forall x :: start <= x < t ==> l(x).i != m
  {
    var some :| some >= start && l(some).i == m;
    t := start;
    while l(t).i != m
      invariant start <= t <= some
      invariant forall x :: start <= x < t ==> l(x).i != m
      decreases some - t
    {
      t := t + 1;
    }
  }

  /** Once its feeders are quiet, a node goes quiet too. */
  lemma {:induction false} GoesQuiet<V(!new)>(
      g: Graph<V>, rank: seq<nat>, f: nat -> State<V>, l: nat -> Step<V>, m: nat, start: nat) returns (end: nat)
    requires WellFormed(g) && Ranked(g, rank) && InfiniteRun(g, f, l) && m < |g|
    requires forall u: nat :: Upstream(g, u, m) ==> QuietFrom(l, u, start)
    ensures end >= start && QuietFrom(l, m, end)
    decreases Remaining(f(start)[m]).input, Remaining(f(start)[m]).output, Remaining(f(start)[m]).phases
  {
    end := start;
    if !QuietFrom(l, m, start) {
      var t := FirstStep(l, m, start);
      WorkStays(g, rank, f, l, m, start, t);
      AlwaysInv(g, f, l, t);
      Effect(g, rank, f(t), l(t), m);
      StepWorks(g[m], f(t)[m], l(t).k, l(t).act);
      end := GoesQuiet(g, rank, f, l, m, t + 1);
    }
  }

  /** Quieting the nodes of `rest` one after the other, feeders first. */
  lemma {:induction false} AllGoQuiet<V(!new)>(
      g: Graph<V>, rank: seq<nat>, f: nat -> State<V>, l: nat -> Step<V>, rest: set<nat>, start: nat) returns (end: nat)
    requires WellFormed(g) && Ranked(g, rank) && InfiniteRun(g, f, l)
    requires forall i :: i in rest ==> i < |g|
    requires forall i :: 0 <= i < |g| && i !in rest ==> QuietFrom(l, i, start)
    requires forall i: nat, u: nat :: i < |g| && i !in rest && Upstream(g, u, i) ==> u !in rest
    ensures forall i :: 0 <= i < |g| ==> QuietFrom(l, i, end)
    decreases rest
  {
    end := start;
    if rest != {} {
      var m := Topmost(rest, rank);
      forall u: nat | Upstream(g, u, m) ensures u !in rest {
        assert rank[m] < rank[u];
      }
      end := GoesQuiet(g, rank, f, l, m, start);
      end := AllGoQuiet(g, rank, f, l, rest - {m}, end);
    }
  }

  lemma SomeoneSteps<V(!new)>(g: Graph<V>, f: nat -> State<V>, l: nat -> Step<V>, t: nat)
    requires InfiniteRun(g, f, l)
    ensures exists i :: 0 <= i < |g| && !QuietFrom(l, i, t)
  {
    assert Enabled(g, f(t), l(t));
    assert !QuietFrom(l, l(t).i, t);
  }

  /** Every run of a connected, acyclic graph with finite sources ends, whatever the schedule and
      whatever its operators emit. */
  lemma EveryRunEnds<V(!new)>(g: Graph<V>, f: nat -> State<V>, l: nat -> Step<V>)
    requires WellFormed(g) && Acyclic(g)
    ensures !InfiniteRun(g, f, l)
  {
    if InfiniteRun(g, f, l) {
      var rank :| Ranked(g, rank);
      var end := AllGoQuiet(g, rank, f, l, Below(|g|), 0);
      SomeoneSteps(g, f, l, end);
    }
  }

  /** Every instance is back from `run`; the channel, if there is one, is closed, and everything it ever
      accepted has been read. */
  ghost predicate Done<V>(spec: Spec<V>, n: Node<V>)
  {
    AllFinished(n) && (!spec.source ==> n.closed && n.taken == n.accepted)
  }

  lemma FinishedIsDone<V>(spec: Spec<V>, n: Node<V>)
    requires NodeInv(spec, n) && AllFinished(n)
    ensures Done(spec, n)
  {
    assert InstInv(spec, n, n.insts[0]);
  }

  lemma FinishedIsStill<V>(g: Graph<V>, s: State<V>, l: Step<V>)
    requires |s| == |g| && forall i :: 0 <= i < |g| ==> AllFinished(s[i])
    ensures !Enabled(g, s, l)
  {
    if l.i < |g| && l.k < |s[l.i].insts| { assert s[l.i].insts[l.k].phase.Finished?; }
  }

  /** A run can be extended exactly until every instance of every node has returned from `run` and every
      channel is closed and drained. */
  lemma StuckMeansFinished<V>(g: Graph<V>, steps: seq<Step<V>>)
    requires WellFormed(g) && Acyclic(g)
    ensures (forall l :: !Enabled(g, Run(g, steps), l)) <==>
            forall i :: 0 <= i < |g| ==> Done(g[i], Run(g, steps)[i])
  {
    var s := Run(g, steps);
    RunInv(g, steps);
    if exists i :: 0 <= i < |g| && !AllFinished(s[i]) {
      var l := Progress(g, s);
    } else {
      forall i | 0 <= i < |g| ensures Done(g[i], s[i]) { FinishedIsDone(g[i], s[i]); }
      forall l ensures !Enabled(g, s, l) { FinishedIsStill(g, s, l); }
    }
  }
}
