/** A running segment graph: sources, nodes and sinks joined by bounded channels, every node run by
    several instances that share one barrier, and the shutdown that travels along the edges.

    The steps are the atomic pieces of the runnable's `run` and `shutdown`, of the progress engine
    that reads until the channel is closed, of the write through the held ingress, and of the
    release of that ingress, which closes the next channel when the last reference goes. Barriers
    are used through the rendezvous that module ThreadBarrier proves the real barrier to implement.

    What an operator emits is up to the step: reading a value may produce any finite list of
    outputs, and so may completion, so filters, maps, flat maps, buffers and reductions are covered,
    deterministic or not. */
module Dataflow {
  import opened Options

  // ---------------------------------------------------------------------------------------
  // The graph

  /** One node: the sink its source side is connected to, whether it is a pure source, the capacity
      of its channel, and for each of its instances the values it emits on its own account (empty
      unless it is a source). */
  datatype Spec<V> = Spec(down: Option<nat>, source: bool, capacity: nat, items: seq<seq<V>>)

  type Graph<V> = seq<Spec<V>>

  ghost predicate Upstream<V>(g: Graph<V>, i: nat, j: nat)
  {
    i < |g| && g[i].down == Some(j)
  }

  ghost predicate WellFormedNode<V>(g: Graph<V>, i: nat)
    requires i < |g|
  {
    var n := g[i];
    && |n.items| > 0
    && (n.down.Some? ==> n.down.value < |g| && !g[n.down.value].source)
    && (n.source ==> n.down.Some?)
    && (!n.source ==> n.capacity > 0 && (exists u :: Upstream(g, u, i)) &&
                      forall k :: 0 <= k < |n.items| ==> n.items[k] == [])
  }

  /** Fully connected: sources feed someone, sinks are fed by someone, and at least one instance and
      one buffer slot exist everywhere. */
  ghost predicate WellFormed<V>(g: Graph<V>)
  {
    forall i :: 0 <= i < |g| ==> WellFormedNode(g, i)
  }

  /** `rank` falls along every edge. */
  ghost predicate Ranked<V>(g: Graph<V>, rank: seq<nat>)
  {
    && |rank| == |g|
    && forall i: nat, j: nat :: Upstream(g, i, j) && j < |g| ==> rank[j] < rank[i]
  }

  ghost predicate Acyclic<V>(g: Graph<V>)
  {
    exists rank :: Ranked(g, rank)
  }

  /** The smallest such graph: a source of one value and a sink with one slot. */
  lemma SmallGraph(v: nat)
    ensures var g := [Spec(Some(1), true, 0, [[v]]), Spec(None, false, 1, [[]])]; WellFormed(g) && Acyclic(g)
  {
    var g := [Spec(Some(1), true, 0, [[v]]), Spec(None, false, 1, [[]])];
    assert Upstream(g, 0, 1);
    assert Ranked(g, [1, 0]);
  }

  // ---------------------------------------------------------------------------------------
  // The state

  /** Where one instance is in `run`: not yet at the first barrier, inside it, inside `subscribe`,
      emitting what completion still produces, inside the second barrier, past it, inside the third
      barrier, back from `run`. */
  datatype Phase = Launched | AtStart | Subscribed | Completing | AtShutdown | Critical | AtFinish | Finished
  {
    function Ord(): nat
    {
      match this
      case Launched => 0
      case AtStart => 1
      case Subscribed => 2
      case Completing => 3
      case AtShutdown => 4
      case Critical => 5
      case AtFinish => 6
      case Finished => 7
    }
  }

  /** `outbox` holds what has been emitted but not yet written; `got` and `sent` are history. */
  datatype Inst<V> = Inst(phase: Phase, outbox: seq<V>, got: seq<V>, sent: seq<V>)

  /** What a node's instances did, in order. */
  datatype Event = Data(k: nat) | SubscribeReturned(k: nat) | Section(k: nat) | RunReturned(k: nat)

  /** A node's instances and log; its channel (`buf`, `closed`, `refs` outstanding ingress references,
      and the history of accepted and taken values); whether it still holds its downstream ingress;
      the values it lost to a closed channel, and whether it ever wrote without a channel. */
  datatype Node<V> = Node(
    insts: seq<Inst<V>>,
    log: seq<Event>,
    buf: seq<V>,
    closed: bool,
    refs: nat,
    accepted: seq<V>,
    taken: seq<V>,
    held: bool,
    lost: seq<V>,
    thrown: bool)

  type State<V> = seq<Node<V>>

  ghost function Holders<V>(g: Graph<V>, s: State<V>, j: nat): set<nat>
    requires |s| == |g|
  {
    set i | 0 <= i < |g| && Upstream(g, i, j) && s[i].held
  }

  ghost function InitNode<V>(g: Graph<V>, i: nat): Node<V>
    requires i < |g|
  {
    var items := g[i].items;
    Node(seq(|items|, k requires 0 <= k < |items| => Inst(Launched, items[k], [], [])),
         [], [], false, |set u | 0 <= u < |g| && Upstream(g, u, i)|, [], [], g[i].down.Some?, [], false)
  }

  ghost function Init<V>(g: Graph<V>): State<V>
  {
    seq(|g|, i requires 0 <= i < |g| => InitNode(g, i))
  }

  // ---------------------------------------------------------------------------------------
  // The steps

  datatype Action<V> =
    | Arrive                  // call the first barrier
    | LeaveStart              // return from it and subscribe
    | Read(out: seq<V>)       // await_read gives a value, the operator emits `out`
    | Write                   // await_write of the first emitted value
    | Complete(out: seq<V>)   // await_read says closed (or the source is exhausted): on_completed
    | Return                  // subscribe returns, call the second barrier
    | LeaveShutdown           // return from it
    | RunSection              // rank 0 runs the critical section; everyone calls the third barrier
    | LeaveFinish             // return from it, and from run

  datatype Step<V> = Step(i: nat, k: nat, act: Action<V>)

  ghost predicate AllReached<V>(n: Node<V>, p: Phase)
  {
    forall k :: 0 <= k < |n.insts| ==> n.insts[k].phase.Ord() >= p.Ord()
  }

  /** A write blocks exactly when it holds an open channel that is full. */
  ghost predicate Blocked<V>(g: Graph<V>, s: State<V>, i: nat)
    requires |s| == |g| && i < |g|
  {
    && s[i].held
    && g[i].down.Some? && g[i].down.value < |g|
    && !s[g[i].down.value].closed
    && |s[g[i].down.value].buf| >= g[g[i].down.value].capacity
  }

  /** What an action asks of the node itself. */
  ghost predicate Ready<V>(spec: Spec<V>, n: Node<V>, k: nat, act: Action<V>)
  {
    && k < |n.insts|
    && var t := n.insts[k];
       match act
       case Arrive => t.phase.Launched?
       case LeaveStart => t.phase.AtStart? && AllReached(n, AtStart)
       case Read(out) =>
         t.phase.Subscribed? && t.outbox == [] && !spec.source && n.buf != [] && (spec.down.None? ==> out == [])
       case Write => (t.phase.Subscribed? || t.phase.Completing?) && t.outbox != []
       case Complete(out) =>
         t.phase.Subscribed? && t.outbox == [] && (spec.source || (n.closed && n.buf == [])) &&
         (spec.down.None? ==> out == [])
       case Return => t.phase.Completing? && t.outbox == []
       case LeaveShutdown => t.phase.AtShutdown? && AllReached(n, AtShutdown)
       case RunSection => t.phase.Critical?
       case LeaveFinish => t.phase.AtFinish? && AllReached(n, AtFinish)
  }

  ghost predicate Enabled<V>(g: Graph<V>, s: State<V>, l: Step<V>)
  {
    && |s| == |g| && l.i < |g|
    && Ready(g[l.i], s[l.i], l.k, l.act)
    && (l.act.Write? ==> !Blocked(g, s, l.i))
  }

  function SetInst<V>(n: Node<V>, k: nat, t: Inst<V>): Node<V>
    requires k < |n.insts|
  {
    n.(insts := n.insts[k := t])
  }

  ghost function Move<V>(n: Node<V>, k: nat, p: Phase): Node<V>
    requires k < |n.insts|
  {
    SetInst(n, k, n.insts[k].(phase := p))
  }

  /** The ingress deleter runs when the last reference goes. */
  ghost function DropRef<V>(n: Node<V>): Node<V>
  {
    if n.refs <= 1 then n.(refs := 0, closed := true) else n.(refs := n.refs - 1)
  }

  function Accept<V>(n: Node<V>, x: V): Node<V>
  {
    n.(buf := n.buf + [x], accepted := n.accepted + [x])
  }

  ghost function NextWrite<V>(g: Graph<V>, s: State<V>, i: nat, k: nat): State<V>
    requires |s| == |g| && i < |g| && k < |s[i].insts| && s[i].insts[k].outbox != []
  {
    var n := s[i];
    var x, rest := n.insts[k].outbox[0], n.insts[k].outbox[1..];
    var n' := SetInst(n, k, n.insts[k].(outbox := rest));
    if !n.held || g[i].down.None? || g[i].down.value >= |g| then
      s[i := n'.(thrown := true)]
    else if s[g[i].down.value].closed then
      s[i := n'.(lost := n.lost + [x])]
    else
      var j := g[i].down.value;
      s[i := SetInst(n, k, n.insts[k].(outbox := rest, sent := n.insts[k].sent + [x]))]
       [j := Accept(s[j], x)]
  }

  /** Rank 0 releases the downstream ingress; every instance moves on to the third barrier. */
  ghost function NextSection<V>(g: Graph<V>, s: State<V>, i: nat, k: nat): State<V>
    requires |s| == |g| && i < |g| && k < |s[i].insts|
  {
    var n := Move(s[i], k, AtFinish);
    if k != 0 then s[i := n]
    else
      var n := n.(log := n.log + [Section(k)], held := false);
      if !s[i].held || g[i].down.None? || g[i].down.value >= |g| then s[i := n]
      else s[i := n][g[i].down.value := DropRef(s[g[i].down.value])]
  }

  /** The phase an action moves its instance to, when it moves it. */
  ghost function Target<V>(act: Action<V>): Phase
    requires !act.Read? && !act.Write?
  {
    match act
    case Arrive => AtStart
    case LeaveStart => Subscribed
    case Complete(_) => Completing
    case Return => AtShutdown
    case LeaveShutdown => Critical
    case RunSection => AtFinish
    case LeaveFinish => Finished
  }

  /** The node after an instance has passed to its next phase. */
  ghost function Pass<V>(n: Node<V>, k: nat, act: Action<V>): Node<V>
    requires k < |n.insts| && !act.Read? && !act.Write?
  {
    var t := n.insts[k];
    var outbox := if act.Complete? then act.out else t.outbox;
    var event := if act.Return? then [SubscribeReturned(k)] else if act.LeaveFinish? then [RunReturned(k)] else [];
    SetInst(n, k, t.(phase := Target(act), outbox := outbox)).(log := n.log + event)
  }

  /** The node after an instance has read the front of the channel and its operator emitted `out`. */
  function Take<V>(n: Node<V>, k: nat, out: seq<V>): Node<V>
    requires k < |n.insts| && n.buf != []
  {
    var t := n.insts[k];
    SetInst(n, k, t.(outbox := out, got := t.got + [n.buf[0]]))
    .(buf := n.buf[1..], taken := n.taken + [n.buf[0]], log := n.log + [Data(k)])
  }

  ghost function Next<V>(g: Graph<V>, s: State<V>, l: Step<V>): (s': State<V>)
    requires |s| == |g|
    ensures |s'| == |g|
  {
    if !Enabled(g, s, l) then s
    else if l.act.Write? then NextWrite(g, s, l.i, l.k)
    else if l.act.RunSection? then NextSection(g, s, l.i, l.k)
    else if l.act.Read? then s[l.i := Take(s[l.i], l.k, l.act.out)]
    else s[l.i := Pass(s[l.i], l.k, l.act)]
  }

  ghost function Run<V>(g: Graph<V>, steps: seq<Step<V>>): (s: State<V>)
    ensures |s| == |g|
  {
    if steps == [] then Init(g) else Next(g, Run(g, steps[..|steps| - 1]), steps[|steps| - 1])
  }

  ghost predicate AllFinished<V>(n: Node<V>)
  {
    forall k :: 0 <= k < |n.insts| ==> n.insts[k].phase.Finished?
  }
}
