/** The loop that drives a sink: read until the channel says closed or the subscription ends, emit each
    value, then complete. It runs against writers that push whenever they like and there is room, and
    close the channel when they are done; what it does are steps of the running graph. */
module ProgressEngine {
  import opened Dataflow
  import opened DataflowSafety
  import opened Options

  /** A writer pushes a value, the last writer lets go, or the loop reads a value and emits it. */
  datatype Move<V> = Arrives(x: V) | Closes | Reads

  ghost function Move1<V>(n: Node<V>, k: nat, m: Move<V>): Node<V>
  {
    match m
    case Arrives(x) => Accept(n, x)
    case Closes => n.(refs := 0, closed := true)
    case Reads => if k < |n.insts| && n.buf != [] then Own(n, k, Read([])) else n
  }

  ghost function After<V>(n: Node<V>, k: nat, moves: seq<Move<V>>): Node<V>
  {
    if moves == [] then n else Move1(After(n, k, moves[..|moves| - 1]), k, moves[|moves| - 1])
  }

  /** Writers push to an open channel that has room; a read is one the running graph allows. */
  ghost predicate Legal1<V>(spec: Spec<V>, n: Node<V>, k: nat, m: Move<V>)
  {
    match m
    case Arrives(_) => !n.closed && |n.buf| < spec.capacity
    case Closes => !n.closed
    case Reads => Ready(spec, n, k, Read([]))
  }

  ghost predicate Legal<V>(spec: Spec<V>, n: Node<V>, k: nat, moves: seq<Move<V>>)
  {
    moves == [] ||
    var before := moves[..|moves| - 1];
    Legal(spec, n, k, before) && Legal1(spec, After(n, k, before), k, moves[|moves| - 1])
  }

  ghost function Arrivals<V>(moves: seq<Move<V>>): seq<V>
  {
    if moves == [] then []
    else
      var before, m := Arrivals(moves[..|moves| - 1]), moves[|moves| - 1];
      if m.Arrives? then before + [m.x] else before
  }

  lemma OneMore<V>(spec: Spec<V>, n: Node<V>, k: nat, moves: seq<Move<V>>, m: Move<V>)
    requires Legal(spec, n, k, moves) && Legal1(spec, After(n, k, moves), k, m)
    ensures Legal(spec, n, k, moves + [m]) && After(n, k, moves + [m]) == Move1(After(n, k, moves), k, m)
    ensures Arrivals(moves + [m]) == Arrivals(moves) + (if m.Arrives? then [m.x] else [])
  {
    assert (moves + [m])[..|moves|] == moves;
  }

  /** Instance `k` of a sink is inside `subscribe`, between two values. */
  ghost predicate Subscribing<V>(spec: Spec<V>, n: Node<V>, k: nat)
  {
    && spec.down.None? && !spec.source && spec.capacity > 0 && k < |n.insts|
    && n.insts[k].phase.Subscribed? && n.insts[k].outbox == []
  }

  /** Everything instance `k` has read or can still read, `coming` being what will still be written. */
  ghost function Stream<V>(n: Node<V>, k: nat, coming: seq<V>): seq<V>
    requires k < |n.insts|
  {
    n.insts[k].got + (n.buf + coming)
  }

  /** The moves so far have led from `from` to `n`, and of what the writers write `coming` is still to come. */
  ghost predicate Upto<V>(
      spec: Spec<V>, from: Node<V>, k: nat, writers: seq<V>, moves: seq<Move<V>>, n: Node<V>, coming: seq<V>)
  {
    && Subscribing(spec, n, k) && |n.insts| == |from.insts|
    && Legal(spec, from, k, moves) && n == After(from, k, moves)
    && Arrivals(moves) + coming == writers && (n.closed ==> coming == [])
    && Stream(n, k, coming) == Stream(from, k, writers)
  }

  lemma CloseStep<V>(spec: Spec<V>, from: Node<V>, k: nat, writers: seq<V>, moves: seq<Move<V>>, n: Node<V>)
    requires Upto(spec, from, k, writers, moves, n, []) && !n.closed
    ensures Upto(spec, from, k, writers, moves + [Closes], n.(refs := 0, closed := true), [])
  {
    OneMore(spec, from, k, moves, Closes);
  }

  lemma ArriveStep<V>(
      spec: Spec<V>, from: Node<V>, k: nat, writers: seq<V>, moves: seq<Move<V>>, n: Node<V>, coming: seq<V>)
    requires Upto(spec, from, k, writers, moves, n, coming) && coming != [] && !n.closed && |n.buf| < spec.capacity
    ensures Upto(spec, from, k, writers, moves + [Arrives(coming[0])], Accept(n, coming[0]), coming[1..])
  {
    var x, rest := coming[0], coming[1..];
    OneMore(spec, from, k, moves, Arrives(x));
    assert coming == [x] + rest;
    assert n.buf + coming == (n.buf + [x]) + rest;
    assert Arrivals(moves) + coming == (Arrivals(moves) + [x]) + rest;
  }

  lemma ReadStep<V>(
      spec: Spec<V>, from: Node<V>, k: nat, writers: seq<V>, moves: seq<Move<V>>, n: Node<V>, coming: seq<V>)
    requires Upto(spec, from, k, writers, moves, n, coming) && n.buf != []
    ensures Upto(spec, from, k, writers, moves + [Reads], Take(n, k, []), coming)
  {
    var n' := Take(n, k, []);
    OneMore(spec, from, k, moves, Reads);
    assert n.buf == [n.buf[0]] + n.buf[1..];
    assert n.insts[k].got + (n.buf + coming) == (n.insts[k].got + [n.buf[0]]) + (n.buf[1..] + coming);
  }

  /** The blocking read, as the writers see it: they do as they please until it can return. */
  method Await<V>(spec: Spec<V>, n0: Node<V>, k: nat, coming0: seq<V>,
      ghost from: Node<V>, ghost writers: seq<V>, ghost moves0: seq<Move<V>>)
    returns (n: Node<V>, coming: seq<V>, ghost moves: seq<Move<V>>)
    requires Upto(spec, from, k, writers, moves0, n0, coming0)
    ensures Upto(spec, from, k, writers, moves, n, coming)
    ensures n.insts == n0.insts
    ensures n.buf != [] || n.closed
  {
    n, coming, moves := n0, coming0, moves0;
    var busy: bool := *;
    while !n.closed && (n.buf == [] || (busy && |n.buf| < spec.capacity))
      invariant Upto(spec, from, k, writers, moves, n, coming)
      invariant n.insts == n0.insts
      decreases |coming|, !n.closed
    {
      if coming == [] {
        CloseStep(spec, from, k, writers, moves, n);
        n, moves := n.(refs := 0, closed := true), moves + [Closes];
      } else {
        ArriveStep(spec, from, k, writers, moves, n, coming);
        n, moves, coming := Accept(n, coming[0]), moves + [Arrives(coming[0])], coming[1..];
      }
      busy := *;
    }
  }

  /** What has been emitted when the loop ends. */
  lemma Emitted<V>(n: Node<V>, n0: Node<V>, k: nat, coming: seq<V>, writers: seq<V>, count: nat)
    requires k < |n.insts| && k < |n0.insts| && Stream(n, k, coming) == Stream(n0, k, writers)
    requires |n.insts[k].got| == |n0.insts[k].got| + count
    ensures var all := n0.buf + writers; count <= |all| && n.insts[k].got == n0.insts[k].got + all[..count]
  {
    var got, got0, all := n.insts[k].got, n0.insts[k].got, n0.buf + writers;
    assert got == Stream(n, k, coming)[..|got|];
    assert (got0 + all)[..|got0| + count] == got0 + all[..count];
  }

  /** The loop emits what the channel holds and will be given, in order, until the channel is closed and
      empty, and then the graph allows its completion; or until the subscription ends, after `budget`
      values. */
  method Drive<V>(spec: Spec<V>, n0: Node<V>, k: nat, writers: seq<V>, budget: nat)
    returns (n: Node<V>, subscribed: bool, ghost moves: seq<Move<V>>)
    requires Subscribing(spec, n0, k) && (n0.closed ==> writers == [])
    ensures Legal(spec, n0, k, moves) && n == After(n0, k, moves) && Arrivals(moves) <= writers
    ensures |n.insts| == |n0.insts|
    ensures var all := n0.buf + writers;
            var count := if subscribed then |all| else budget;
            count <= |all| && n.insts[k].got == n0.insts[k].got + all[..count]
    ensures subscribed ==> Arrivals(moves) == writers && Ready(spec, n, k, Complete([]))
  {
    var coming, emitted := writers, 0;
    n, moves := n0, [];
    while emitted < budget
      invariant emitted <= budget && Upto(spec, n0, k, writers, moves, n, coming)
      invariant |n.insts[k].got| == |n0.insts[k].got| + emitted
      decreases budget - emitted
    {
      n, coming, moves := Await(spec, n, k, coming, n0, writers, moves);
      Emitted(n, n0, k, coming, writers, emitted);
      if n.buf == [] {
        return n, true, moves;
      }
      ReadStep(spec, n0, k, writers, moves, n, coming);
      n, moves, emitted := Take(n, k, []), moves + [Reads], emitted + 1;
    }
    Emitted(n, n0, k, coming, writers, emitted);
    return n, false, moves;
  }
}
