/** Order along a path: single-instance default nodes, each fed by the one before it alone, pass values on
    in the order in which the source emitted them. */
module DataflowPaths {
  import opened Dataflow
  import opened DataflowDelivery
  import opened DataflowEndToEnd
  import opened DataflowSafety
  import opened Options

  /** `i` feeds `j`, and nobody else does. */
  ghost predicate OnlyFeeder<V>(g: Graph<V>, i: nat, j: nat)
  {
    Upstream(g, i, j) && forall u: nat :: Upstream(g, u, j) ==> u == i
  }

  /** A path from a source, every node on it run by one instance. */
  ghost predicate IsPath<V>(g: Graph<V>, path: seq<nat>)
  {
    && path != []
    && (forall k :: 0 <= k < |path| ==> path[k] < |g| && |g[path[k]].items| == 1)
    && (forall k :: 0 <= k < |path| ==> (g[path[k]].source <==> k == 0))
    && (forall k :: 0 < k < |path| ==> OnlyFeeder(g, path[k - 1], path[k]))
  }

  // ---------------------------------------------------------------------------------------
  // One edge and one node

  /** What the channel accepted is what its only feeder sent, in order. */
  ghost predicate EdgeOrder<V>(s: State<V>, i: nat, j: nat)
  {
    i < |s| && j < |s| && |s[i].insts| == 1 && s[j].accepted == s[i].insts[0].sent
  }

  /** What a node has sent and has still to send is what it emits for itself, or else what it has read. */
  ghost predicate NodeOrder<V>(spec: Spec<V>, n: Node<V>)
  {
    && |n.insts| == |spec.items| == 1
    && n.insts[0].sent + n.insts[0].outbox == if spec.source then spec.items[0] else n.taken
  }

  lemma StepEdge<V>(g: Graph<V>, rank: seq<nat>, s: State<V>, l: Step<V>, i: nat, j: nat)
    requires WellFormed(g) && Ranked(g, rank) && Inv(g, s) && Enabled(g, s, l)
    requires i < |g| && j < |g| && OnlyFeeder(g, i, j) && EdgeOrder(s, i, j)
    ensures EdgeOrder(Next(g, s, l), i, j)
  {
    if l.act.Write? && l.i == i {
      WriteReaches(g, rank, s, l);
    } else {
      Effect(g, rank, s, l, i);
      Effect(g, rank, s, l, j);
      OwnSent(g[l.i], s[l.i], l.k, l.act);
    }
  }

  /** The step of a node that passes on what it reads. */
  lemma OwnOrder<V>(spec: Spec<V>, n: Node<V>, act: Action<V>)
    requires NodeOrder(spec, n) && Ready(spec, n, 0, act) && spec.down.Some?
    requires act.Read? ==> act.out == [n.buf[0]]
    requires act.Complete? ==> act.out == []
    ensures NodeOrder(spec, Own(n, 0, act))
  {
    var t, t' := n.insts[0], Own(n, 0, act).insts[0];
    if act.Write? {
      assert t'.sent + t'.outbox == t.sent + t.outbox;
    } else if !act.Read? {
      assert t'.sent == t.sent && t'.outbox == t.outbox;
    }
  }

  lemma StepNode<V>(g: Graph<V>, rank: seq<nat>, s: State<V>, l: Step<V>, i: nat)
    requires WellFormed(g) && Ranked(g, rank) && Inv(g, s) && Enabled(g, s, l) && Forwards(g, s, l)
    requires i < |g| && g[i].down.Some? && NodeOrder(g[i], s[i])
    ensures NodeOrder(g[i], Next(g, s, l)[i])
  {
    Effect(g, rank, s, l, i);
    if l.i == i { OwnOrder(g[i], s[i], l.act); }
  }

  lemma {:induction false} RunEdge<V>(g: Graph<V>, rank: seq<nat>, steps: seq<Step<V>>, i: nat, j: nat)
    requires WellFormed(g) && Ranked(g, rank) && i < |g| && j < |g| && OnlyFeeder(g, i, j) && |g[i].items| == 1
    ensures EdgeOrder(Run(g, steps), i, j)
  {
    if steps != [] {
      var before, l := steps[..|steps| - 1], steps[|steps| - 1];
      RunInv(g, before);
      RunEdge(g, rank, before, i, j);
      if Enabled(g, Run(g, before), l) { StepEdge(g, rank, Run(g, before), l, i, j); }
    }
  }

  lemma {:induction false} RunNode<V>(g: Graph<V>, rank: seq<nat>, steps: seq<Step<V>>, i: nat)
    requires WellFormed(g) && Ranked(g, rank) && DefaultRun(g, steps)
    requires i < |g| && g[i].down.Some? && |g[i].items| == 1
    ensures NodeOrder(g[i], Run(g, steps)[i])
  {
    if steps == [] {
      assert WellFormedNode(g, i);
    } else {
      var before, l := steps[..|steps| - 1], steps[|steps| - 1];
      RunInv(g, before);
      RunNode(g, rank, before, i);
      if Enabled(g, Run(g, before), l) { StepNode(g, rank, Run(g, before), l, i); }
    }
  }

  // ---------------------------------------------------------------------------------------
  // The path

  lemma Prefix<V>(a: seq<V>, b: seq<V>, c: seq<V>)
    requires a <= b <= c
    ensures a <= c
  {
  }

  lemma TakenPrefix<V>(spec: Spec<V>, n: Node<V>)
    requires NodeInv(spec, n)
    ensures n.taken <= n.accepted && (AllFinished(n) && !spec.source ==> n.taken == n.accepted)
  {
    assert InstInv(spec, n, n.insts[0]);
  }

  ghost function Origin<V>(spec: Spec<V>, n: Node<V>): seq<V>
    requires |spec.items| == 1
  {
    if spec.source then spec.items[0] else n.taken
  }

  lemma SentPrefix<V>(spec: Spec<V>, n: Node<V>)
    requires NodeInv(spec, n) && NodeOrder(spec, n)
    ensures n.insts[0].sent <= Origin(spec, n) && (AllFinished(n) ==> n.insts[0].sent == Origin(spec, n))
  {
    assert InstInv(spec, n, n.insts[0]);
  }

  /** What a node has read against what its feeder has sent. */
  lemma ReadsWhatWasSent<V>(g: Graph<V>, rank: seq<nat>, steps: seq<Step<V>>, i: nat, j: nat)
    requires WellFormed(g) && Ranked(g, rank) && i < |g| && j < |g| && OnlyFeeder(g, i, j) && |g[i].items| == 1
    ensures var s := Run(g, steps);
            |s[i].insts| == 1 && s[j].taken <= s[i].insts[0].sent &&
            (AllFinished(s[j]) && !g[j].source ==> s[j].taken == s[i].insts[0].sent)
  {
    RunEdge(g, rank, steps, i, j);
    RunInv(g, steps);
    TakenPrefix(g[j], Run(g, steps)[j]);
  }

  /** What a node has sent against what it has read, or emits for itself. */
  lemma SendsWhatWasRead<V>(g: Graph<V>, rank: seq<nat>, steps: seq<Step<V>>, i: nat)
    requires WellFormed(g) && Ranked(g, rank) && DefaultRun(g, steps)
    requires i < |g| && g[i].down.Some? && |g[i].items| == 1
    ensures var n := Run(g, steps)[i];
            |n.insts| == 1 && n.insts[0].sent <= Origin(g[i], n) &&
            (AllFinished(n) ==> n.insts[0].sent == Origin(g[i], n))
  {
    RunNode(g, rank, steps, i);
    RunInv(g, steps);
    SentPrefix(g[i], Run(g, steps)[i]);
  }

  lemma {:induction false} AlongPath<V>(g: Graph<V>, rank: seq<nat>, steps: seq<Step<V>>, path: seq<nat>)
    requires WellFormed(g) && Ranked(g, rank) && DefaultRun(g, steps) && IsPath(g, path) && |path| > 1
    ensures var s, last := Run(g, steps), path[|path| - 1];
            s[last].taken <= g[path[0]].items[0] &&
            ((forall k :: 0 <= k < |path| ==> AllFinished(s[path[k]])) ==> s[last].taken == g[path[0]].items[0])
    decreases |path|
  {
    var s, k := Run(g, steps), |path| - 1;
    var i, j, items := path[k - 1], path[k], g[path[0]].items[0];
    assert OnlyFeeder(g, i, j);
    ReadsWhatWasSent(g, rank, steps, i, j);
    SendsWhatWasRead(g, rank, steps, i);
    if k > 1 {
      var shorter := path[..k];
      assert forall h :: 0 <= h < k ==> shorter[h] == path[h];
      assert shorter[|shorter| - 1] == i;
      AlongPath(g, rank, steps, shorter);
      Prefix(s[i].insts[0].sent, s[i].taken, items);
    }
    Prefix(s[j].taken, s[i].insts[0].sent, items);
  }

  /** In every run of default nodes, and along every such path: what its end has read is what the source
      emitted, in order and with nothing left out, as far as it has come; and all of it once the nodes of
      the path have finished. */
  lemma PathOrder<V>(g: Graph<V>, steps: seq<Step<V>>, path: seq<nat>)
    requires WellFormed(g) && Acyclic(g) && DefaultRun(g, steps) && IsPath(g, path) && |path| > 1
    ensures var s, last := Run(g, steps), path[|path| - 1];
            s[last].taken <= g[path[0]].items[0] &&
            ((forall k :: 0 <= k < |path| ==> AllFinished(s[path[k]])) ==> s[last].taken == g[path[0]].items[0])
  {
    var rank :| Ranked(g, rank);
    AlongPath(g, rank, steps, path);
  }
}
