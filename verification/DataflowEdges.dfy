/** The edges of the running graph are the edges of SinkChannels and SourceChannels. Every channel's history,
    in which its feeders are connected before the run and let go in their critical sections, gives the
    reference count and the closing that the graph keeps for it. */
module DataflowEdges {
  import opened Dataflow
  import opened DataflowSafety
  import opened Options
  import Ends = SourceChannels
  import Sinks = SinkChannels

  ghost function Offered<V>(g: Graph<V>, i: nat, j: nat): seq<Ends.Event>
  {
    if Upstream(g, i, j) then [Ends.Offer(i)] else []
  }

  /** The edges to `j` are made, from the nodes below `n`. */
  ghost function Offers<V>(g: Graph<V>, j: nat, n: nat): seq<Ends.Event>
  {
    if n == 0 then [] else Offers(g, j, n - 1) + Offered(g, n - 1, j)
  }

  /** The step lets go of an edge to `j`. */
  ghost predicate Releases<V>(g: Graph<V>, s: State<V>, l: Step<V>, j: nat)
  {
    Enabled(g, s, l) && l.act.RunSection? && l.k == 0 && Upstream(g, l.i, j) && s[l.i].held
  }

  /** What happens to the sink channel of `j` and to the source channels that feed it. */
  ghost function EdgeEvents<V>(g: Graph<V>, steps: seq<Step<V>>, j: nat): seq<Ends.Event>
  {
    if steps == [] then Offers(g, j, |g|)
    else
      var before, l := steps[..|steps| - 1], steps[|steps| - 1];
      if Releases(g, Run(g, before), l, j)
      then EdgeEvents(g, before, j) + [Ends.Leave(l.i)]
      else EdgeEvents(g, before, j)
  }

  ghost function History<V>(g: Graph<V>, steps: seq<Step<V>>, j: nat): Ends.State
  {
    Ends.History(|g|, EdgeEvents(g, steps, j))
  }

  /** Nothing but making and releasing edges has happened. */
  ghost predicate Plain(h: Ends.State)
  {
    !h.world.aborted && h.world.sink.persistent.None? && Sinks.Inv(h.world) && Ends.HeldBySources(h)
  }

  lemma HistoryNext(n: nat, events: seq<Ends.Event>, e: Ends.Event)
    ensures Ends.History(n, events + [e]) == Ends.After(Ends.History(n, events), e)
  {
    assert (events + [e])[..|events|] == events;
  }

  // ---------------------------------------------------------------------------------------
  // Connecting

  ghost predicate ConnectedBelow<V>(g: Graph<V>, j: nat, n: nat, h: Ends.State)
  {
    && |h.slots| == |g| && n <= |g| && Plain(h)
    && (forall i :: 0 <= i < |g| ==> if i < n && Upstream(g, i, j) then h.slots[i].Here? else h.slots[i].Free?)
    && (h.world.sink.initialized <==> exists i: nat :: i < n && Upstream(g, i, j))
  }

  /** A sink channel with a source connected, or never connected, is open. */
  lemma OpenToOffers(h: Ends.State)
    requires Plain(h) && (h.world.sink.initialized ==> Ends.SomeoneConnected(h))
    ensures Sinks.Acquire(h.world.sink).1.Some?
  {
    var s := h.world.sink;
    if s.initialized {
      Ends.HeldMeansOpen(h);
    } else {
      assert !Sinks.UsedUp(s, s.channel);
    }
  }

  lemma OfferStep<V>(g: Graph<V>, j: nat, n: nat, h: Ends.State)
    requires ConnectedBelow(g, j, n, h) && n < |g| && Upstream(g, n, j)
    ensures ConnectedBelow(g, j, n + 1, Ends.After(h, Ends.Offer(n)))
  {
    var h' := Ends.After(h, Ends.Offer(n));
    if h.world.sink.initialized {
      var i: nat :| i < n && Upstream(g, i, j);
      assert h.slots[i].Here?;
    }
    OpenToOffers(h);
    Ends.OfferConnects(h, n);
    Ends.OfferInv(h, n);
    assert h'.world.sink.initialized by {
      var e := Ends.Connect(h.world.sink, false).1.value;
      assert h'.slots[n] == Ends.Here(e);
      Ends.SlotHolds(h', n);
      assert Sinks.On(h'.world.sink, e, h'.world.sink.channel);
    }
  }

  lemma NoOfferStep<V>(g: Graph<V>, j: nat, n: nat, h: Ends.State)
    requires ConnectedBelow(g, j, n, h) && n < |g| && !Upstream(g, n, j)
    ensures ConnectedBelow(g, j, n + 1, h)
  {
    if i: nat :| i < n + 1 && Upstream(g, i, j) { assert i < n; }
  }

  ghost predicate OffersConnect<V>(g: Graph<V>, j: nat, n: nat)
  {
    ConnectedBelow(g, j, n, Ends.History(|g|, Offers(g, j, n)))
  }

  lemma NothingOffered<V>(g: Graph<V>, j: nat)
    ensures OffersConnect(g, j, 0)
  {
    assert Offers(g, j, 0) == [];
    Ends.HistoryInv(|g|, []);
    var h := Ends.History(|g|, []);
    assert Plain(h) && |h.slots| == |g| && !h.world.sink.initialized;
  }

  lemma OfferNext<V>(g: Graph<V>, j: nat, n: nat)
    requires 0 < n <= |g| && OffersConnect(g, j, n - 1)
    ensures OffersConnect(g, j, n)
  {
    var events, i := Offers(g, j, n - 1), n - 1;
    assert Offers(g, j, n) == events + Offered(g, i, j);
    if Upstream(g, i, j) {
      OfferStep(g, j, i, Ends.History(|g|, events));
      HistoryNext(|g|, events, Ends.Offer(i));
    } else {
      NoOfferStep(g, j, i, Ends.History(|g|, events));
      assert events + [] == events;
    }
  }

  lemma {:induction false} AllConnect<V>(g: Graph<V>, j: nat, n: nat)
    requires n <= |g|
    ensures OffersConnect(g, j, n)
    decreases n
  {
    if n == 0 {
      NothingOffered(g, j);
    } else {
      AllConnect(g, j, n - 1);
      OfferNext(g, j, n);
    }
  }

  // ---------------------------------------------------------------------------------------
  // The run

  /** The source channels connected to `j` are those of the nodes that hold their ingress to it. */
  ghost predicate Connected<V>(g: Graph<V>, s: State<V>, j: nat, h: Ends.State)
    requires |s| == |g|
  {
    && |h.slots| == |g| && Plain(h) && h.world.sink.initialized
    && forall i :: 0 <= i < |g| ==> (h.slots[i].Here? <==> Upstream(g, i, j) && s[i].held)
  }

  lemma LeaveStep(h: Ends.State, i: nat)
    requires Plain(h) && h.world.sink.initialized && i < |h.slots| && h.slots[i].Here?
    ensures var h' := Ends.After(h, Ends.Leave(i));
            Plain(h') && h'.world.sink.initialized && h'.slots == h.slots[i := Ends.Free]
  {
    Ends.SlotHolds(h, i);
    Ends.LeaveInv(h, i);
  }

  lemma StepConnected<V>(g: Graph<V>, rank: seq<nat>, s: State<V>, l: Step<V>, j: nat, h: Ends.State)
    requires WellFormed(g) && Ranked(g, rank) && Inv(g, s) && Enabled(g, s, l) && Connected(g, s, j, h)
    ensures var h' := if Releases(g, s, l, j) then Ends.After(h, Ends.Leave(l.i)) else h;
            Connected(g, Next(g, s, l), j, h')
  {
    if Releases(g, s, l, j) { LeaveStep(h, l.i); }
    forall i | 0 <= i < |g| && (Upstream(g, i, j) || i == l.i)
      ensures Next(g, s, l)[i].held == (s[i].held && !(i == l.i && l.act.RunSection? && l.k == 0))
    {
      Effect(g, rank, s, l, i);
    }
  }

  lemma {:induction false} RunConnected<V>(g: Graph<V>, rank: seq<nat>, steps: seq<Step<V>>, j: nat)
    requires WellFormed(g) && Ranked(g, rank) && j < |g| && !g[j].source
    ensures Connected(g, Run(g, steps), j, History(g, steps, j))
  {
    if steps == [] {
      AllConnect(g, j, |g|);
      assert WellFormedNode(g, j);
      var u: nat :| Upstream(g, u, j);
    } else {
      var before, l := steps[..|steps| - 1], steps[|steps| - 1];
      RunInv(g, before);
      RunConnected(g, rank, before, j);
      if Enabled(g, Run(g, before), l) { StepConnected(g, rank, Run(g, before), l, j, History(g, before, j)); }
      if Releases(g, Run(g, before), l, j) { HistoryNext(|g|, EdgeEvents(g, before, j), Ends.Leave(l.i)); }
    }
  }

  // ---------------------------------------------------------------------------------------
  // What the graph keeps is what the channels keep

  /** The count of the one live edge is the number of source channels connected. */
  lemma CountsConnected(h: Ends.State, holders: set<nat>)
    requires Plain(h) && holders != {}
    requires forall i :: i in holders <==> 0 <= i < |h.slots| && h.slots[i].Here?
    ensures var s := h.world.sink;
            s.weak.Some? && Sinks.Live(s, s.weak.value) && s.edges[s.weak.value].strong == |holders|
  {
    var i :| i in holders;
    Ends.SlotHolds(h, i);
    var e := h.slots[i].e;
    forall k | k in holders ensures h.slots[k] == Ends.Here(e) {
      Ends.SlotHolds(h, k);
    }
    assert Ends.Holding(h.slots, e) == holders;
  }

  /** In every run and for every channel of the graph: it is closed exactly when its sink channel's history
      says so, and its reference count is the one in the control block of its live edge. */
  lemma EdgesAreReal<V>(g: Graph<V>, steps: seq<Step<V>>, j: nat)
    requires WellFormed(g) && Acyclic(g) && j < |g| && !g[j].source
    ensures var n, sink := Run(g, steps)[j], History(g, steps, j).world.sink;
            && (n.closed <==> sink.channel in sink.closed)
            && (n.refs > 0 ==> sink.weak.Some? && Sinks.Live(sink, sink.weak.value) &&
                               sink.edges[sink.weak.value].strong == n.refs)
  {
    var rank :| Ranked(g, rank);
    RunConnected(g, rank, steps, j);
    RunInv(g, steps);
    Ends.EdgesStayOpen(|g|, EdgeEvents(g, steps, j));
    SameCount(g, Run(g, steps), j, History(g, steps, j));
  }

  lemma SameCount<V>(g: Graph<V>, s: State<V>, j: nat, h: Ends.State)
    requires Inv(g, s) && j < |g| && !g[j].source && Connected(g, s, j, h) && Ends.OpenWhileConnected(h)
    ensures var n, sink := s[j], h.world.sink;
            && (n.closed <==> sink.channel in sink.closed)
            && (n.refs > 0 ==> sink.weak.Some? && Sinks.Live(sink, sink.weak.value) &&
                               sink.edges[sink.weak.value].strong == n.refs)
  {
    var holders := Holders(g, s, j);
    assert NodeInv(g[j], s[j]) && s[j].refs == |holders|;
    if holders != {} {
      var i :| i in holders;
      assert h.slots[i].Here?;
      CountsConnected(h, holders);
    } else {
      forall i | 0 <= i < |h.slots| ensures !h.slots[i].Here? { assert i !in holders; }
    }
  }
}
