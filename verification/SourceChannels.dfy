/** The writing end of an edge: the source channel that holds at most one ingress, and the edge builder
    that takes an ingress from a sink channel and gives it to a source channel.

    An edge that is refused because its source already has one lets go of the ingress it had just
    taken. On a sink channel nobody else is connected to, that was the first reference and the last,
    so the refusal closes the sink's channel. */
module SourceChannels {
  import opened Options
  import opened SinkChannels

  /** What a write came to: it reached a channel, found it closed, was swallowed, or was refused for
      want of a channel. */
  datatype Outcome = Reached(channel: nat) | FoundClosed | Swallowed | Thrown

  datatype Verdict = Connected | Refused | CheckFailed

  /** What an attempted edge does to the sink channel, and the edge the source now holds. */
  function Connect(s: Sink, occupied: bool): (Sink, Option<nat>)
  {
    var (s', e) := Acquire(s);
    if e.None? then (s, None)
    else if occupied && Live(s', e.value) then (Release(s', e.value), None)
    else (s', e)
  }

  class SourceChannel {
    /** Set for the variant that swallows writes when it has no channel. */
    const swallows: bool
    var sink: SinkChannel?
    var edge: nat

    constructor (swallows: bool)
      ensures sink == null && this.swallows == swallows
    {
      this.swallows, sink, edge := swallows, null, 0;
    }

    /** `typed` says whether the ingress has the source's type, as the cast finds out. */
    method CompleteEdge(given: SinkChannel?, e: nat, typed: bool) returns (verdict: Verdict)
      modifies this
      ensures verdict.Refused? <==> given != null && old(sink) != null
      ensures verdict.CheckFailed? <==> given == null || (old(sink) == null && !typed)
      ensures if verdict.Connected? then sink == given && edge == e else sink == old(sink) && edge == old(edge)
    {
      if given == null {
        return CheckFailed;
      }
      if sink != null {
        return Refused;
      }
      if !typed {
        return CheckFailed;
      }
      sink, edge := given, e;
      return Connected;
    }

    /** Lets go of the ingress; the channel it led to closes if that was the last reference. */
    method ReleaseChannel()
      requires sink != null ==> Live(sink.View(), edge)
      modifies this, sink
      ensures sink == null
      ensures old(sink) != null ==> old(sink).View() == Release(old(sink.View()), old(edge))
    {
      if sink != null {
        sink.Drop(edge);
        sink := null;
      }
    }

    /** A connected source reaches the channel its sink reads; without a channel the value is swallowed
        or the write throws. */
    method AwaitWrite() returns (outcome: Outcome)
      requires sink != null ==> SinkInv(sink.View()) && Live(sink.View(), edge)
      ensures sink != null ==> outcome == Reached(sink.channel)
      ensures sink == null ==> outcome == if swallows then Swallowed else Thrown
    {
      if sink != null {
        LiveWrites(sink.View(), edge);
        var channel := sink.edges[edge].channel;
        return if channel in sink.closed then FoundClosed else Reached(channel);
      }
      return if swallows then Swallowed else Thrown;
    }
  }

  /** `make_edge` between values of the same type. */
  method MakeEdge(source: SourceChannel, sink: SinkChannel) returns (connected: bool)
    modifies source, sink
    ensures sink.View() == Connect(old(sink.View()), old(source.sink) != null).0
    ensures connected <==> Connect(old(sink.View()), old(source.sink) != null).1.Some?
    ensures connected ==> source.sink == sink &&
                          Connect(old(sink.View()), old(source.sink) != null).1 == Some(source.edge)
    ensures !connected ==> source.sink == old(source.sink) && source.edge == old(source.edge)
  {
    var ingress := sink.ChannelIngress();
    if ingress.None? {
      return false;
    }
    var verdict := source.CompleteEdge(sink, ingress.value, true);
    if !verdict.Connected? {
      sink.Drop(ingress.value);
    }
    return verdict.Connected?;
  }

  // ---------------------------------------------------------------------------------------
  // A sink channel and the source channels around it

  /** What a source channel holds: nothing, an edge of this sink channel, or an edge of another. */
  datatype Slot = Free | Here(e: nat) | Elsewhere

  datatype State = State(world: World, slots: seq<Slot>)

  datatype Event =
    | Offer(i: nat)                         // make_edge from source i
    | Leave(i: nat)                         // release_channel on source i
    | ConnectElsewhere(i: nat)              // source i is connected to another sink channel
    | Keep                                  // enable_persistence
    | Unkeep                                // disable_persistence
    | Swap(given: bool, lingering: bool)    // update_channel

  ghost function After(s: State, ev: Event): State
  {
    var w := s.world;
    if w.aborted then s else
    match ev
    case Offer(i) =>
      var got := Acquire(w.sink).1;
      if i >= |s.slots| || got.None? then s
      else if s.slots[i].Free? then State(Next(w, AcquireIngress), s.slots[i := Here(got.value)])
      else s.(world := Next(Next(w, AcquireIngress), DropIngress(got.value)))
    case Leave(i) =>
      if i >= |s.slots| then s
      else if s.slots[i].Here? then State(Next(w, DropIngress(s.slots[i].e)), s.slots[i := Free])
      else s.(slots := s.slots[i := Free])
    case ConnectElsewhere(i) => if i < |s.slots| && s.slots[i].Free? then s.(slots := s.slots[i := Elsewhere]) else s
    case Keep => s.(world := Next(w, Persist))
    case Unkeep => s.(world := Next(w, Unpersist))
    case Swap(given, lingering) => s.(world := Next(w, UpdateChannel(given, lingering)))
  }

  ghost function History(n: nat, events: seq<Event>): State
  {
    if events == [] then State(SinkChannels.Run([]), seq(n, _ => Free))
    else After(History(n, events[..|events| - 1]), events[|events| - 1])
  }

  ghost function Holding(slots: seq<Slot>, e: nat): set<nat>
  {
    set i | 0 <= i < |slots| && slots[i] == Here(e)
  }

  /** The references outside the sink channel are those the source channels hold. */
  ghost predicate HeldBySources(s: State)
  {
    forall e: nat :: s.world.holders[e] == |Holding(s.slots, e)|
  }

  lemma TakeSlot(slots: seq<Slot>, i: nat, e: nat)
    requires i < |slots| && slots[i].Free?
    ensures forall d: nat :: |Holding(slots[i := Here(e)], d)| == |Holding(slots, d)| + (if d == e then 1 else 0)
  {
    forall d: nat ensures |Holding(slots[i := Here(e)], d)| == |Holding(slots, d)| + (if d == e then 1 else 0) {
      assert Holding(slots[i := Here(e)], d) == Holding(slots, d) + (if d == e then {i} else {});
    }
  }

  lemma FreeSlot(slots: seq<Slot>, i: nat)
    requires i < |slots|
    ensures forall d: nat ::
              |Holding(slots[i := Free], d)| == |Holding(slots, d)| - (if slots[i] == Here(d) then 1 else 0)
  {
    forall d: nat
      ensures |Holding(slots[i := Free], d)| == |Holding(slots, d)| - (if slots[i] == Here(d) then 1 else 0)
    {
      assert Holding(slots[i := Free], d) == Holding(slots, d) - (if slots[i] == Here(d) then {i} else {});
    }
  }

  lemma SameHolders(slots: seq<Slot>, i: nat)
    requires i < |slots| && slots[i].Free?
    ensures forall d: nat :: Holding(slots[i := Elsewhere], d) == Holding(slots, d)
  {
  }

  /** A slot that holds an edge is a holder of it. */
  lemma SlotHolds(s: State, i: nat)
    requires Inv(s.world) && HeldBySources(s) && i < |s.slots| && s.slots[i].Here?
    ensures s.slots[i].e in s.world.holders && Live(s.world.sink, s.slots[i].e)
  {
    assert i in Holding(s.slots, s.slots[i].e);
  }

  /** An attempted edge does to the sink channel what `Connect` says, and is remembered by its source
      exactly when it is made. */
  lemma OfferConnects(s: State, i: nat)
    requires Inv(s.world) && !s.world.aborted && i < |s.slots|
    ensures var (sink, edge) := Connect(s.world.sink, !s.slots[i].Free?);
            var s' := After(s, Offer(i));
            && s'.world.sink == sink && !s'.world.aborted
            && s'.slots == (if edge.Some? then s.slots[i := Here(edge.value)] else s.slots)
            && s'.world.holders == s.world.holders + (if edge.Some? then multiset{edge.value} else multiset{})
  {
    var w, got := s.world, Acquire(s.world.sink).1;
    if got.Some? {
      var mid := Next(w, AcquireIngress);
      assert got.value in mid.holders && Live(mid.sink, got.value);
      assert mid.holders - multiset{got.value} == w.holders;
    }
  }

  lemma OfferKeepsCounts(s: State, i: nat)
    requires Inv(s.world) && HeldBySources(s) && !s.world.aborted && i < |s.slots|
    ensures HeldBySources(After(s, Offer(i)))
  {
    OfferConnects(s, i);
    var edge := Connect(s.world.sink, !s.slots[i].Free?).1;
    if edge.Some? { TakeSlot(s.slots, i, edge.value); }
  }

  lemma OfferInv(s: State, i: nat)
    requires Inv(s.world) && HeldBySources(s) && !s.world.aborted
    ensures Inv(After(s, Offer(i)).world) && HeldBySources(After(s, Offer(i)))
  {
    var got := Acquire(s.world.sink).1;
    if i < |s.slots| && got.Some? {
      NextInv(s.world, AcquireIngress);
      NextInv(Next(s.world, AcquireIngress), DropIngress(got.value));
      OfferKeepsCounts(s, i);
    }
  }

  lemma LeaveInv(s: State, i: nat)
    requires Inv(s.world) && HeldBySources(s) && !s.world.aborted
    ensures Inv(After(s, Leave(i)).world) && HeldBySources(After(s, Leave(i)))
  {
    if i < |s.slots| {
      FreeSlot(s.slots, i);
      if s.slots[i].Here? {
        SlotHolds(s, i);
        NextInv(s.world, DropIngress(s.slots[i].e));
      }
    }
  }

  /** What is done to the sink channel alone leaves the outside references as they are. */
  lemma SinkOpInv(s: State, op: Op)
    requires Inv(s.world) && HeldBySources(s) && (op.Persist? || op.Unpersist? || op.UpdateChannel?)
    ensures Inv(Next(s.world, op)) && HeldBySources(s.(world := Next(s.world, op)))
  {
    NextInv(s.world, op);
    assert Next(s.world, op).holders == s.world.holders;
  }

  lemma AfterInv(s: State, ev: Event)
    requires Inv(s.world) && HeldBySources(s) && !s.world.aborted
    ensures Inv(After(s, ev).world) && HeldBySources(After(s, ev))
  {
    if ev.Offer? {
      OfferInv(s, ev.i);
    } else if ev.Leave? {
      LeaveInv(s, ev.i);
    } else if ev.ConnectElsewhere? {
      if ev.i < |s.slots| && s.slots[ev.i].Free? { SameHolders(s.slots, ev.i); }
    } else if ev.Keep? {
      SinkOpInv(s, Persist);
    } else if ev.Unkeep? {
      SinkOpInv(s, Unpersist);
    } else {
      SinkOpInv(s, UpdateChannel(ev.given, ev.lingering));
    }
  }

  lemma {:induction false} HistoryInv(n: nat, events: seq<Event>)
    ensures Inv(History(n, events).world) && HeldBySources(History(n, events))
  {
    if events == [] {
      SinkChannels.RunInv([]);
      assert forall e: nat :: Holding(History(n, []).slots, e) == {};
    } else {
      HistoryInv(n, events[..|events| - 1]);
      var s := History(n, events[..|events| - 1]);
      if !s.world.aborted { AfterInv(s, events[|events| - 1]); }
    }
  }

  /** What an event does to each source: an offer connects a free source exactly when the sink's channel is open,
      letting go frees it wherever it was connected, and nothing else changes it. */
  lemma SlotMoves(s: State, ev: Event, i: nat)
    requires Inv(s.world) && !s.world.aborted && i < |s.slots|
    ensures var s' := After(s, ev);
            && |s'.slots| == |s.slots|
            && (s'.slots[i].Here? <==>
                  || (s.slots[i].Here? && ev != Leave(i))
                  || (ev == Offer(i) && s.slots[i].Free? && s.world.sink.channel !in s.world.sink.closed))
            && (s'.slots[i].Elsewhere? <==>
                  (s.slots[i].Elsewhere? && ev != Leave(i)) || (ev == ConnectElsewhere(i) && s.slots[i].Free?))
  {
  }

  ghost predicate SomeoneConnected(s: State)
  {
    exists i :: 0 <= i < |s.slots| && s.slots[i].Here?
  }

  lemma LiveMeansHeld(s: State, e: nat)
    requires Inv(s.world) && HeldBySources(s) && Live(s.world.sink, e)
    ensures SomeoneConnected(s) || s.world.sink.persistent.Some?
  {
    if s.world.sink.persistent.None? {
      var i :| i in Holding(s.slots, e);
      assert s.slots[i].Here?;
    }
  }

  lemma HeldMeansOpen(s: State)
    requires Inv(s.world) && HeldBySources(s) && (SomeoneConnected(s) || s.world.sink.persistent.Some?)
    ensures s.world.sink.channel !in s.world.sink.closed
  {
    if SomeoneConnected(s) {
      var i :| 0 <= i < |s.slots| && s.slots[i].Here?;
      SlotHolds(s, i);
      LiveWrites(s.world.sink, s.slots[i].e);
    } else {
      LiveWrites(s.world.sink, s.world.sink.persistent.value);
    }
  }

  ghost predicate AllWrite(s: State)
  {
    forall i :: 0 <= i < |s.slots| && s.slots[i].Here? ==> Writes(s.world.sink, s.slots[i].e)
  }

  ghost predicate OpenWhileConnected(s: State)
  {
    s.world.sink.initialized ==>
      (s.world.sink.channel in s.world.sink.closed <==> !SomeoneConnected(s) && s.world.sink.persistent.None?)
  }

  /** In every history of connecting, refusing, releasing, persisting and replacing: every connected
      source writes to the channel the sink reads, which is open; and once an edge has been made to that
      channel, it is closed exactly when no source is connected and nothing keeps it open. */
  lemma EdgesStayOpen(n: nat, events: seq<Event>)
    ensures AllWrite(History(n, events))
    ensures OpenWhileConnected(History(n, events))
  {
    HistoryInv(n, events);
    var s := History(n, events);
    forall i | 0 <= i < |s.slots| && s.slots[i].Here? ensures Writes(s.world.sink, s.slots[i].e) {
      SlotHolds(s, i);
      LiveWrites(s.world.sink, s.slots[i].e);
    }
    if SomeoneConnected(s) || s.world.sink.persistent.Some? {
      HeldMeansOpen(s);
    } else {
      forall e: nat ensures !Live(s.world.sink, e) {
        if Live(s.world.sink, e) { LiveMeansHeld(s, e); }
      }
      assert s.world.sink.initialized ==> UsedUp(s.world.sink, s.world.sink.channel);
    }
  }

  /** Offering an edge to a source that already has one leaves the sink channel as it was exactly when the
      sink was already connected, kept open, or closed. Otherwise the refusal closes the channel, and
      no edge to it can be made any more. */
  lemma RefusalClosesExactly(n: nat, events: seq<Event>, i: nat)
    requires var s := History(n, events); !s.world.aborted && i < |s.slots| && !s.slots[i].Free?
    ensures var s, s' := History(n, events), After(History(n, events), Offer(i));
            var sink, after := s.world.sink, s'.world.sink;
            && s'.slots == s.slots
            && (after == sink <==> SomeoneConnected(s) || sink.persistent.Some? || sink.channel in sink.closed)
            && (after != sink ==> after.channel in after.closed && Acquire(after).1.None?)
  {
    HistoryInv(n, events);
    OfferConnects(History(n, events), i);
    RefusalCloses(History(n, events));
  }

  lemma RefusalCloses(s: State)
    requires Inv(s.world) && HeldBySources(s)
    ensures var sink, after := s.world.sink, Connect(s.world.sink, true).0;
            && Connect(sink, true).1.None?
            && (after == sink <==> SomeoneConnected(s) || sink.persistent.Some? || sink.channel in sink.closed)
            && (after != sink ==> after.channel in after.closed && Acquire(after).1.None?)
  {
    var sink := s.world.sink;
    if SomeoneConnected(s) {
      var i :| 0 <= i < |s.slots| && s.slots[i].Here?;
      SlotHolds(s, i);
    }
    if sink.weak.Some? && Live(sink, sink.weak.value) {
      LiveMeansHeld(s, sink.weak.value);
      ShareAndDrop(sink, sink.weak.value);
    }
  }

  lemma ShareAndDrop(s: Sink, e: nat)
    requires s.channel !in s.closed ==> s.weak == Some(e)
    requires Live(s, e)
    ensures s.channel !in s.closed ==> Connect(s, true).0 == s
  {
    if s.channel !in s.closed {
      assert Connect(s, true).0.edges == s.edges;
    }
  }

  /** The smallest case: one source, already connected to another sink, is offered to a new one. */
  lemma RefusalClosesNewSink()
    ensures var sink := History(1, [ConnectElsewhere(0), Offer(0)]).world.sink; sink.channel in sink.closed
  {
    var first := [ConnectElsewhere(0)];
    assert [ConnectElsewhere(0), Offer(0)][..1] == first && first[..0] == [];
    assert History(1, first) == State(SinkChannels.Run([]), [Elsewhere]);
    assert After(History(1, first), Offer(0)).world.sink == Connect(Fresh(), true).0;
  }
}
