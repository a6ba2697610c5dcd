/** The reading end of an edge: the sink channel that hands out one shared, reference-counted ingress and
    closes its channel when the last reference goes.

    Channels and edges are numbered in the order they are created. An edge's `strong` count is the one
    kept in the control block of its shared pointer. */
module SinkChannels {
  import opened Options

  datatype Edge = Edge(channel: nat, strong: nat)

  /** The sink channel's fields, the control blocks it shares with the holders of its ingress, and
      which channels have been closed. `channel` is the one the reader reads. */
  datatype Sink = Sink(
    channel: nat,
    channels: nat,
    closed: set<nat>,
    edges: seq<Edge>,
    weak: Option<nat>,
    persistent: Option<nat>,
    initialized: bool)

  function Fresh(): Sink
  {
    Sink(0, 1, {}, [], None, None, false)
  }

  predicate Known(s: Sink, e: nat)
  {
    e < |s.edges|
  }

  predicate Live(s: Sink, e: nat)
  {
    Known(s, e) && s.edges[e].strong > 0
  }

  /** Edge `e` leads to channel `c`. */
  predicate On(s: Sink, e: nat, c: nat)
  {
    Known(s, e) && s.edges[e].channel == c
  }

  /** `channel_ingress`: none when it throws, otherwise the edge the caller now holds once more. */
  function Acquire(s: Sink): (r: (Sink, Option<nat>))
  {
    if s.channel in s.closed then (s, None)
    else if s.weak.Some? && Live(s, s.weak.value) then
      var e := s.weak.value;
      (s.(edges := s.edges[e := s.edges[e].(strong := s.edges[e].strong + 1)]), Some(e))
    else
      var e := |s.edges|;
      (s.(edges := s.edges + [Edge(s.channel, 1)], weak := Some(e), initialized := true), Some(e))
  }

  /** One reference to a live edge goes; the deleter of the last one closes the edge's channel. */
  function Release(s: Sink, e: nat): (s': Sink)
    requires Live(s, e)
  {
    var left := s.edges[e].(strong := s.edges[e].strong - 1);
    s.(edges := s.edges[e := left], closed := if left.strong == 0 then s.closed + {left.channel} else s.closed)
  }

  function EnablePersistence(s: Sink): (s': Sink)
  {
    if s.persistent.Some? then s
    else var (s', e) := Acquire(s); s'.(persistent := e)
  }

  function DisablePersistence(s: Sink): (s': Sink)
  {
    if s.persistent.Some? && Live(s, s.persistent.value)
    then Release(s, s.persistent.value).(persistent := None)
    else s.(persistent := None)
  }

  /** Whether the current channel's use count is one: no live edge, and no dead edge whose deleter
      is still around, which `lingering` says of the edges that are gone. */
  ghost predicate Unshared(s: Sink, lingering: bool)
  {
    forall e: nat :: On(s, e, s.channel) ==> !Live(s, e) && !lingering
  }

  /** `update_channel` once its checks have passed. */
  function Replace(s: Sink): (s': Sink)
  {
    s.(channel := s.channels, channels := s.channels + 1, initialized := false)
  }

  class SinkChannel {
    var channel: nat
    var channels: nat
    var closed: set<nat>
    var edges: seq<Edge>
    var weak: Option<nat>
    var persistent: Option<nat>
    var initialized: bool

    ghost function View(): Sink
      reads this
    {
      Sink(channel, channels, closed, edges, weak, persistent, initialized)
    }

    constructor ()
      ensures View() == Fresh()
    {
      channel, channels, closed, edges := 0, 1, {}, [];
      weak, persistent, initialized := None, None, false;
    }

    method ChannelIngress() returns (ingress: Option<nat>)
      modifies this
      ensures (View(), ingress) == Acquire(old(View()))
    {
      if channel in closed {
        return None;
      }
      if weak.Some? && weak.value < |edges| && edges[weak.value].strong > 0 {
        var block := edges[weak.value];
        edges := edges[weak.value := block.(strong := block.strong + 1)];
        return weak;
      }
      edges := edges + [Edge(channel, 1)];
      weak := Some(|edges| - 1);
      initialized := true;
      return weak;
    }

    method Drop(e: nat)
      requires Live(View(), e)
      modifies this
      ensures View() == Release(old(View()), e)
    {
      var block := edges[e].(strong := edges[e].strong - 1);
      edges := edges[e := block];
      if block.strong == 0 {
        closed := closed + {block.channel};
      }
    }

    method Persist()
      modifies this
      ensures View() == EnablePersistence(old(View()))
    {
      if persistent.None? {
        var ingress := ChannelIngress();
        persistent := ingress;
      }
    }

    method Unpersist()
      requires persistent.Some? ==> Live(View(), persistent.value)
      modifies this
      ensures View() == DisablePersistence(old(View()))
    {
      if persistent.Some? {
        Drop(persistent.value);
      }
      persistent := None;
    }

    /** The channel's use count: the sink channel itself, two for every live edge, which has the channel and
        a deleter that has it too, and one for a dead edge whose deleter is still around. */
    method UseCount(lingering: bool) returns (count: nat)
      ensures count >= 1
      ensures count == 1 <==> Unshared(View(), lingering)
    {
      count := 1;
      for e := 0 to |edges|
        invariant count >= 1
        invariant count == 1 <==> forall d: nat :: d < e && On(View(), d, channel) ==> !Live(View(), d) && !lingering
      {
        assert On(View(), e, channel) <==> edges[e].channel == channel;
        if edges[e].channel == channel {
          count := count + if edges[e].strong > 0 then 2 else if lingering then 1 else 0;
        }
      }
    }

    /** The answer says whether the checks passed. */
    method UpdateChannel(given: bool, lingering: bool) returns (ok: bool)
      modifies this
      ensures ok <==> given && Unshared(old(View()), lingering)
      ensures View() == if ok then Replace(old(View())) else old(View())
    {
      var useCount := UseCount(lingering);
      ok := given && useCount == 1;
      if ok {
        channel := channels;
        channels := channels + 1;
        initialized := false;
      }
    }
  }

  // ---------------------------------------------------------------------------------------
  // Everything that can happen to a sink channel and its holders

  /** `holders` counts the references held outside the sink channel, edge by edge. */
  datatype World = World(sink: Sink, holders: multiset<nat>, aborted: bool)

  datatype Op =
    | AcquireIngress
    | Copy(e: nat)
    | DropIngress(e: nat)
    | Persist
    | Unpersist
    | UpdateChannel(given: bool, lingering: bool)

  ghost function Next(w: World, op: Op): World
  {
    if w.aborted then w else
    match op
    case AcquireIngress =>
      var (s', e) := Acquire(w.sink);
      if e.None? then w else w.(sink := s', holders := w.holders + multiset{e.value})
    case Copy(e) =>
      if e in w.holders && Known(w.sink, e) then
        var block := w.sink.edges[e];
        w.(sink := w.sink.(edges := w.sink.edges[e := block.(strong := block.strong + 1)]),
           holders := w.holders + multiset{e})
      else w
    case DropIngress(e) =>
      if e in w.holders && Live(w.sink, e)
      then w.(sink := Release(w.sink, e), holders := w.holders - multiset{e})
      else w
    case Persist => w.(sink := EnablePersistence(w.sink))
    case Unpersist => w.(sink := DisablePersistence(w.sink))
    case UpdateChannel(given, lingering) =>
      if given && Unshared(w.sink, lingering) then w.(sink := Replace(w.sink)) else w.(aborted := true)
  }

  ghost function Run(ops: seq<Op>): World
  {
    if ops == [] then World(Fresh(), multiset{}, false)
    else Next(Run(ops[..|ops| - 1]), ops[|ops| - 1])
  }

  // ---------------------------------------------------------------------------------------
  // The contract of an ingress

  /** Control blocks count the references that exist. */
  ghost predicate Counted(w: World)
  {
    && (forall e :: e in w.holders ==> Known(w.sink, e))
    && (w.sink.persistent.Some? ==> Known(w.sink, w.sink.persistent.value))
    && forall e :: 0 <= e < |w.sink.edges| ==>
         w.sink.edges[e].strong == w.holders[e] + (if w.sink.persistent == Some(e) then 1 else 0)
  }

  /** A live edge is the one the weak pointer knows, and leads to the channel being read. */
  ghost predicate OneEdge(s: Sink)
  {
    forall e: nat :: Live(s, e) ==> s.weak == Some(e) && s.edges[e].channel == s.channel
  }

  /** Channel `c` had an ingress and no reference to one is left. */
  ghost predicate UsedUp(s: Sink, c: nat)
  {
    && (exists e: nat :: On(s, e, c))
    && forall e: nat :: On(s, e, c) ==> !Live(s, e)
  }

  ghost predicate ClosedWhenUsedUp(s: Sink)
  {
    forall c: nat :: c in s.closed <==> UsedUp(s, c)
  }

  ghost predicate SinkInv(s: Sink)
  {
    && OneEdge(s)
    && ClosedWhenUsedUp(s)
    && s.channel < s.channels
    && (forall e :: 0 <= e < |s.edges| ==> s.edges[e].channel < s.channels)
    && (s.weak.Some? ==> Known(s, s.weak.value))
    && (s.initialized <==> exists e: nat :: On(s, e, s.channel))
  }

  ghost predicate Inv(w: World)
  {
    Counted(w) && SinkInv(w.sink)
  }

  lemma PersistentIrrelevant(s: Sink, p: Option<nat>)
    requires SinkInv(s)
    ensures SinkInv(s.(persistent := p))
  {
    var s' := s.(persistent := p);
    assert forall d: nat, c: nat :: On(s', d, c) <==> On(s, d, c);
    assert forall d: nat :: Live(s', d) <==> Live(s, d);
    assert forall c: nat :: UsedUp(s', c) <==> UsedUp(s, c);
  }

  /** Raising the count of a live edge. */
  lemma ShareKeepsClosed(s: Sink, s': Sink, e: nat)
    requires ClosedWhenUsedUp(s) && OneEdge(s) && Live(s, e)
    requires s' == s.(edges := s.edges[e := s.edges[e].(strong := s.edges[e].strong + 1)])
    ensures ClosedWhenUsedUp(s') && OneEdge(s')
  {
    forall c: nat ensures c in s'.closed <==> UsedUp(s', c) {
      assert forall d: nat :: On(s', d, c) <==> On(s, d, c);
      assert forall d: nat :: Live(s', d) <==> Live(s, d);
    }
  }

  /** Making the first edge of an open channel. */
  lemma FirstEdgeKeepsClosed(s: Sink, s': Sink)
    requires ClosedWhenUsedUp(s) && OneEdge(s) && s.channel !in s.closed
    requires s.weak.Some? ==> Known(s, s.weak.value) && !Live(s, s.weak.value)
    requires s'.edges == s.edges + [Edge(s.channel, 1)] && s'.weak == Some(|s.edges|)
    requires s'.closed == s.closed && s'.channel == s.channel
    ensures ClosedWhenUsedUp(s') && OneEdge(s')
  {
    var made := |s.edges|;
    assert On(s', made, s.channel) && Live(s', made);
    assert forall d: nat, c: nat :: d != made ==> (On(s', d, c) <==> On(s, d, c));
    assert forall d: nat :: d != made ==> (Live(s', d) <==> Live(s, d));
    forall c: nat ensures c in s'.closed <==> UsedUp(s', c) {
      if c != s.channel {
        assert !On(s', made, c);
        assert UsedUp(s', c) <==> UsedUp(s, c);
      }
    }
  }

  lemma AcquireSink(s: Sink)
    requires SinkInv(s) && s.channel !in s.closed
    ensures SinkInv(Acquire(s).0)
  {
    var (s', e) := Acquire(s);
    if s.weak.Some? && Live(s, s.weak.value) {
      ShareKeepsClosed(s, s', e.value);
      assert On(s, e.value, s.channel);
    } else {
      FirstEdgeKeepsClosed(s, s');
    }
    assert s'.initialized && On(s', e.value, s'.channel);
  }

  /** The new reference goes to an outside holder, or becomes the persistent one. */
  lemma AcquireInv(w: World, w': World)
    requires Inv(w) && Acquire(w.sink).1.Some?
    requires var (s', e) := Acquire(w.sink);
             || (w'.sink == s' && w'.holders == w.holders + multiset{e.value})
             || (w'.sink == s'.(persistent := e) && w.sink.persistent.None? && w'.holders == w.holders)
    ensures Inv(w')
  {
    AcquireSink(w.sink);
    PersistentIrrelevant(Acquire(w.sink).0, w'.sink.persistent);
  }

  lemma ReleaseKeepsClosed(s: Sink, e: nat)
    requires ClosedWhenUsedUp(s) && OneEdge(s) && Live(s, e)
    ensures ClosedWhenUsedUp(Release(s, e)) && OneEdge(Release(s, e))
  {
    var s' := Release(s, e);
    assert On(s, e, s.edges[e].channel);
    assert forall d: nat, c: nat :: On(s', d, c) <==> On(s, d, c);
    forall c: nat ensures c in s'.closed <==> UsedUp(s', c) {
      if c == s.channel {
        assert forall d: nat :: On(s', d, c) && d != e ==> !Live(s', d);
        assert On(s', e, c);
      } else {
        assert forall d: nat :: On(s', d, c) ==> (Live(s', d) <==> Live(s, d));
      }
    }
  }

  lemma ReleaseInv(w: World, e: nat, w': World)
    requires Inv(w) && Live(w.sink, e)
    requires || (e in w.holders && w'.sink == Release(w.sink, e) && w'.holders == w.holders - multiset{e})
             || (w.sink.persistent == Some(e) && w'.sink == Release(w.sink, e).(persistent := None) &&
                 w'.holders == w.holders)
    ensures Inv(w')
  {
    var s' := Release(w.sink, e);
    ReleaseKeepsClosed(w.sink, e);
    assert forall d: nat, c: nat :: On(s', d, c) <==> On(w.sink, d, c);
    PersistentIrrelevant(s', w'.sink.persistent);
  }

  lemma ReplaceInv(w: World, lingering: bool)
    requires Inv(w) && Unshared(w.sink, lingering)
    ensures Inv(w.(sink := Replace(w.sink)))
  {
    var s, s' := w.sink, Replace(w.sink);
    assert forall d: nat, c: nat :: On(s', d, c) <==> On(s, d, c);
    assert forall d: nat :: Live(s', d) <==> Live(s, d);
    assert forall c: nat :: UsedUp(s', c) <==> UsedUp(s, c);
    forall e: nat ensures !Live(s, e) {
      if Live(s, e) { assert On(s, e, s.channel); }
    }
  }

  lemma NextInv(w: World, op: Op)
    requires Inv(w)
    ensures Inv(Next(w, op))
  {
    var s, w' := w.sink, Next(w, op);
    if w.aborted {
    } else if op.AcquireIngress? || (op.Persist? && s.persistent.None?) {
      if Acquire(s).1.Some? { AcquireInv(w, w'); }
    } else if op.Copy? {
      if op.e in w.holders { CopyInv(w, op.e); }
    } else if op.DropIngress? {
      if op.e in w.holders { ReleaseInv(w, op.e, w'); }
    } else if op.Unpersist? {
      if s.persistent.Some? { ReleaseInv(w, s.persistent.value, w'); }
    } else if op.UpdateChannel? {
      if op.given && Unshared(s, op.lingering) { ReplaceInv(w, op.lingering); } else { AbortInv(w); }
    }
  }

  lemma AbortInv(w: World)
    requires Inv(w)
    ensures Inv(w.(aborted := true))
  {
  }

  lemma CopyInv(w: World, e: nat)
    requires Inv(w) && !w.aborted && e in w.holders
    ensures Inv(Next(w, Copy(e)))
  {
    var s, s' := w.sink, Next(w, Copy(e)).sink;
    ShareKeepsClosed(s, s', e);
    assert forall d: nat, c: nat :: On(s', d, c) <==> On(s, d, c);
  }

  lemma {:induction false} RunInv(ops: seq<Op>)
    ensures Inv(Run(ops))
  {
    if ops == [] {
      assert forall c: nat :: !UsedUp(Fresh(), c);
    } else {
      RunInv(ops[..|ops| - 1]);
      NextInv(Run(ops[..|ops| - 1]), ops[|ops| - 1]);
    }
  }

  // ---------------------------------------------------------------------------------------
  // What is promised

  /** Edge `e` is alive and leads to the channel being read, which is open. */
  ghost predicate Writes(s: Sink, e: nat)
  {
    Live(s, e) && s.edges[e].channel == s.channel && s.channel !in s.closed
  }

  lemma LiveWrites(s: Sink, e: nat)
    requires SinkInv(s) && Live(s, e)
    ensures Writes(s, e)
  {
    assert On(s, e, s.channel);
  }

  ghost predicate IngressContract(w: World)
  {
    && (forall e :: e in w.holders ==> Writes(w.sink, e))
    && ClosedWhenUsedUp(w.sink)
    && (w.sink.persistent.Some? ==> w.sink.channel !in w.sink.closed)
    && Counted(w)
  }

  /** Over every interleaving of acquiring, copying, dropping, persisting, unpersisting and replacing
      the channel: whoever holds an ingress writes to the channel being read, and finds it open; a
      channel is closed exactly when it had an ingress and the last reference to it has gone; a
      persistent sink channel is open; and reference counts are right. */
  lemma LiveIngressIsOpen(ops: seq<Op>)
    ensures IngressContract(Run(ops))
  {
    RunInv(ops);
    var w := Run(ops);
    forall e | e in w.holders || w.sink.persistent == Some(e) ensures Writes(w.sink, e) {
      assert w.sink.edges[e].strong > 0;
      LiveWrites(w.sink, e);
    }
  }

  /** A replacement that passes its check finds no live ingress at all, so nobody is left writing to
      a channel nobody reads; and a channel that never had an ingress can always be replaced. */
  lemma ReplacementIsSafe(ops: seq<Op>, lingering: bool)
    requires !Run(ops).aborted
    ensures var w := Run(ops);
            var w' := Next(w, UpdateChannel(true, lingering));
            && (!w'.aborted ==> w.holders == multiset{} && w.sink.persistent.None?)
            && (!w'.aborted ==> w'.sink.channel !in w'.sink.closed)
            && (!w.sink.initialized ==> !w'.aborted)
  {
    RunInv(ops);
    var w := Run(ops);
    var w' := Next(w, UpdateChannel(true, lingering));
    LiveIngressIsOpen(ops);
    if !w'.aborted {
      forall e: nat ensures w.holders[e] == 0 && w.sink.persistent != Some(e) {
        if Known(w.sink, e) && Live(w.sink, e) { assert On(w.sink, e, w.sink.channel); }
      }
      assert forall e: nat :: e !in w.holders;
      assert w.sink.channels !in w.sink.closed by {
        assert forall e: nat :: !On(w.sink, e, w.sink.channels);
      }
    }
  }

  /** Acquiring fails exactly when the current channel's last ingress has gone. */
  lemma AcquireFailsWhenUsedUp(ops: seq<Op>)
    ensures var s := Run(ops).sink;
            Acquire(s).1.None? <==> s.initialized && forall e: nat :: !Live(s, e)
  {
    RunInv(ops);
    var s := Run(ops).sink;
    assert forall e: nat :: Live(s, e) ==> On(s, e, s.channel);
    assert s.channel in s.closed <==> UsedUp(s, s.channel);
  }
}
