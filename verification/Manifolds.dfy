/** The load balancer: a round-robin egress over the attached outputs, topology updates that are
    queued and applied together, and the eight fibers that pick outputs one at a time. The fibers
    share one thread and never yield while picking, so their picks form a single sequence. */
module Manifolds {
  import opened Cyclic
  import opened Finite
  import opened Options

  type Address = nat

  /** `picks` is the pick list, `next` the position of the next pick. Clearing drops the outputs and
      leaves the pick list as it was. */
  datatype Egress = Egress(outputs: set<Address>, picks: seq<Address>, next: nat)

  /** `order` lists exactly the members of `outputs`, each once: a shuffle of them. */
  ghost predicate Permutes(order: seq<Address>, outputs: set<Address>)
  {
    Distinct(order) && forall a :: a in order <==> a in outputs
  }

  function Attach(e: Egress, a: Address, order: seq<Address>): Option<Egress>
  {
    if a in e.outputs then None else Some(Egress(e.outputs + {a}, order, 0))
  }

  function Pick(e: Egress): Option<(Egress, Address)>
  {
    if e.next >= |e.picks| then None
    else Some((e.(next := if e.next + 1 == |e.picks| then 0 else e.next + 1), e.picks[e.next]))
  }

  function Clear(e: Egress): Egress
  {
    e.(outputs := {})
  }

  // ---------------------------------------------------------------------------------------
  // The objects

  class RoundRobinEgress {
    var outputs: set<Address>
    var picks: seq<Address>
    var next: nat

    ghost function View(): Egress
      reads this
    {
      Egress(outputs, picks, next)
    }

    constructor ()
      ensures View() == Egress({}, [], 0)
    {
      outputs, picks, next := {}, [], 0;
    }

    /** Chooses the output to write to and moves on, before the write that may yield. */
    method Choose() returns (chosen: Option<Address>)
      modifies this
      ensures chosen.None? <==> Pick(old(View())).None?
      ensures chosen.None? ==> View() == old(View())
      ensures chosen.Some? ==> Pick(old(View())) == Some((View(), chosen.value))
    {
      if next >= |picks| {
        return None;
      }
      var current := next;
      next := next + 1;
      if next == |picks| {
        next := 0;
      }
      return Some(picks[current]);
    }

    /** The whole write: the check that there is a next output, and the check that the write to it succeeds,
        which it does unless the output is among `failing`. */
    method AwaitWrite(failing: set<Address>) returns (ok: bool)
      modifies this
      ensures ok <==> Pick(old(View())).Some? && Pick(old(View())).value.1 !in failing
      ensures View() == if Pick(old(View())).Some? then Pick(old(View())).value.0 else old(View())
    {
      var chosen := Choose();
      ok := chosen.Some? && chosen.value !in failing;
    }

    /** `open` says whether the output's sink still takes an edge; if not, making one throws. */
    method AddOutput(a: Address, order: seq<Address>, open: bool) returns (ok: bool)
      requires Permutes(order, outputs + {a})
      modifies this
      ensures ok <==> open && Attach(old(View()), a, order).Some?
      ensures View() == if ok then Attach(old(View()), a, order).value else old(View())
    {
      ok := a !in outputs && open;
      if ok {
        outputs := outputs + {a};
        picks := order;
        next := 0;
      }
    }

    method ClearOutputs()
      modifies this
      ensures View() == Clear(old(View()))
    {
      outputs := {};
    }
  }

  class CompositeManifold {
    const egress: RoundRobinEgress
    var pending: seq<Address>

    constructor ()
      ensures pending == [] && fresh(egress) && egress.View() == Egress({}, [], 0)
    {
      egress := new RoundRobinEgress();
      pending := [];
    }

    /** Nothing is attached until the next update. */
    method DoAddOutput(a: Address)
      modifies this
      ensures pending == old(pending) + [a]
    {
      pending := pending + [a];
    }

    /** Applies the queued updates in order, `done` of them. All are applied exactly when no queued address
        is there twice or attached already and every sink takes its edge; then the queue is emptied. One
        that fails leaves those before it attached and the whole queue in place. */
    method UpdateOutputs(orders: seq<seq<Address>>, open: set<Address>) returns (ok: bool, done: nat)
      requires |orders| == |pending|
      requires forall k :: 0 <= k < |orders| ==> Permutes(orders[k], egress.outputs + Members(pending[..k + 1]))
      modifies this, egress
      ensures ok <==>
              Distinct(old(pending)) && forall a :: a in old(pending) ==> a !in old(egress.outputs) && a in open
      ensures done <= |old(pending)| && (ok ==> done == |old(pending)|)
      ensures pending == if ok then [] else old(pending)
      ensures egress.outputs == old(egress.outputs) + Members(old(pending)[..done])
      ensures done > 0 ==> Permutes(egress.picks, egress.outputs) && egress.next == 0
      ensures done == 0 ==> egress.View() == old(egress.View())
    {
      done := 0;
      while done < |pending|
        invariant done <= |pending| && pending == old(pending)
        invariant Distinct(pending[..done])
        invariant forall a :: a in pending[..done] ==> a !in old(egress.outputs) && a in open
        invariant egress.outputs == old(egress.outputs) + Members(pending[..done])
        invariant done > 0 ==> Permutes(egress.picks, egress.outputs) && egress.next == 0
        invariant done == 0 ==> egress.View() == old(egress.View())
      {
        var a := pending[done];
        assert pending[..done + 1] == pending[..done] + [a];
        assert egress.outputs + {a} == old(egress.outputs) + Members(pending[..done + 1]);
        ok := egress.AddOutput(a, orders[done], a in open);
        if !ok {
          assert a in pending[..done] || a in old(egress.outputs) || a !in open;
          return;
        }
        done := done + 1;
      }
      assert pending[..done] == pending;
      pending := [];
      ok := true;
    }
  }

  // ---------------------------------------------------------------------------------------
  // Every interleaving

  /** `Data` is one fiber picking an output for one value. */
  datatype Event = Add(a: Address, order: seq<Address>) | Data | ClearAll

  /** `since` lists the picks since the pick list was last made. `dangling` records a pick whose
      output was no longer there, `aborted` a failed check. */
  datatype World = World(egress: Egress, since: seq<Address>, dangling: bool, aborted: bool)

  ghost function Next(w: World, e: Event): World
  {
    if w.aborted then w else
    match e
    case Add(a, order) =>
      if !Permutes(order, w.egress.outputs + {a}) then w else
      (match Attach(w.egress, a, order)
       case None => w.(aborted := true)
       case Some(egress) => w.(egress := egress, since := []))
    case Data =>
      (match Pick(w.egress)
       case None => w.(aborted := true)
       case Some((egress, a)) =>
         w.(egress := egress, since := w.since + [a], dangling := w.dangling || a !in w.egress.outputs))
    case ClearAll => w.(egress := Clear(w.egress))
  }

  ghost function Run(events: seq<Event>): World
  {
    if events == [] then World(Egress({}, [], 0), [], false, false)
    else Next(Run(events[..|events| - 1]), events[|events| - 1])
  }

  ghost predicate Inv(w: World)
  {
    var e := w.egress;
    && (e.outputs == {} || Permutes(e.picks, e.outputs))
    && Distinct(e.picks)
    && (e.picks == [] ==> e.next == 0 && w.since == [])
    && (e.picks != [] ==> Cycles(e.picks, w.since) && e.next == |w.since| % |e.picks|)
  }

  lemma NextInv(w: World, e: Event)
    requires Inv(w)
    ensures Inv(Next(w, e))
  {
    if e.Data? && w.egress.picks != [] {
      NextIndex(|w.since|, |w.egress.picks|);
    } else if e.Add? && Permutes(e.order, w.egress.outputs + {e.a}) {
      assert e.a in e.order;
      DivMod(0, 0, |e.order|);
    }
  }

  lemma {:induction false} RunInv(events: seq<Event>)
    ensures Inv(Run(events))
  {
    if events != [] {
      RunInv(events[..|events| - 1]);
      NextInv(Run(events[..|events| - 1]), events[|events| - 1]);
    }
  }

  /** The output at position `p` has had its share of the values picked. */
  ghost predicate HasShare(picks: seq<Address>, since: seq<Address>, p: nat)
    requires p < |picks|
  {
    multiset(since)[picks[p]] == |since| / |picks| + (if p < |since| % |picks| then 1 else 0)
  }

  /** However the fibers and the topology updates interleave: while outputs are attached the pick
      list is a permutation of them and the position is in range; and the k picks made since the
      list was last made gave each of the n outputs k/n values, rounded down or up: up exactly for
      those at the first k mod n positions. */
  lemma RoundRobinIsFair(events: seq<Event>, p: nat)
    requires Run(events).egress.outputs != {} && p < |Run(events).egress.picks|
    ensures Permutes(Run(events).egress.picks, Run(events).egress.outputs)
    ensures Run(events).egress.next < |Run(events).egress.picks|
    ensures HasShare(Run(events).egress.picks, Run(events).since, p)
  {
    RunInv(events);
    CyclicCount(Run(events).egress.picks, Run(events).since, p);
  }

  // ---------------------------------------------------------------------------------------
  // Which runs fail

  /** The outputs attached since the last clearing, told from the events alone. */
  ghost function Outputs(events: seq<Event>): set<Address>
  {
    if events == [] then {}
    else
      var before, e := Outputs(events[..|events| - 1]), events[|events| - 1];
      match e
      case Add(a, _) => before + {a}
      case ClearAll => {}
      case Data => before
  }

  ghost predicate AddedAt(events: seq<Event>, a: Address, i: nat)
  {
    i < |events| && events[i].Add? && events[i].a == a && forall j :: i < j < |events| ==> !events[j].ClearAll?
  }

  /** An output is attached when it was added and nothing was cleared since. */
  lemma {:induction false} OutputsExactly(events: seq<Event>, a: Address)
    ensures a in Outputs(events) <==> exists i: nat :: AddedAt(events, a, i)
  {
    if events != [] {
      var k := |events| - 1;
      OutputsExactly(events[..k], a);
      if i: nat :| AddedAt(events, a, i) && i < k { assert AddedAt(events[..k], a, i); }
      if events[k].Add? && events[k].a == a {
        assert AddedAt(events, a, k);
      } else if i: nat :| AddedAt(events[..k], a, i) {
        assert events[k].ClearAll? || AddedAt(events, a, i);
      }
    }
  }

  /** Every list that was made is a shuffle of the outputs attached at the time. */
  ghost predicate Shuffled(events: seq<Event>)
  {
    events == [] ||
    var k := |events| - 1;
    Shuffled(events[..k]) && (events[k].Add? ==> Permutes(events[k].order, Outputs(events[..k]) + {events[k].a}))
  }

  /** A value is balanced while no output is attached, or an output is added that is attached already. */
  ghost predicate Misuses(before: seq<Event>, e: Event)
  {
    match e
    case Data => Outputs(before) == {}
    case Add(a, _) => a in Outputs(before)
    case ClearAll => false
  }

  ghost predicate Misused(events: seq<Event>)
  {
    events != [] &&
    var k := |events| - 1; Misused(events[..k]) || Misuses(events[..k], events[k])
  }

  lemma NextOutputs(w: World, before: seq<Event>, e: Event)
    requires Inv(w) && !w.aborted && !w.dangling && w.egress.outputs == Outputs(before)
    requires e.Add? ==> Permutes(e.order, Outputs(before) + {e.a})
    ensures Next(w, e).aborted || Next(w, e).dangling <==> Misuses(before, e)
    ensures !Misuses(before, e) ==> Next(w, e).egress.outputs == Outputs(before + [e])
  {
    assert (before + [e])[..|before|] == before;
    if e.Data? && w.egress.picks != [] {
      assert w.egress.picks[w.egress.next] in w.egress.picks;
    }
  }

  /** A run of the egress meets a failed check or picks an output that is gone exactly when it balances a
      value with no output attached, or adds an output that is attached. */
  lemma {:induction false} FailsExactly(events: seq<Event>)
    requires Shuffled(events)
    ensures Run(events).aborted || Run(events).dangling <==> Misused(events)
    ensures !Misused(events) ==> Run(events).egress.outputs == Outputs(events)
  {
    if events != [] {
      var k := |events| - 1;
      FailsExactly(events[..k]);
      RunInv(events[..k]);
      assert events == events[..k] + [events[k]];
      if !Misused(events[..k]) { NextOutputs(Run(events[..k]), events[..k], events[k]); }
    }
  }

  ghost predicate EverAdded(events: seq<Event>)
  {
    exists k :: 0 <= k < |events| && events[k].Add?
  }

  lemma {:induction false} PicksExactly(events: seq<Event>)
    requires Shuffled(events) && !Run(events).aborted
    ensures Run(events).egress.picks != [] <==> EverAdded(events)
  {
    if events != [] {
      var k := |events| - 1;
      PicksExactly(events[..k]);
      RunInv(events[..k]);
      assert EverAdded(events) <==> EverAdded(events[..k]) || events[k].Add? by {
        assert forall j :: 0 <= j < k ==> events[..k][j] == events[j];
      }
      OutputsAgree(events[..k]);
      if events[k].Add? { assert events[k].a in events[k].order; }
    }
  }

  /** Dangling or not, the outputs are those attached. */
  lemma {:induction false} OutputsAgree(events: seq<Event>)
    requires Shuffled(events) && !Run(events).aborted
    ensures Run(events).egress.outputs == Outputs(events)
  {
    if events != [] { OutputsAgree(events[..|events| - 1]); }
  }

  /** Balancing a value trips the check exactly when no output was ever attached, and picks an output
      that is gone exactly when the outputs were cleared and none attached since. */
  lemma DataFailsExactly(events: seq<Event>)
    requires Shuffled(events) && !Run(events).aborted && !Run(events).dangling
    ensures Next(Run(events), Data).aborted <==> !EverAdded(events)
    ensures Next(Run(events), Data).dangling <==> EverAdded(events) && Outputs(events) == {}
  {
    RunInv(events);
    PicksExactly(events);
    OutputsAgree(events);
    var e := Run(events).egress;
    assert e.picks != [] ==> e.next < |e.picks| && e.picks[e.next] in e.picks;
  }
}
