/** The balancer as a node of the running graph and as part of a pipeline. Its instances' callbacks drive
    the round-robin egress, data by picking an output, the critical section by clearing them all. The
    pipeline's updates attach outputs: each creates segments, attaches those that read from the manifold,
    and only then starts the manifold, so that its balancer runs. */
module LoadBalancers {
  import opened Dataflow
  import opened DataflowOrder
  import opened Finite
  import Manifolds
  import Pipelines

  // ---------------------------------------------------------------------------------------
  // The callbacks

  /** The calls a balancer's callbacks make on its egress. */
  ghost function Callbacks(log: seq<Event>): seq<Manifolds.Event>
  {
    if log == [] then []
    else
      var rest := Callbacks(log[..|log| - 1]);
      match log[|log| - 1]
      case Data(_) => rest + [Manifolds.Data]
      case Section(_) => rest + [Manifolds.ClearAll]
      case _ => rest
  }

  /** No value is balanced after the outputs were cleared. */
  ghost predicate NoDataAfterClear(events: seq<Manifolds.Event>)
  {
    events == [] ||
    (var k := |events| - 1; NoDataAfterClear(events[..k]) && (events[k].Data? ==> Manifolds.ClearAll !in events[..k]))
  }

  lemma {:induction false} OrderedCallbacks(width: nat, log: seq<Event>)
    requires Ordered(width, log)
    ensures NoDataAfterClear(Callbacks(log))
    ensures Manifolds.ClearAll in Callbacks(log) ==> exists j :: Section(j) in log
  {
    if log != [] {
      var before, e := log[..|log| - 1], log[|log| - 1];
      OrderedCallbacks(width, before);
      var rest := Callbacks(before);
      assert (rest + [Manifolds.Data])[..|rest|] == rest && (rest + [Manifolds.ClearAll])[..|rest|] == rest;
      assert log == before + [e];
      if Manifolds.ClearAll in rest {
        var j :| Section(j) in before;
        assert Section(j) in log;
      }
    }
  }

  // ---------------------------------------------------------------------------------------
  // The life of a manifold

  /** The segments with a port on the manifold, and those among them that read from it. */
  datatype Ports = Ports(users: set<nat>, readers: set<nat>)

  /** Either something happens to the pipeline, an update attaching the outputs `list` and shuffling the
      pick list each time, or the balancer calls its egress. */
  datatype Moment =
    | Pipe(step: Pipelines.Step, list: seq<nat>, orders: seq<seq<nat>>)
    | Call(call: Manifolds.Event)

  ghost function Steps(life: seq<Moment>): seq<Pipelines.Step>
  {
    if life == [] then []
    else
      var rest := Steps(life[..|life| - 1]);
      if life[|life| - 1].Pipe? then rest + [life[|life| - 1].step] else rest
  }

  ghost function Calls(life: seq<Moment>): seq<Manifolds.Event>
  {
    if life == [] then []
    else
      var rest := Calls(life[..|life| - 1]);
      if life[|life| - 1].Call? then rest + [life[|life| - 1].call] else rest
  }

  ghost function Adds(list: seq<nat>, orders: seq<seq<nat>>): seq<Manifolds.Event>
    requires |list| == |orders|
  {
    seq(|list|, i requires 0 <= i < |list| => Manifolds.Add(list[i], orders[i]))
  }

  /** Everything the egress sees. */
  ghost function Events(life: seq<Moment>): seq<Manifolds.Event>
  {
    if life == [] then []
    else
      var rest, m := Events(life[..|life| - 1]), life[|life| - 1];
      if m.Call? then rest + [m.call]
      else if |m.list| == |m.orders| then rest + Adds(m.list, m.orders)
      else rest
  }

  /** What one more step of the pipeline creates. */
  ghost function NewSegments(before: seq<Pipelines.Step>, step: Pipelines.Step): set<nat>
  {
    if Pipelines.IsUpdate(step) then step.message.requested.Keys - Pipelines.Requested(before) else {}
  }

  /** A segment with a port on the manifold has been created, so the manifold exists and was started by the
      update that created it. */
  ghost predicate Started(ports: Ports, steps: seq<Pipelines.Step>)
  {
    steps != [] &&
    var k := |steps| - 1;
    Started(ports, steps[..k]) || NewSegments(steps[..k], steps[k]) * ports.users != {}
  }

  /** The update that creates the manifold also creates a segment that reads from it. */
  ghost predicate FirstFlushAttaches(ports: Ports, steps: seq<Pipelines.Step>)
  {
    steps == [] ||
    var k := |steps| - 1;
    && FirstFlushAttaches(ports, steps[..k])
    && (!Started(ports, steps[..k]) && Started(ports, steps) ==>
          NewSegments(steps[..k], steps[k]) * ports.readers != {})
  }

  /** The pick list made after attaching each output of `list` is a shuffle of those attached by then. */
  ghost predicate ShufflesEach(outputs: set<nat>, list: seq<nat>, orders: seq<seq<nat>>)
  {
    && |orders| == |list|
    && forall i :: 0 <= i < |list| ==> Manifolds.Permutes(orders[i], outputs + Members(list[..i + 1]))
  }

  /** An update attaches the new segments that read from the manifold, each once, in some order; nothing else
      attaches anything; and the balancer calls its egress only once the manifold has been started. */
  ghost predicate Possible(ports: Ports, before: seq<Moment>, m: Moment)
  {
    match m
    case Pipe(step, list, orders) =>
      && Manifolds.Permutes(list, NewSegments(Steps(before), step) * ports.readers)
      && ShufflesEach(Manifolds.Outputs(Events(before)), list, orders)
    case Call(call) => !call.Add? && Started(ports, Steps(before))
  }

  ghost predicate Life(ports: Ports, life: seq<Moment>)
  {
    life == [] ||
    var k := |life| - 1; Life(ports, life[..k]) && Possible(ports, life[..k], life[k])
  }

  // ---------------------------------------------------------------------------------------
  // Nothing fails

  ghost predicate Sound(events: seq<Manifolds.Event>)
  {
    Manifolds.Shuffled(events) && !Manifolds.Misused(events)
  }

  lemma AddIsSound(events: seq<Manifolds.Event>, a: nat, order: seq<nat>)
    requires Sound(events) && a !in Manifolds.Outputs(events)
    requires Manifolds.Permutes(order, Manifolds.Outputs(events) + {a})
    ensures Sound(events + [Manifolds.Add(a, order)])
    ensures Manifolds.Outputs(events + [Manifolds.Add(a, order)]) == Manifolds.Outputs(events) + {a}
  {
    assert (events + [Manifolds.Add(a, order)])[..|events|] == events;
  }

  lemma ShufflesFewer(outputs: set<nat>, list: seq<nat>, orders: seq<seq<nat>>, k: nat)
    requires ShufflesEach(outputs, list, orders) && k <= |list|
    ensures ShufflesEach(outputs, list[..k], orders[..k])
  {
    forall i | 0 <= i < k ensures Manifolds.Permutes(orders[..k][i], outputs + Members(list[..k][..i + 1])) {
      assert list[..k][..i + 1] == list[..i + 1];
      assert Manifolds.Permutes(orders[i], outputs + Members(list[..i + 1]));
    }
  }

  lemma LastMember(list: seq<nat>)
    requires list != [] && Distinct(list)
    ensures var k := |list| - 1;
            list[k] !in Members(list[..k]) && Members(list) == Members(list[..k]) + {list[k]} && Distinct(list[..k])
  {
    assert list == list[..|list| - 1] + [list[|list| - 1]];
  }

  lemma AddsSplit(events: seq<Manifolds.Event>, list: seq<nat>, orders: seq<seq<nat>>)
    requires list != [] && |orders| == |list|
    ensures var k := |list| - 1;
            events + Adds(list, orders) == (events + Adds(list[..k], orders[..k])) + [Manifolds.Add(list[k], orders[k])]
  {
  }

  lemma {:induction false} AddsAreSound(
      events: seq<Manifolds.Event>, outputs: set<nat>, list: seq<nat>, orders: seq<seq<nat>>)
    requires Sound(events) && outputs == Manifolds.Outputs(events)
    requires Distinct(list) && Members(list) !! outputs && ShufflesEach(outputs, list, orders)
    ensures Sound(events + Adds(list, orders))
    ensures Manifolds.Outputs(events + Adds(list, orders)) == outputs + Members(list)
  {
    if list == [] {
      assert events + Adds(list, orders) == events;
    } else {
      var k := |list| - 1;
      var a, order := list[k], orders[k];
      LastMember(list);
      ShufflesFewer(outputs, list, orders, k);
      AddsAreSound(events, outputs, list[..k], orders[..k]);
      assert list[..k + 1] == list;
      var now := outputs + Members(list[..k]);
      assert now + {a} == outputs + Members(list);
      AddIsSound(events + Adds(list[..k], orders[..k]), a, order);
      AddsSplit(events, list, orders);
    }
  }

  /** What is attached, told from the pipeline: until the outputs are cleared, the segments that read. */
  ghost predicate Attaches(ports: Ports, life: seq<Moment>)
  {
    var outputs, there := Manifolds.Outputs(Events(life)), Pipelines.Requested(Steps(life)) * ports.readers;
    outputs <= there && (Manifolds.ClearAll !in Calls(life) ==> outputs == there)
  }

  /** A started manifold has a reader. */
  lemma {:induction false} StartedHasReader(c: Pipelines.Config, ports: Ports, steps: seq<Pipelines.Step>)
    requires Pipelines.Survivable(c, steps) && FirstFlushAttaches(ports, steps) && Started(ports, steps)
    ensures Pipelines.Requested(steps) * ports.readers != {}
  {
    var k := |steps| - 1;
    assert Pipelines.Init(steps) == steps[..k];
    if Started(ports, steps[..k]) {
      StartedHasReader(c, ports, steps[..k]);
      Pipelines.RequestedGrows(c, steps, k);
      var a :| a in Pipelines.Requested(steps[..k]) * ports.readers;
      assert a in Pipelines.Requested(steps) * ports.readers;
    } else {
      var a :| a in NewSegments(steps[..k], steps[k]) * ports.readers;
      assert a in Pipelines.Requested(steps) * ports.readers;
    }
  }

  lemma PipeStays(c: Pipelines.Config, ports: Ports, life: seq<Moment>, m: Moment)
    requires Sound(Events(life)) && Attaches(ports, life) && m.Pipe? && Possible(ports, life, m)
    requires Pipelines.Survivable(c, Steps(life) + [m.step])
    ensures Sound(Events(life + [m])) && Attaches(ports, life + [m])
  {
    var before := Steps(life);
    assert (life + [m])[..|life|] == life && Pipelines.Init(before + [m.step]) == before;
    assert forall a :: a in Members(m.list) <==> a in m.list;
    AddsAreSound(Events(life), Manifolds.Outputs(Events(life)), m.list, m.orders);
    assert Pipelines.Requested(before + [m.step]) == Pipelines.Requested(before) + NewSegments(before, m.step);
  }

  lemma CallStays(c: Pipelines.Config, ports: Ports, life: seq<Moment>, m: Moment)
    requires Sound(Events(life)) && Attaches(ports, life) && m.Call? && Possible(ports, life, m)
    requires Pipelines.Survivable(c, Steps(life)) && FirstFlushAttaches(ports, Steps(life))
    requires NoDataAfterClear(Calls(life) + [m.call])
    ensures Sound(Events(life + [m])) && Attaches(ports, life + [m])
  {
    var events, calls := Events(life), Calls(life);
    assert (life + [m])[..|life|] == life && (events + [m.call])[..|events|] == events;
    assert (calls + [m.call])[..|calls|] == calls && (calls + [m.call])[|calls|] == m.call;
    if m.call.Data? {
      StartedHasReader(c, ports, Steps(life));
    }
  }

  /** What is asked of a life, and of the pipeline it is part of. */
  ghost predicate Proper(c: Pipelines.Config, ports: Ports, life: seq<Moment>)
  {
    && Life(ports, life) && NoDataAfterClear(Calls(life))
    && Pipelines.Survivable(c, Steps(life)) && FirstFlushAttaches(ports, Steps(life))
  }

  lemma ProperBefore(c: Pipelines.Config, ports: Ports, life: seq<Moment>)
    requires Proper(c, ports, life) && life != []
    ensures Proper(c, ports, life[..|life| - 1])
  {
    var k := |life| - 1;
    var steps, calls := Steps(life[..k]), Calls(life[..k]);
    if life[k].Pipe? {
      assert Pipelines.Init(steps + [life[k].step]) == steps && (steps + [life[k].step])[..|steps|] == steps;
    } else {
      assert (calls + [life[k].call])[..|calls|] == calls;
    }
  }

  lemma {:induction false} LifeIsSound(c: Pipelines.Config, ports: Ports, life: seq<Moment>)
    requires Proper(c, ports, life)
    ensures Sound(Events(life)) && Attaches(ports, life)
  {
    if life != [] {
      var k := |life| - 1;
      ProperBefore(c, ports, life);
      LifeIsSound(c, ports, life[..k]);
      assert life == life[..k] + [life[k]];
      if life[k].Pipe? {
        PipeStays(c, ports, life[..k], life[k]);
      } else {
        CallStays(c, ports, life[..k], life[k]);
      }
    }
  }

  /** In every run of the graph with balancer `u` in it, and in every life of its manifold in a pipeline that
      survives, provided the update that creates the manifold attaches an output: no check of the egress
      fires and no value goes to an output that has been cleared. */
  lemma BalancerNeverDangles<V>(
      g: Graph<V>, steps: seq<Step<V>>, u: nat, c: Pipelines.Config, ports: Ports, life: seq<Moment>)
    requires WellFormed(g) && Acyclic(g) && u < |g|
    requires Life(ports, life) && Calls(life) == Callbacks(Run(g, steps)[u].log)
    requires Pipelines.Run(c, Steps(life)).Some? && FirstFlushAttaches(ports, Steps(life))
    ensures !Manifolds.Run(Events(life)).aborted && !Manifolds.Run(Events(life)).dangling
  {
    ShutdownOrder(g, steps, u);
    OrderedCallbacks(|g[u].items|, Run(g, steps)[u].log);
    Pipelines.SurvivesExactly(c, Steps(life));
    LifeIsSound(c, ports, life);
    Manifolds.FailsExactly(Events(life));
  }
}
