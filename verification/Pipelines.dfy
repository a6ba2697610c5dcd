/** The pipeline controller: it compares the requested segment addresses with the current ones,
    creates and stops segments, and starts everything it owns. Segments are services; a segment that
    is no longer requested is stopped but stays owned. Other threads join the pipeline and its segments
    and kill a segment one of whose nodes has failed. A failed check ends the process. */
module Pipelines {
  import opened Options
  import opened Services

  type Address = nat
  type Addresses = map<Address, nat>

  /** The addresses whose segment the pipeline defines, and the number of resource partitions. */
  datatype Config = Config(defined: set<Address>, partitions: nat)

  datatype Message = Update(requested: Addresses) | StopAll | KillAll

  datatype Pipe = Pipe(current: Addresses, segments: map<Address, Service>, instance: Service, joinable: bool)

  function NewPipe(): Pipe
  {
    Pipe(map[], map[], Services.Next(Services.Fresh(), Start), false)
  }

  // ---------------------------------------------------------------------------------------
  // One message

  ghost predicate CanCreate(c: Config, segments: map<Address, Service>, requested: Addresses, create: set<Address>)
    requires create <= requested.Keys
  {
    forall a :: a in create ==> requested[a] < c.partitions && a !in segments && a in c.defined
  }

  ghost function Created(segments: map<Address, Service>, create: set<Address>): map<Address, Service>
  {
    segments + map a | a in create :: Services.Fresh()
  }

  ghost function Signalled(segments: map<Address, Service>, which: set<Address>, e: Event): map<Address, Service>
  {
    map a | a in segments :: if a in which then Next(segments[a], e) else segments[a]
  }

  /** A service after a join that nobody disturbs. */
  function Joined(s: Service, throws: bool): Service
  {
    if s.phase.Completed? then s else Next(Next(s, JoinEnter), if throws then JoinThrow else JoinExit)
  }

  ghost predicate NoneAborted(segments: map<Address, Service>)
  {
    forall a :: a in segments ==> !segments[a].aborted
  }

  /** What an update request does; none when a check fires. */
  ghost function HandleUpdate(c: Config, p: Pipe, requested: Addresses): Option<Pipe>
  {
    var create, remove := requested.Keys - p.current.Keys, p.current.Keys - requested.Keys;
    if !CanCreate(c, p.segments, requested, create) then None else
    var owned := Created(p.segments, create);
    if !(remove <= owned.Keys && remove <= c.defined) then None else
    var started := Signalled(Signalled(owned, remove, Stop), owned.Keys, Start);
    if !NoneAborted(started) then None else
    Some(Pipe(requested, started, p.instance, true))
  }

  ghost function Handle(c: Config, p: Pipe, m: Message): Option<Pipe>
  {
    match m
    case Update(requested) => HandleUpdate(c, p, requested)
    case StopAll =>
      var instance := Next(p.instance, Stop);
      if instance == p.instance then Some(p)
      else if !(p.segments.Keys <= c.defined) then None
      else Some(Pipe(p.current, Signalled(p.segments, p.segments.Keys, Stop), instance, true))
    case KillAll =>
      var instance := Next(p.instance, Kill);
      if instance == p.instance then Some(p)
      else if !(p.segments.Keys <= c.defined) then None
      else Some(Pipe(p.current, Signalled(Signalled(p.segments, p.segments.Keys, Stop), p.segments.Keys, Kill),
                     instance, true))
  }

  /** What can happen to a pipeline: a message to its controller, and the doings of other threads. */
  datatype Step =
    | Control(message: Message)
    | JoinAll                                    // service_await_join on the pipeline is entered
    | JoinSegment(a: Address)                    // its join hook goes on to this segment
    | SegmentJoined(a: Address, throws: bool)    // the segment's join hook ends
    | PipelineJoined(throws: bool)               // its join hook, no longer waiting to be joinable, ends
    | SegmentFails(a: Address)                   // a node of the segment has failed

  ghost function SignalOne(p: Pipe, a: Address, e: Event): Pipe
  {
    if a in p.segments then p.(segments := p.segments[a := Next(p.segments[a], e)]) else p
  }

  ghost function Advance(c: Config, p: Pipe, step: Step): Option<Pipe>
  {
    match step
    case Control(m) => Handle(c, p, m)
    case JoinAll => Some(p.(instance := Next(p.instance, JoinEnter)))
    case JoinSegment(a) => Some(if p.instance.joining > 0 && p.joinable then SignalOne(p, a, JoinEnter) else p)
    case SegmentJoined(a, throws) => Some(SignalOne(p, a, if throws then JoinThrow else JoinExit))
    case PipelineJoined(throws) =>
      Some(if p.joinable then p.(instance := Next(p.instance, if throws then JoinThrow else JoinExit)) else p)
    case SegmentFails(a) => Some(SignalOne(p, a, Kill))
  }

  ghost function Run(c: Config, steps: seq<Step>): Option<Pipe>
  {
    if steps == [] then Some(NewPipe())
    else match Run(c, steps[..|steps| - 1])
         case None => None
         case Some(p) => Advance(c, p, steps[|steps| - 1])
  }

  // ---------------------------------------------------------------------------------------
  // The objects

  class Instance {
    const config: Config
    var segments: map<Address, Service>
    var service: Service
    var joinable: bool

    constructor (config: Config)
      ensures this.config == config && segments == map[] && !joinable
      ensures service == Next(Services.Fresh(), Start)
    {
      this.config := config;
      segments, joinable := map[], false;
      service := Next(Services.Fresh(), Start);
    }

    method CreateSegment(address: Address, partition: nat) returns (ok: bool)
      modifies this`segments
      ensures ok <==> partition < config.partitions && address !in old(segments) && address in config.defined
      ensures segments == if ok then old(segments)[address := Services.Fresh()] else old(segments)
    {
      ok := partition < config.partitions && address !in segments && address in config.defined;
      if ok {
        segments := segments[address := Services.Fresh()];
      }
    }

    method StopSegment(address: Address) returns (ok: bool)
      modifies this`segments
      ensures ok <==> address in old(segments) && address in config.defined
      ensures segments == if ok then old(segments)[address := Next(old(segments)[address], Stop)] else old(segments)
    {
      ok := address in segments && address in config.defined;
      if ok {
        segments := segments[address := Next(segments[address], Stop)];
      }
    }

    /** Starts every segment; stops at the first whose check fires. */
    method StartAll() returns (ok: bool)
      requires NoneAborted(segments)
      modifies this
      ensures ok <==> NoneAborted(Signalled(old(segments), old(segments).Keys, Start))
      ensures ok ==> segments == Signalled(old(segments), old(segments).Keys, Start) && joinable
      ensures service == old(service)
    {
      var todo := segments.Keys;
      ghost var done: set<Address> := {};
      ghost var all := Signalled(segments, segments.Keys, Start);
      assert Signalled(segments, done, Start) == segments;
      while todo != {}
        invariant todo + done == old(segments).Keys && todo !! done
        invariant segments == Signalled(old(segments), done, Start)
        invariant forall a :: a in done ==> !all[a].aborted
        invariant service == old(service)
        decreases todo
      {
        var address :| address in todo;
        var segment := Next(segments[address], Start);
        assert segment == all[address];
        if segment.aborted {
          return false;
        }
        segments := segments[address := segment];
        todo, done := todo - {address}, done + {address};
      }
      joinable := true;
      return true;
    }
  
    /** The stop hook: stops every segment. */
    method StopSegments() returns (ok: bool)
      modifies this
      ensures ok <==> old(segments).Keys <= config.defined
      ensures ok ==> segments == Signalled(old(segments), old(segments).Keys, Stop) && joinable
      ensures service == old(service)
    {
      joinable := true;
      var todo := segments.Keys;
      ghost var done: set<Address> := {};
      assert Signalled(segments, done, Stop) == segments;
      while todo != {}
        invariant todo + done == old(segments).Keys && todo !! done
        invariant segments == Signalled(old(segments), done, Stop)
        invariant done <= config.defined
        invariant joinable && service == old(service)
        decreases todo
      {
        var address :| address in todo;
        ok := StopSegment(address);
        if !ok {
          return false;
        }
        todo, done := todo - {address}, done + {address};
      }
      return true;
    }

    /** The kill hook: stops, then kills, every segment. */
    method KillSegments() returns (ok: bool)
      modifies this
      ensures ok <==> old(segments).Keys <= config.defined
      ensures ok ==> joinable && segments ==
                     Signalled(Signalled(old(segments), old(segments).Keys, Stop), old(segments).Keys, Kill)
      ensures service == old(service)
    {
      joinable := true;
      var todo := segments.Keys;
      ghost var done: set<Address> := {};
      assert Signalled(Signalled(segments, done, Stop), done, Kill) == segments;
      while todo != {}
        invariant todo + done == old(segments).Keys && todo !! done
        invariant segments == Signalled(Signalled(old(segments), done, Stop), done, Kill)
        invariant done <= config.defined
        invariant joinable && service == old(service)
        decreases todo
      {
        var address :| address in todo;
        ok := StopSegment(address);
        if !ok {
          return false;
        }
        segments := segments[address := Next(segments[address], Kill)];
        todo, done := todo - {address}, done + {address};
      }
      return true;
    }

    /** The join hook, undisturbed and once joinable: every segment is joined, whatever the others throw, and
        it throws itself exactly when one of them did. */
    method JoinSegments(failing: set<Address>) returns (threw: bool)
      requires joinable
      modifies this`segments
      ensures segments.Keys == old(segments).Keys
      ensures forall a :: a in segments ==> segments[a] == Joined(old(segments)[a], a in failing)
      ensures threw <==> exists a :: a in old(segments) && a in failing && !old(segments)[a].phase.Completed?
    {
      threw := false;
      var todo := segments.Keys;
      ghost var done: set<Address> := {};
      while todo != {}
        invariant todo + done == old(segments).Keys == segments.Keys && todo !! done
        invariant forall a :: a in done ==> segments[a] == Joined(old(segments)[a], a in failing)
        invariant forall a :: a in todo ==> segments[a] == old(segments)[a]
        invariant threw <==> exists a :: a in done && a in failing && !old(segments)[a].phase.Completed?
        decreases todo
      {
        var address :| address in todo;
        if address in failing && !segments[address].phase.Completed? {
          threw := true;
        }
        segments := segments[address := Joined(segments[address], address in failing)];
        todo, done := todo - {address}, done + {address};
      }
    }

    method ServiceStop() returns (ok: bool)
      modifies this
      ensures var before := Pipe(map[], old(segments), old(service), old(joinable));
              var after := Handle(config, before, StopAll);
              (ok <==> after.Some?) && (ok ==> after.value == Pipe(map[], segments, service, joinable))
    {
      var next := Next(service, Stop);
      ok := true;
      if next != service {
        service := next;
        ok := StopSegments();
      }
    }

    method ServiceKill() returns (ok: bool)
      modifies this
      ensures var before := Pipe(map[], old(segments), old(service), old(joinable));
              var after := Handle(config, before, KillAll);
              (ok <==> after.Some?) && (ok ==> after.value == Pipe(map[], segments, service, joinable))
    {
      var next := Next(service, Kill);
      ok := true;
      if next != service {
        service := next;
        ok := KillSegments();
      }
    }
  }

  class Controller {
    const pipeline: Instance
    var current: Addresses

    ghost function View(): Pipe
      reads this, pipeline
    {
      Pipe(current, pipeline.segments, pipeline.service, pipeline.joinable)
    }

    constructor (config: Config)
      ensures View() == NewPipe() && pipeline.config == config && fresh(pipeline)
    {
      current := map[];
      pipeline := new Instance(config);
    }

    method CreateSegments(requested: Addresses, create: set<Address>) returns (ok: bool)
      requires create <= requested.Keys
      modifies pipeline`segments
      ensures ok <==> CanCreate(pipeline.config, old(pipeline.segments), requested, create)
      ensures ok ==> pipeline.segments == Created(old(pipeline.segments), create)
    {
      var todo := create;
      ghost var done: set<Address> := {};
      assert Created(pipeline.segments, done) == pipeline.segments;
      while todo != {}
        invariant todo + done == create && todo !! done
        invariant CanCreate(pipeline.config, old(pipeline.segments), requested, done)
        invariant pipeline.segments == Created(old(pipeline.segments), done)
        decreases todo
      {
        var address :| address in todo;
        ok := pipeline.CreateSegment(address, requested[address]);
        if !ok {
          return false;
        }
        todo, done := todo - {address}, done + {address};
      }
      return true;
    }

    method StopSegments(remove: set<Address>) returns (ok: bool)
      modifies pipeline`segments
      ensures ok <==> remove <= old(pipeline.segments).Keys && remove <= pipeline.config.defined
      ensures ok ==> pipeline.segments == Signalled(old(pipeline.segments), remove, Stop)
    {
      var todo := remove;
      ghost var done: set<Address> := {};
      assert Signalled(pipeline.segments, done, Stop) == pipeline.segments;
      while todo != {}
        invariant todo + done == remove && todo !! done
        invariant done <= old(pipeline.segments).Keys && done <= pipeline.config.defined
        invariant pipeline.segments == Signalled(old(pipeline.segments), done, Stop)
        decreases todo
      {
        var address :| address in todo;
        ok := pipeline.StopSegment(address);
        if !ok {
          return false;
        }
        todo, done := todo - {address}, done + {address};
      }
      return true;
    }

    /** Creates what is new, stops what is gone, starts everything owned. */
    method UpdateTo(requested: Addresses) returns (ok: bool)
      requires NoneAborted(pipeline.segments)
      modifies this, pipeline
      ensures ok <==> HandleUpdate(pipeline.config, old(View()), requested).Some?
      ensures ok ==> HandleUpdate(pipeline.config, old(View()), requested).value == View()
    {
      var create, remove := requested.Keys - current.Keys, current.Keys - requested.Keys;
      ok := CreateSegments(requested, create);
      if !ok {
        return;
      }
      ghost var owned := pipeline.segments;
      ok := StopSegments(remove);
      if !ok {
        return;
      }
      assert pipeline.segments.Keys == owned.Keys;
      ok := pipeline.StartAll();
      if ok {
        current := requested;
      }
    }

    method OnData(m: Message) returns (ok: bool)
      requires NoneAborted(pipeline.segments)
      modifies this, pipeline
      ensures ok <==> Handle(pipeline.config, old(View()), m).Some?
      ensures ok ==> Handle(pipeline.config, old(View()), m).value == View()
    {
      match m
      case Update(requested) => ok := UpdateTo(requested);
      case StopAll => ok := pipeline.ServiceStop();
      case KillAll => ok := pipeline.ServiceKill();
    }
  }

  // ---------------------------------------------------------------------------------------
  // Which runs survive

  ghost function Init(steps: seq<Step>): seq<Step>
    requires steps != []
  {
    steps[..|steps| - 1]
  }

  ghost function Last(steps: seq<Step>): Step
    requires steps != []
  {
    steps[|steps| - 1]
  }

  predicate IsUpdate(step: Step)
  {
    step.Control? && step.message.Update?
  }

  /** The latest update request, empty before the first. */
  ghost function LastRequest(steps: seq<Step>): Addresses
  {
    if steps == [] then map[]
    else if IsUpdate(Last(steps)) then Last(steps).message.requested
    else LastRequest(Init(steps))
  }

  ghost function Requested(steps: seq<Step>): set<Address>
  {
    LastRequest(steps).Keys
  }

  /** Some message has reached the controller. */
  ghost predicate Joinable(steps: seq<Step>)
  {
    steps != [] && (Joinable(Init(steps)) || Last(steps).Control?)
  }

  /** The call a step makes on the pipeline as a service. */
  ghost function CallOf(before: seq<Step>, step: Step): seq<Event>
  {
    match step
    case Control(StopAll) => [Stop]
    case Control(KillAll) => [Kill]
    case JoinAll => [JoinEnter]
    case PipelineJoined(throws) => if Joinable(before) then [if throws then JoinThrow else JoinExit] else []
    case _ => []
  }

  ghost function Calls(steps: seq<Step>): seq<Event>
  {
    if steps == [] then [Start] else Calls(Init(steps)) + CallOf(Init(steps), Last(steps))
  }

  ghost function Pipeline(steps: seq<Step>): Service
  {
    Services.Run(Calls(steps))
  }

  /** The calls a step makes on the segment at `a`, once that has been requested: every update starts it, a
      stop that takes effect stops it, a kill that takes effect stops and kills it. */
  ghost function SegmentCallsOf(before: seq<Step>, step: Step, a: Address): seq<Event>
  {
    if IsUpdate(step) then (if a in step.message.requested then [Start] else [])
    else if a !in Requested(before) then []
    else match step
         case Control(StopAll) => if Pipeline(before).phase.Ord() < Stopping.Ord() then [Stop] else []
         case Control(KillAll) => if Pipeline(before).phase.Ord() < Killing.Ord() then [Stop, Kill] else []
         case JoinSegment(b) => if a == b && Pipeline(before).joining > 0 then [JoinEnter] else []
         case SegmentJoined(b, throws) => if a == b then [if throws then JoinThrow else JoinExit] else []
         case SegmentFails(b) => if a == b then [Kill] else []
         case _ => []
  }

  ghost function SegmentCalls(steps: seq<Step>, a: Address): seq<Event>
  {
    if steps == [] then [] else SegmentCalls(Init(steps), a) + SegmentCallsOf(Init(steps), Last(steps), a)
  }

  /** The step stops, kills or joins a segment that was requested. */
  ghost predicate Touches(before: seq<Step>, step: Step)
  {
    match step
    case Control(StopAll) => Requested(before) != {} && Pipeline(before).phase.Ord() < Stopping.Ord()
    case Control(KillAll) => Requested(before) != {} && Pipeline(before).phase.Ord() < Killing.Ord()
    case JoinSegment(a) => a in Requested(before) && Pipeline(before).joining > 0
    case SegmentFails(a) => a in Requested(before)
    case _ => false
  }

  ghost predicate Halted(steps: seq<Step>)
  {
    steps != [] && (Halted(Init(steps)) || Touches(Init(steps), Last(steps)))
  }

  ghost predicate Grows(c: Config, before: set<Address>, request: Addresses)
  {
    && before <= request.Keys
    && forall a :: a in request && a !in before ==> a in c.defined && request[a] < c.partitions
  }

  /** What a caller can check of a request before sending it: no requested segment has been stopped, killed
      or joined, every address requested before is requested again, and every new address has a defined
      segment and an existing partition. */
  ghost predicate Acceptable(c: Config, before: seq<Step>, step: Step)
  {
    IsUpdate(step) ==> !Halted(before) && Grows(c, Requested(before), step.message.requested)
  }

  ghost predicate Survivable(c: Config, steps: seq<Step>)
  {
    steps == [] || (Survivable(c, Init(steps)) && Acceptable(c, Init(steps), Last(steps)))
  }

  /** The start hook ran exactly once, before everything else. */
  ghost predicate StartedOnce(s: Service)
  {
    && s.hooks != [] && s.hooks[0].DoStart?
    && forall q :: 0 < q < |s.hooks| ==> !s.hooks[q].DoStart?
  }

  const STARTED := Service(Running, 0, [DoStart], false)

  /** Until the pipeline is halted every segment has just been started; after that one cannot be. */
  ghost predicate GoodSegments(halted: bool, segments: map<Address, Service>)
  {
    && (forall a :: a in segments ==> !segments[a].aborted && StartedOnce(segments[a]))
    && (if halted then exists a :: a in segments && segments[a].phase.Ord() >= Awaiting.Ord()
        else forall a :: a in segments ==> segments[a] == STARTED)
  }

  ghost predicate Good(c: Config, steps: seq<Step>, p: Pipe)
  {
    && p.current == LastRequest(steps)
    && p.segments.Keys == Requested(steps) <= c.defined
    && p.instance == Pipeline(steps)
    && (p.joinable <==> Joinable(steps))
    && GoodSegments(Halted(steps), p.segments)
  }

  ghost function Restarted(segments: map<Address, Service>, create: set<Address>, remove: set<Address>)
    : map<Address, Service>
  {
    var owned := Created(segments, create);
    Signalled(Signalled(owned, remove, Stop), owned.Keys, Start)
  }

  lemma RestartFails(segments: map<Address, Service>, create: set<Address>, remove: set<Address>, a: Address)
    requires create !! segments.Keys && a in segments
    requires a in remove || segments[a].phase.Ord() >= Awaiting.Ord()
    ensures !NoneAborted(Restarted(segments, create, remove))
  {
    assert a in Restarted(segments, create, remove) && Restarted(segments, create, remove)[a].aborted;
  }

  lemma RestartWorks(segments: map<Address, Service>, create: set<Address>)
    requires GoodSegments(false, segments) && create !! segments.Keys
    ensures var started := Restarted(segments, create, {});
            NoneAborted(started) && GoodSegments(false, started) && started.Keys == segments.Keys + create
  {
    assert forall a :: a in Restarted(segments, create, {}) ==> Restarted(segments, create, {})[a] == STARTED;
  }

  /** Starting everything works exactly when no segment had to be stopped now, or was stopped, killed or
      joined before. */
  lemma RestartExactly(segments: map<Address, Service>, halted: bool, create: set<Address>, remove: set<Address>)
    requires GoodSegments(halted, segments) && create !! segments.Keys && remove <= segments.Keys
    ensures var started := Restarted(segments, create, remove);
            && (NoneAborted(started) <==> !halted && remove == {})
            && (NoneAborted(started) ==> GoodSegments(false, started) && started.Keys == segments.Keys + create)
  {
    if remove != {} {
      var a :| a in remove;
      RestartFails(segments, create, remove, a);
    } else if halted {
      var a :| a in segments && segments[a].phase.Ord() >= Awaiting.Ord();
      RestartFails(segments, create, remove, a);
    } else {
      RestartWorks(segments, create);
    }
  }

  /** Nothing new is in the way of an update. */
  lemma CreatableExactly(c: Config, p: Pipe, requested: Addresses)
    requires p.current.Keys == p.segments.Keys
    ensures CanCreate(c, p.segments, requested, requested.Keys - p.current.Keys) <==>
            forall a :: a in requested && a !in p.current.Keys ==> a in c.defined && requested[a] < c.partitions
  {
  }

  /** What an update comes to once its new segments can be created. */
  lemma UpdateRestarts(c: Config, p: Pipe, requested: Addresses)
    requires p.current.Keys == p.segments.Keys <= c.defined
    requires CanCreate(c, p.segments, requested, requested.Keys - p.current.Keys)
    ensures var create, remove := requested.Keys - p.current.Keys, p.current.Keys - requested.Keys;
            var started := Restarted(p.segments, create, remove);
            HandleUpdate(c, p, requested) ==
            if NoneAborted(started) then Some(Pipe(requested, started, p.instance, true)) else None
  {
    assert Created(p.segments, requested.Keys - p.current.Keys).Keys ==
           p.segments.Keys + (requested.Keys - p.current.Keys);
  }

  /** An update survives exactly when it grows a pipeline that was not halted. */
  lemma UpdateExactly(c: Config, p: Pipe, halted: bool, requested: Addresses)
    requires p.current.Keys == p.segments.Keys <= c.defined && GoodSegments(halted, p.segments)
    ensures HandleUpdate(c, p, requested).Some? <==> !halted && Grows(c, p.current.Keys, requested)
    ensures var p' := HandleUpdate(c, p, requested);
            p'.Some? ==>
              && p'.value ==
                 Pipe(requested, Restarted(p.segments, requested.Keys - p.current.Keys, {}), p.instance, true)
              && p'.value.segments.Keys == requested.Keys <= c.defined && GoodSegments(false, p'.value.segments)
  {
    var create, remove := requested.Keys - p.current.Keys, p.current.Keys - requested.Keys;
    CreatableExactly(c, p, requested);
    if CanCreate(c, p.segments, requested, create) {
      UpdateRestarts(c, p, requested);
      RestartExactly(p.segments, halted, create, remove);
    }
  }

  lemma UpdateSurvives(c: Config, before: seq<Step>, p: Pipe, step: Step)
    requires Good(c, before, p) && IsUpdate(step)
    ensures Advance(c, p, step).Some? <==> Acceptable(c, before, step)
    ensures Advance(c, p, step).Some? ==> Good(c, before + [step], Advance(c, p, step).value)
  {
    assert Init(before + [step]) == before && Calls(before) + [] == Calls(before);
    UpdateExactly(c, p, Halted(before), step.message.requested);
  }

  /** No call but a start runs the start hook, and once stopped, killed or joined a service stays so. */
  lemma SignalKeepsStart(s: Service, e: Event)
    requires !s.aborted && StartedOnce(s) && !e.Start?
    ensures !Next(s, e).aborted && StartedOnce(Next(s, e))
    ensures s.phase.Ord() >= Awaiting.Ord() ==> Next(s, e).phase.Ord() >= Awaiting.Ord()
    ensures e.Stop? || e.Kill? || e.JoinEnter? ==> Next(s, e).phase.Ord() >= Awaiting.Ord()
  {
  }

  /** Stopping or killing every segment halts the pipeline, unless it owns none. */
  lemma HaltSegments(segments: map<Address, Service>, halted: bool, e: Event)
    requires GoodSegments(halted, segments) && (e.Stop? || e.Kill?)
    ensures GoodSegments(halted || segments.Keys != {}, Signalled(segments, segments.Keys, e))
  {
    var after := Signalled(segments, segments.Keys, e);
    forall a | a in segments
      ensures !after[a].aborted && StartedOnce(after[a]) && after[a].phase.Ord() >= Awaiting.Ord()
    {
      SignalKeepsStart(segments[a], e);
    }
    if segments.Keys != {} {
      var a :| a in segments.Keys;
      assert a in after;
    }
  }

  /** Killing or joining one segment halts the pipeline; a join that ends changes nothing about it. */
  lemma HaltOne(segments: map<Address, Service>, halted: bool, a: Address, e: Event)
    requires GoodSegments(halted, segments) && a in segments && !e.Start?
    requires (e.JoinExit? || e.JoinThrow?) || e.Kill? || e.JoinEnter?
    ensures GoodSegments(halted || e.Kill? || e.JoinEnter?, segments[a := Next(segments[a], e)])
  {
    var after := segments[a := Next(segments[a], e)];
    SignalKeepsStart(segments[a], e);
    if halted {
      var b :| b in segments && segments[b].phase.Ord() >= Awaiting.Ord();
      assert b in after && after[b].phase.Ord() >= Awaiting.Ord();
    } else if e.Kill? || e.JoinEnter? {
      assert a in after && after[a].phase.Ord() >= Awaiting.Ord();
    }
  }

  /** What a step other than an update makes of a good pipeline. */
  lemma GoodAfter(c: Config, before: seq<Step>, step: Step, p: Pipe, p': Pipe)
    requires Good(c, before, p) && !IsUpdate(step)
    requires p'.current == p.current && p'.segments.Keys == p.segments.Keys
    requires p'.instance == Pipeline(before + [step])
    requires p'.joinable <==> p.joinable || step.Control?
    requires GoodSegments(Halted(before) || Touches(before, step), p'.segments)
    ensures Good(c, before + [step], p')
  {
    assert Init(before + [step]) == before;
  }

  lemma PipelineNext(before: seq<Step>, step: Step)
    ensures var call := CallOf(before, step);
            Pipeline(before + [step]) == if call == [] then Pipeline(before) else Next(Pipeline(before), call[0])
  {
    assert Init(before + [step]) == before;
    var call := CallOf(before, step);
    if call == [] {
      assert Calls(before) + call == Calls(before);
    } else {
      assert call == [call[0]];
      ServiceNext(Calls(before), call[0]);
    }
  }

  lemma StopKeepsGood(c: Config, before: seq<Step>, p: Pipe)
    requires Good(c, before, p) && !p.instance.aborted
    ensures var after := Advance(c, p, Control(StopAll));
            after.Some? && Good(c, before + [Control(StopAll)], after.value)
  {
    PipelineNext(before, Control(StopAll));
    HaltMeansJoinable(before);
    HaltSegments(p.segments, Halted(before), Stop);
    GoodAfter(c, before, Control(StopAll), p, Advance(c, p, Control(StopAll)).value);
  }

  lemma KillSegments(segments: map<Address, Service>, halted: bool)
    requires GoodSegments(halted, segments)
    ensures GoodSegments(halted || segments.Keys != {},
                         Signalled(Signalled(segments, segments.Keys, Stop), segments.Keys, Kill))
  {
    var stopped := Signalled(segments, segments.Keys, Stop);
    HaltSegments(segments, halted, Stop);
    assert stopped.Keys == segments.Keys;
    HaltSegments(stopped, halted || segments.Keys != {}, Kill);
  }

  lemma KillKeepsGood(c: Config, before: seq<Step>, p: Pipe)
    requires Good(c, before, p) && !p.instance.aborted
    ensures var after := Advance(c, p, Control(KillAll));
            after.Some? && Good(c, before + [Control(KillAll)], after.value)
  {
    PipelineNext(before, Control(KillAll));
    HaltMeansJoinable(before);
    KillSegments(p.segments, Halted(before));
    GoodAfter(c, before, Control(KillAll), p, Advance(c, p, Control(KillAll)).value);
  }

  lemma ServiceNext(calls: seq<Event>, e: Event)
    ensures Services.Run(calls + [e]) == Next(Services.Run(calls), e)
  {
    assert (calls + [e])[..|calls|] == calls;
  }

  /** What other threads do to the pipeline as a service. */
  lemma JoinKeepsGood(c: Config, before: seq<Step>, p: Pipe, step: Step)
    requires Good(c, before, p) && (step.JoinAll? || step.PipelineJoined?)
    ensures Good(c, before + [step], Advance(c, p, step).value)
  {
    PipelineNext(before, step);
    GoodAfter(c, before, step, p, Advance(c, p, step).value);
  }

  lemma {:induction false} RequestedIsJoinable(steps: seq<Step>)
    ensures Requested(steps) != {} ==> Joinable(steps)
  {
    if steps != [] { RequestedIsJoinable(Init(steps)); }
  }

  predicate OnSegment(step: Step)
  {
    step.JoinSegment? || step.SegmentJoined? || step.SegmentFails?
  }

  function SegmentEvent(step: Step): Event
    requires OnSegment(step)
  {
    if step.JoinSegment? then JoinEnter else if step.SegmentFails? then Kill
    else if step.throws then JoinThrow else JoinExit
  }

  /** The step reaches its segment. */
  ghost predicate Reaches(before: seq<Step>, step: Step)
    requires OnSegment(step)
  {
    step.a in Requested(before) && (step.JoinSegment? ==> Pipeline(before).joining > 0)
  }

  lemma SegmentAdvance(c: Config, before: seq<Step>, p: Pipe, step: Step)
    requires Good(c, before, p) && OnSegment(step)
    ensures Advance(c, p, step) ==
            Some(if Reaches(before, step)
                 then p.(segments := p.segments[step.a := Next(p.segments[step.a], SegmentEvent(step))]) else p)
  {
    RequestedIsJoinable(before);
  }

  /** What other threads do to a segment. */
  lemma SegmentKeepsGood(c: Config, before: seq<Step>, p: Pipe, step: Step)
    requires Good(c, before, p) && OnSegment(step)
    ensures Good(c, before + [step], Advance(c, p, step).value)
  {
    SegmentAdvance(c, before, p, step);
    PipelineNext(before, step);
    if Reaches(before, step) {
      HaltOne(p.segments, Halted(before), step.a, SegmentEvent(step));
    }
    GoodAfter(c, before, step, p, Advance(c, p, step).value);
  }

  lemma FirstCall()
    ensures Pipeline([]) == STARTED
  {
    ServiceNext([], Start);
    assert [] + [Start] == [Start];
  }

  lemma OnlyHaltsHalt(s: Service, e: Event)
    requires Next(s, e).phase.Ord() >= Stopping.Ord() && s.phase.Ord() < Stopping.Ord()
    ensures e.Stop? || e.Kill? || e.JoinExit?
  {
  }

  /** A pipeline that was stopped or killed, or whose join has ended, is joinable. */
  lemma {:induction false} HaltMeansJoinable(steps: seq<Step>)
    ensures Pipeline(steps).phase.Ord() >= Stopping.Ord() ==> Joinable(steps)
  {
    if steps == [] {
      FirstCall();
    } else {
      var before, step := Init(steps), Last(steps);
      HaltMeansJoinable(before);
      assert steps == before + [step];
      PipelineNext(before, step);
      if Pipeline(steps).phase.Ord() >= Stopping.Ord() && !Joinable(before) {
        OnlyHaltsHalt(Pipeline(before), CallOf(before, step)[0]);
      }
    }
  }

  lemma OnlyStartsAbort(s: Service, e: Event)
    requires !s.aborted && !e.Start?
    ensures !Next(s, e).aborted
  {
  }

  /** The pipeline is started once, so it never trips its own check. */
  lemma {:induction false} PipelineNeverAborts(steps: seq<Step>)
    ensures !Pipeline(steps).aborted
  {
    if steps == [] {
      FirstCall();
    } else {
      var before, step := Init(steps), Last(steps);
      PipelineNeverAborts(before);
      assert steps == before + [step];
      PipelineNext(before, step);
      if CallOf(before, step) != [] { OnlyStartsAbort(Pipeline(before), CallOf(before, step)[0]); }
    }
  }

  /** A run of control messages, joins and failures reaches its end exactly when every update in it is
      acceptable; and then the controller's addresses are the last request, the owned segments are those it
      names, the pipeline and each of its segments are the services that the calls made on them make them, and
      every segment's start hook has run exactly once. */
  lemma {:induction false} SurvivesExactly(c: Config, steps: seq<Step>)
    ensures Run(c, steps).Some? <==> Survivable(c, steps)
    ensures Run(c, steps).Some? ==> Good(c, steps, Run(c, steps).value)
  {
    if steps == [] {
      FirstCall();
    } else {
      var before, step := Init(steps), Last(steps);
      assert before + [step] == steps;
      SurvivesExactly(c, before);
      if Run(c, before).Some? {
        StepSurvives(c, before, Run(c, before).value, step);
      }
    }
  }

  lemma StepSurvives(c: Config, before: seq<Step>, p: Pipe, step: Step)
    requires Good(c, before, p)
    ensures Advance(c, p, step).Some? <==> Acceptable(c, before, step)
    ensures Advance(c, p, step).Some? ==> Good(c, before + [step], Advance(c, p, step).value)
  {
    PipelineNeverAborts(before);
    if IsUpdate(step) {
      UpdateSurvives(c, before, p, step);
    } else if step == Control(StopAll) {
      StopKeepsGood(c, before, p);
    } else if step == Control(KillAll) {
      KillKeepsGood(c, before, p);
    } else if step.JoinAll? || step.PipelineJoined? {
      JoinKeepsGood(c, before, p, step);
    } else {
      SegmentKeepsGood(c, before, p, step);
    }
  }

  /** Each request keeps all addresses of the one before it and adds only addresses with a defined
      segment and an existing partition. */
  ghost predicate Growing(c: Config, requests: seq<Addresses>)
  {
    requests == [] ||
    var q := |requests| - 1; Growing(c, requests[..q]) && Grows(c, Before(requests, q), requests[q])
  }

  ghost function Before(requests: seq<Addresses>, q: nat): set<Address>
    requires q <= |requests|
  {
    if q == 0 then {} else requests[q - 1].Keys
  }

  ghost function Updates(requests: seq<Addresses>): seq<Step>
  {
    seq(|requests|, q requires 0 <= q < |requests| => Control(Update(requests[q])))
  }

  lemma {:induction false} UpdatesOnly(requests: seq<Addresses>)
    ensures !Halted(Updates(requests))
    ensures Requested(Updates(requests)) == Before(requests, |requests|)
  {
    if requests != [] {
      UpdatesOnly(requests[..|requests| - 1]);
      assert Init(Updates(requests)) == Updates(requests[..|requests| - 1]);
    }
  }

  /** Runs of update requests alone. */
  lemma {:induction false} GrowingRequestsSurvive(c: Config, requests: seq<Addresses>)
    ensures Run(c, Updates(requests)).Some? <==> Growing(c, requests)
  {
    SurvivesExactly(c, Updates(requests));
    if requests != [] {
      var before := requests[..|requests| - 1];
      GrowingRequestsSurvive(c, before);
      SurvivesExactly(c, Updates(before));
      UpdatesOnly(before);
      assert Init(Updates(requests)) == Updates(before);
    }
  }

  /** An update to one defined address and then an update to none: the second ends the process. */
  lemma DroppingFails()
    ensures Run(Config({7}, 1), [Control(Update(map[7 := 0]))]).Some?
    ensures Run(Config({7}, 1), [Control(Update(map[7 := 0])), Control(Update(map[]))]).None?
  {
    var c, one: seq<Addresses> := Config({7}, 1), [map[7 := 0]];
    var two: seq<Addresses> := [map[7 := 0], map[]];
    assert Updates(one) == [Control(Update(map[7 := 0]))];
    assert Updates(two) == [Control(Update(map[7 := 0])), Control(Update(map[]))];
    GrowingRequestsSurvive(c, one);
    GrowingRequestsSurvive(c, two);
    assert one[..0] == [] && two[..1] == one;
    assert Growing(c, one);
    assert 7 in Before(two, 1);
  }

  function Applied(s: Service, calls: seq<Event>): Service
  {
    if calls == [] then s else Next(Applied(s, calls[..|calls| - 1]), calls[|calls| - 1])
  }

  lemma {:induction false} AppliedRun(calls: seq<Event>, more: seq<Event>)
    ensures Services.Run(calls + more) == Applied(Services.Run(calls), more)
  {
    if more == [] {
      assert calls + more == calls;
    } else {
      var k := |more| - 1;
      AppliedRun(calls, more[..k]);
      assert calls + more == (calls + more[..k]) + [more[k]];
      ServiceNext(calls + more[..k], more[k]);
    }
  }

  lemma AppliedFew(s: Service, e: Event)
    ensures Applied(s, []) == s && Applied(s, [e]) == Next(s, e)
    ensures Applied(s, [Stop, Kill]) == Next(Next(s, Stop), Kill)
  {
    assert [e][..0] == [] && [Stop, Kill][..1] == [Stop] && [Stop][..0] == [];
  }

  /** The segment at `a`, as it is or as it would be made. */
  ghost function SegmentAt(p: Pipe, a: Address): Service
  {
    if a in p.segments then p.segments[a] else Services.Fresh()
  }

  lemma UpdateEffect(c: Config, before: seq<Step>, p: Pipe, step: Step, a: Address)
    requires Good(c, before, p) && IsUpdate(step) && Advance(c, p, step).Some?
    ensures SegmentAt(Advance(c, p, step).value, a) == Applied(SegmentAt(p, a), SegmentCallsOf(before, step, a))
  {
    UpdateExactly(c, p, Halted(before), step.message.requested);
    AppliedFew(SegmentAt(p, a), Start);
  }

  lemma HaltEffect(c: Config, before: seq<Step>, p: Pipe, step: Step, a: Address)
    requires Good(c, before, p) && !p.instance.aborted && (step == Control(StopAll) || step == Control(KillAll))
    ensures Advance(c, p, step).Some?
    ensures SegmentAt(Advance(c, p, step).value, a) == Applied(SegmentAt(p, a), SegmentCallsOf(before, step, a))
  {
    AppliedFew(SegmentAt(p, a), Stop);
  }

  lemma OtherEffect(c: Config, before: seq<Step>, p: Pipe, step: Step, a: Address)
    requires Good(c, before, p) && !step.Control?
    ensures SegmentAt(Advance(c, p, step).value, a) == Applied(SegmentAt(p, a), SegmentCallsOf(before, step, a))
  {
    if OnSegment(step) {
      SegmentAdvance(c, before, p, step);
      AppliedFew(SegmentAt(p, a), SegmentEvent(step));
    } else {
      AppliedFew(SegmentAt(p, a), Stop);
    }
  }

  lemma StepEffect(c: Config, before: seq<Step>, p: Pipe, step: Step, a: Address)
    requires Good(c, before, p) && Advance(c, p, step).Some?
    ensures SegmentAt(Advance(c, p, step).value, a) == Applied(SegmentAt(p, a), SegmentCallsOf(before, step, a))
  {
    PipelineNeverAborts(before);
    if IsUpdate(step) {
      UpdateEffect(c, before, p, step, a);
    } else if step.Control? {
      HaltEffect(c, before, p, step, a);
    } else {
      OtherEffect(c, before, p, step, a);
    }
  }

  ghost predicate Told(c: Config, steps: seq<Step>, a: Address)
  {
    Run(c, steps).Some? ==> SegmentAt(Run(c, steps).value, a) == Services.Run(SegmentCalls(steps, a))
  }

  lemma ToldNext(c: Config, steps: seq<Step>, a: Address)
    requires steps != [] && Told(c, Init(steps), a)
    ensures Told(c, steps, a)
  {
    var before, step := Init(steps), Last(steps);
    if Run(c, steps).Some? {
      SurvivesExactly(c, before);
      StepEffect(c, before, Run(c, before).value, step, a);
      AppliedRun(SegmentCalls(before, a), SegmentCallsOf(before, step, a));
    }
  }

  /** In every run that survives, and at every address: the segment there is the service that the calls made on
      it make it. */
  lemma {:induction false} SegmentTold(c: Config, steps: seq<Step>, a: Address)
    ensures Told(c, steps, a)
    decreases |steps|
  {
    if steps != [] {
      SegmentTold(c, Init(steps), a);
      ToldNext(c, steps, a);
    }
  }

  lemma OwnedWhenRequested(c: Config, steps: seq<Step>)
    requires Run(c, steps).Some?
    ensures Run(c, steps).value.segments.Keys == Requested(steps) && Run(c, steps).value.instance == Pipeline(steps)
    ensures !Pipeline(steps).aborted && NoneAborted(Run(c, steps).value.segments)
  {
    SurvivesExactly(c, steps);
    PipelineNeverAborts(steps);
  }

  lemma RunNext(c: Config, steps: seq<Step>, step: Step)
    requires Run(c, steps).Some?
    ensures Run(c, steps + [step]) == Advance(c, Run(c, steps).value, step)
  {
    assert (steps + [step])[..|steps|] == steps;
  }

  /** A stop that takes effect stops every segment. */
  lemma StopReachesSegments(c: Config, steps: seq<Step>, a: Address)
    requires Run(c, steps).Some? && a in Requested(steps) && Pipeline(steps).phase.Ord() < Stopping.Ord()
    ensures var p := Run(c, steps + [Control(StopAll)]);
            && p.Some? && a in p.value.segments
            && p.value.segments[a] == Next(Services.Run(SegmentCalls(steps, a)), Stop)
            && p.value.segments[a].phase.Ord() >= Stopping.Ord()
  {
    OwnedWhenRequested(c, steps);
    SegmentTold(c, steps, a);
    RunNext(c, steps, Control(StopAll));
    SurvivesExactly(c, steps);
    HaltEffect(c, steps, Run(c, steps).value, Control(StopAll), a);
    AppliedFew(SegmentAt(Run(c, steps).value, a), Stop);
  }

  /** A kill that takes effect stops and kills every segment. */
  lemma KillReachesSegments(c: Config, steps: seq<Step>, a: Address)
    requires Run(c, steps).Some? && a in Requested(steps) && Pipeline(steps).phase.Ord() < Killing.Ord()
    ensures var p := Run(c, steps + [Control(KillAll)]);
            && p.Some? && a in p.value.segments
            && p.value.segments[a] == Next(Next(Services.Run(SegmentCalls(steps, a)), Stop), Kill)
            && p.value.segments[a].phase.Ord() >= Killing.Ord()
  {
    OwnedWhenRequested(c, steps);
    SegmentTold(c, steps, a);
    RunNext(c, steps, Control(KillAll));
    SurvivesExactly(c, steps);
    HaltEffect(c, steps, Run(c, steps).value, Control(KillAll), a);
    AppliedFew(SegmentAt(Run(c, steps).value, a), Stop);
  }

  // ---------------------------------------------------------------------------------------
  // Joining

  /** An undisturbed join ends completed unless it throws, and commits to the join hook once unless the service
      was completed. */
  lemma JoinedExactly(s: Service, throws: bool)
    requires !s.aborted
    ensures var t := Joined(s, throws);
            && t.phase == (if s.phase.Completed? || !throws then Completed else Awaiting)
            && t.hooks == s.hooks + (if s.phase.Completed? then [] else [DoJoin])
            && t.joining == s.joining && !t.aborted
  {
  }

  /** Joining a segment is two steps of the run, when the pipeline is being joined. */
  lemma JoinedBySteps(c: Config, p: Pipe, a: Address, throws: bool)
    requires a in p.segments && !p.segments[a].phase.Completed? && p.instance.joining > 0 && p.joinable
    ensures var entered := Advance(c, p, JoinSegment(a)).value;
            Advance(c, entered, SegmentJoined(a, throws)).value ==
            p.(segments := p.segments[a := Joined(p.segments[a], throws)])
  {
    var entered := Advance(c, p, JoinSegment(a)).value;
    assert Advance(c, entered, SegmentJoined(a, throws)).value.segments ==
           p.segments[a := Joined(p.segments[a], throws)];
  }

  // ---------------------------------------------------------------------------------------
  // No address is created twice

  /** The addresses that step `k` creates. */
  ghost function Creates(steps: seq<Step>, k: nat): set<Address>
    requires k < |steps|
  {
    if IsUpdate(steps[k]) then steps[k].message.requested.Keys - Requested(steps[..k]) else {}
  }

  lemma {:induction false} RequestedGrows(c: Config, steps: seq<Step>, k: nat)
    requires Survivable(c, steps) && k <= |steps|
    ensures Requested(steps[..k]) <= Requested(steps)
  {
    if k == |steps| {
      assert steps[..k] == steps;
    } else {
      RequestedGrows(c, Init(steps), k);
      assert Init(steps)[..k] == steps[..k];
    }
  }

  lemma {:induction false} SurvivablePrefix(c: Config, steps: seq<Step>, k: nat)
    requires Survivable(c, steps) && k <= |steps|
    ensures Survivable(c, steps[..k])
  {
    if k == |steps| {
      assert steps[..k] == steps;
    } else {
      SurvivablePrefix(c, Init(steps), k);
      assert Init(steps)[..k] == steps[..k];
    }
  }

  /** In a run that survives, no segment address is created twice. */
  lemma CreatedOnce(c: Config, steps: seq<Step>, j: nat, k: nat)
    requires Run(c, steps).Some? && j < k < |steps|
    ensures Creates(steps, j) !! Creates(steps, k)
  {
    SurvivesExactly(c, steps);
    SurvivablePrefix(c, steps, k);
    RequestedGrows(c, steps[..k], j + 1);
    assert steps[..k][..j + 1] == steps[..j + 1];
    assert Init(steps[..j + 1]) == steps[..j];
  }
}
