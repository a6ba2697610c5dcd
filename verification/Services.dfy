/** The lock-protected life cycle every internal service follows.

    Calls may come from any thread in any order. Each is cut at its lock: starting, stopping and
    killing are one atomic decision that commits the caller to a hook; joining is an atomic entry
    that commits it to the join hook and, unless the hook throws, an atomic move to Completed. The
    hooks themselves run outside the lock; what is ordered here is the decisions. */
module Services {

  datatype Phase = Initialized | Running | Awaiting | Stopping | Killing | Completed
  {
    function Ord(): nat
    {
      match this
      case Initialized => 0
      case Running => 1
      case Awaiting => 2
      case Stopping => 3
      case Killing => 4
      case Completed => 5
    }
  }

  datatype Hook = DoStart | DoStop | DoKill | DoJoin

  /** `joining` counts the threads inside the join hook; `hooks` lists the hooks in the order in which
      callers committed to running them. */
  datatype Service = Service(phase: Phase, joining: nat, hooks: seq<Hook>, aborted: bool)

  datatype Event = Start | Stop | Kill | JoinEnter | JoinExit | JoinThrow

  function Fresh(): Service
  {
    Service(Initialized, 0, [], false)
  }

  function Enter(s: Service, p: Phase, h: Hook): Service
  {
    s.(phase := p, hooks := s.hooks + [h])
  }

  /** One atomic piece of one call. A failed check ends the process. */
  function Next(s: Service, e: Event): Service
  {
    if s.aborted then s else
    match e
    case Start =>
      if s.phase.Initialized? then Enter(s, Running, DoStart)
      else if s.phase.Running? then s
      else s.(aborted := true)
    case Stop => if s.phase.Ord() < Stopping.Ord() then Enter(s, Stopping, DoStop) else s
    case Kill => if s.phase.Ord() < Killing.Ord() then Enter(s, Killing, DoKill) else s
    case JoinEnter =>
      if s.phase.Ord() < Completed.Ord() then Enter(s, Awaiting, DoJoin).(joining := s.joining + 1) else s
    case JoinExit => if s.joining > 0 then s.(joining := s.joining - 1, phase := Completed) else s
    case JoinThrow => if s.joining > 0 then s.(joining := s.joining - 1) else s
  }

  function Run(events: seq<Event>): Service
  {
    if events == [] then Fresh() else Next(Run(events[..|events| - 1]), events[|events| - 1])
  }

  // ---------------------------------------------------------------------------------------
  // The object

  class ServiceObject {
    var phase: Phase
    var joining: nat
    var hooks: seq<Hook>
    var aborted: bool

    ghost function View(): Service
      reads this
    {
      Service(phase, joining, hooks, aborted)
    }

    constructor ()
      ensures View() == Fresh()
    {
      phase, joining, hooks, aborted := Initialized, 0, [], false;
    }

    /** `forward_state`: the check that the state only advances, then the advance. */
    method ForwardState(p: Phase) returns (advanced: bool)
      requires !aborted
      modifies this
      ensures aborted <==> old(phase).Ord() > p.Ord()
      ensures advanced <==> old(phase).Ord() < p.Ord()
      ensures phase == if advanced then p else old(phase)
      ensures hooks == old(hooks) && joining == old(joining)
    {
      advanced := false;
      if phase.Ord() > p.Ord() {
        aborted := true;
      } else if phase.Ord() < p.Ord() {
        phase, advanced := p, true;
      }
    }

    method ServiceStart()
      requires !aborted
      modifies this
      ensures View() == Next(old(View()), Start)
    {
      var execute := ForwardState(Running);
      if execute {
        hooks := hooks + [DoStart];
      }
    }

    method ServiceStop()
      requires !aborted
      modifies this
      ensures View() == Next(old(View()), Stop)
    {
      if phase.Ord() < Stopping.Ord() {
        phase := Stopping;
        hooks := hooks + [DoStop];
      }
    }

    method ServiceKill()
      requires !aborted
      modifies this
      ensures View() == Next(old(View()), Kill)
    {
      if phase.Ord() < Killing.Ord() {
        phase := Killing;
        hooks := hooks + [DoKill];
      }
    }

    /** A join that nobody disturbs. */
    method ServiceAwaitJoin(throws: bool)
      requires !aborted
      modifies this
      ensures !aborted
      ensures View() == if old(phase).Completed? then old(View())
                        else Next(Next(old(View()), JoinEnter), if throws then JoinThrow else JoinExit)
    {
      if phase.Ord() < Completed.Ord() {
        phase := Awaiting;
        hooks := hooks + [DoJoin];
        if !throws {
          var _ := ForwardState(Completed);
        }
      }
    }

    /** What destructors call: the service ends in a state the base destructor accepts exactly when
        it was never started, or the join it needs does not throw. It is killed before it is joined
        exactly when it is still running. */
    method CallInDestructor(throws: bool)
      requires !aborted
      modifies this
      ensures !aborted
      ensures phase.Initialized? || phase.Completed? <==>
              old(phase).Initialized? || old(phase).Completed? || !throws
      ensures hooks == old(hooks) + (if old(phase).Running? then [DoKill] else []) +
                       (if old(phase).Initialized? || old(phase).Completed? then [] else [DoJoin])
    {
      var seen := phase;
      if seen.Ord() > Initialized.Ord() {
        if seen.Running? {
          ServiceKill();
        }
        if !seen.Completed? {
          ServiceAwaitJoin(throws);
        }
      }
    }
  }

  // ---------------------------------------------------------------------------------------
  // Every sequence of calls

  ghost predicate IsLate(e: Event)
  {
    e.Stop? || e.Kill? || e.JoinEnter?
  }

  ghost predicate Late(events: seq<Event>)
  {
    exists p :: 0 <= p < |events| && IsLate(events[p])
  }

  /** A start comes after a stop, a kill or a join. */
  ghost predicate StartsLate(events: seq<Event>)
  {
    exists q :: 0 <= q < |events| && events[q].Start? && Late(events[..q])
  }

  lemma LateGrows(events: seq<Event>, e: Event)
    ensures Late(events + [e]) <==> Late(events) || IsLate(e)
    ensures StartsLate(events + [e]) <==> StartsLate(events) || (e.Start? && Late(events))
  {
    var more := events + [e];
    assert more[|events|] == e && more[..|events|] == events;
    assert forall p :: 0 <= p < |events| ==> more[p] == events[p];
    assert forall q :: 0 <= q <= |events| ==> more[..q] == events[..q];
    if StartsLate(events) {
      var q :| 0 <= q < |events| && events[q].Start? && Late(events[..q]);
      assert more[q].Start? && Late(more[..q]);
    }
    if StartsLate(more) {
      var q :| 0 <= q < |more| && more[q].Start? && Late(more[..q]);
      if q < |events| { assert events[q].Start? && Late(events[..q]); }
    }
  }

  /** A sequence of calls trips the check exactly when it starts the service after having stopped,
      killed or joined it; until then the state tells whether one of those has happened. */
  lemma {:induction false} AbortsExactly(events: seq<Event>)
    ensures Run(events).aborted <==> StartsLate(events)
    ensures !Run(events).aborted ==> (Run(events).phase.Ord() >= Awaiting.Ord() <==> Late(events))
  {
    if events != [] {
      var before := events[..|events| - 1];
      AbortsExactly(before);
      LateGrows(before, events[|events| - 1]);
      assert events == before + [events[|events| - 1]];
      JoiningIsLate(before);
    }
  }

  lemma {:induction false} JoiningIsLate(events: seq<Event>)
    ensures var s := Run(events); s.joining > 0 ==> s.phase.Ord() >= Awaiting.Ord()
    ensures Run(events).phase.Initialized? ==> Run(events).hooks == []
    ensures Run(events).phase.Initialized? || DoStart in Run(events).hooks || Run(events).phase.Ord() >= Awaiting.Ord()
  {
    if events != [] { JoiningIsLate(events[..|events| - 1]); }
  }

  ghost predicate JoinAfter(hooks: seq<Hook>, p: int, end: int)
  {
    exists r :: 0 <= p < r < end <= |hooks| && hooks[r].DoJoin?
  }

  /** A stop repeats a stop and undoes a kill; a kill repeats a kill. */
  predicate Repeats(first: Hook, second: Hook)
  {
    (second.DoStop? && (first.DoStop? || first.DoKill?)) || (second.DoKill? && first.DoKill?)
  }

  /** Between two stops, between two kills, and between a kill and a later stop, a join was entered. */
  ghost predicate Spaced(hooks: seq<Hook>)
  {
    forall p, q :: 0 <= p < q < |hooks| && Repeats(hooks[p], hooks[q]) ==> JoinAfter(hooks, p, q)
  }

  /** A stop or kill not yet followed by a join shows in the state. */
  ghost predicate Shows(s: Service)
  {
    forall p :: 0 <= p < |s.hooks| && !JoinAfter(s.hooks, p, |s.hooks|) ==>
      && (s.hooks[p].DoStop? ==> s.phase.Ord() >= Stopping.Ord())
      && (s.hooks[p].DoKill? ==> s.phase.Ord() >= Killing.Ord())
  }

  lemma JoinAfterGrows(hooks: seq<Hook>, h: Hook, p: int, end: int)
    requires end <= |hooks|
    ensures JoinAfter(hooks + [h], p, end) <==> JoinAfter(hooks, p, end)
    ensures JoinAfter(hooks + [h], p, |hooks| + 1) <==>
            JoinAfter(hooks, p, |hooks|) || (h.DoJoin? && 0 <= p < |hooks|)
  {
    assert forall r :: 0 <= r < |hooks| ==> (hooks + [h])[r] == hooks[r];
    assert (hooks + [h])[|hooks|] == h;
  }

  /** Running hook `h` in a state where no earlier hook it repeats is still showing. */
  lemma HookKeepsSpaced(s: Service, p': Phase, h: Hook)
    requires Spaced(s.hooks) && Shows(s)
    requires h.DoStop? ==> s.phase.Ord() < Stopping.Ord() && p'.Stopping?
    requires h.DoKill? ==> s.phase.Ord() < Killing.Ord() && p'.Killing?
    requires h.DoStart? ==> s.hooks == []
    ensures Spaced(Enter(s, p', h).hooks) && Shows(Enter(s, p', h))
  {
    var s' := Enter(s, p', h);
    var n := |s.hooks|;
    forall p, q | 0 <= p < q < |s'.hooks| && Repeats(s'.hooks[p], s'.hooks[q]) ensures JoinAfter(s'.hooks, p, q) {
      JoinAfterGrows(s.hooks, h, p, q);
    }
    forall p | 0 <= p < |s'.hooks| && !JoinAfter(s'.hooks, p, |s'.hooks|)
      ensures (s'.hooks[p].DoStop? ==> s'.phase.Ord() >= Stopping.Ord()) &&
              (s'.hooks[p].DoKill? ==> s'.phase.Ord() >= Killing.Ord())
    {
      JoinAfterGrows(s.hooks, h, p, n);
    }
  }

  /** A step that runs no hook does not hide one either. */
  lemma NoHookKeepsShows(s: Service, e: Event)
    requires Shows(s) && Next(s, e).hooks == s.hooks
    ensures Shows(Next(s, e))
  {
    assert |s.hooks + [DoJoin]| != |s.hooks|;
    assert Next(s, e).phase == s.phase || Next(s, e).phase.Completed?;
  }

  lemma {:induction false} HooksAreSpaced(events: seq<Event>)
    ensures Spaced(Run(events).hooks) && Shows(Run(events))
  {
    if events != [] {
      var s, e := Run(events[..|events| - 1]), events[|events| - 1];
      HooksAreSpaced(events[..|events| - 1]);
      JoiningIsLate(events[..|events| - 1]);
      var s' := Next(s, e);
      if s'.hooks != s.hooks {
        HookKeepsSpaced(s, s'.phase, s'.hooks[|s.hooks|]);
      } else {
        NoHookKeepsShows(s, e);
      }
    }
  }

  lemma {:induction false} StartsFirst(events: seq<Event>)
    ensures forall q :: 0 <= q < |Run(events).hooks| && Run(events).hooks[q].DoStart? ==> q == 0
  {
    if events != [] {
      StartsFirst(events[..|events| - 1]);
      JoiningIsLate(events[..|events| - 1]);
    }
  }

  /** However the calls interleave: at most one caller runs the start hook, and it committed to it before
      any other hook; and repeated stops and kills have a join entry between them. */
  lemma HookOrder(events: seq<Event>)
    ensures Spaced(Run(events).hooks)
    ensures forall q :: 0 <= q < |Run(events).hooks| && Run(events).hooks[q].DoStart? ==> q == 0
  {
    HooksAreSpaced(events);
    StartsFirst(events);
  }

  /** Completed is final: no later call runs a hook or changes the state. */
  lemma {:induction false} CompletedIsFinal(events: seq<Event>, more: seq<Event>)
    requires Run(events).phase.Completed?
    ensures Run(events + more).phase.Completed? && Run(events + more).hooks == Run(events).hooks
  {
    if more == [] {
      assert events + more == events;
    } else {
      var shorter := events + more[..|more| - 1];
      CompletedIsFinal(events, more[..|more| - 1]);
      assert (events + more)[..|events + more| - 1] == shorter;
    }
  }

  /** One call sets the state back exactly when it joins a service that is stopping or being killed, and
      then to Awaiting. */
  lemma GoesBackExactly(s: Service, e: Event)
    requires !s.aborted
    ensures Next(s, e).phase.Ord() < s.phase.Ord() <==> e.JoinEnter? && (s.phase.Stopping? || s.phase.Killing?)
    ensures Next(s, e).phase.Ord() < s.phase.Ord() ==> Next(s, e).phase.Awaiting?
  {
  }

  /** A stop or a kill with no join entered since. */
  ghost predicate UnjoinedHalt(events: seq<Event>)
  {
    && events != []
    && var e := events[|events| - 1];
       !e.JoinEnter? && (e.Stop? || e.Kill? || UnjoinedHalt(events[..|events| - 1]))
  }

  /** The joins entered that have not thrown. */
  ghost function Inside(events: seq<Event>): nat
  {
    if events == [] then 0
    else
      var n, e := Inside(events[..|events| - 1]), events[|events| - 1];
      if e.JoinEnter? then n + 1 else if e.JoinThrow? && n > 0 then n - 1 else n
  }

  /** A join hook has returned. */
  ghost predicate Completes(events: seq<Event>)
  {
    && events != []
    && var before := events[..|events| - 1];
       Completes(before) || (events[|events| - 1].JoinExit? && Inside(before) > 0)
  }

  /** A join is entered after a stop or kill that nobody has joined, before completion and before a start
      that came too late. */
  ghost predicate JoinsHalted(events: seq<Event>)
  {
    && events != []
    && var before := events[..|events| - 1];
       || JoinsHalted(before)
       || (events[|events| - 1].JoinEnter? && UnjoinedHalt(before) && !Completes(before) && !StartsLate(before))
  }

  /** A kill with no join entered since. */
  ghost predicate UnjoinedKill(events: seq<Event>)
  {
    && events != []
    && var e := events[|events| - 1];
       !e.JoinEnter? && (e.Kill? || UnjoinedKill(events[..|events| - 1]))
  }

  ghost function PhaseOf(events: seq<Event>): Phase
  {
    if Completes(events) then Completed
    else if UnjoinedKill(events) then Killing
    else if UnjoinedHalt(events) then Stopping
    else if Late(events) then Awaiting
    else if Start in events then Running
    else Initialized
  }

  /** The state, told from the calls alone. */
  lemma {:induction false} PhaseTold(events: seq<Event>)
    requires !StartsLate(events)
    ensures Run(events).phase == PhaseOf(events)
    ensures !Completes(events) ==> Run(events).joining == Inside(events)
    ensures UnjoinedKill(events) ==> UnjoinedHalt(events)
  {
    if events != [] {
      var before, e := events[..|events| - 1], events[|events| - 1];
      assert events == before + [e];
      LateGrows(before, e);
      AbortsExactly(before);
      PhaseTold(before);
      assert Start in events <==> Start in before || e.Start?;
    }
  }

  /** The hook a call commits its caller to: a start the first one, if no stop, kill or join came before; a
      stop the stop hook, unless a stop or kill is unjoined; a kill the kill hook, unless a kill is unjoined;
      a join the join hook; and none of them after completion or a start that came too late. */
  ghost function HookOf(before: seq<Event>, e: Event): seq<Hook>
  {
    if StartsLate(before) || Completes(before) then []
    else match e
         case Start => if Start in before || Late(before) then [] else [DoStart]
         case Stop => if UnjoinedHalt(before) then [] else [DoStop]
         case Kill => if UnjoinedKill(before) then [] else [DoKill]
         case JoinEnter => [DoJoin]
         case _ => []
  }

  ghost function HooksOf(events: seq<Event>): seq<Hook>
  {
    if events == [] then []
    else
      var before := events[..|events| - 1];
      HooksOf(before) + HookOf(before, events[|events| - 1])
  }

  lemma NextHook(s: Service, before: seq<Event>, e: Event)
    requires !s.aborted && !StartsLate(before) && s.phase == PhaseOf(before)
    requires UnjoinedKill(before) ==> UnjoinedHalt(before)
    requires UnjoinedHalt(before) ==> Late(before)
    requires Completes(before) ==> Late(before)
    ensures Next(s, e).hooks == s.hooks + HookOf(before, e)
  {
  }

  lemma {:induction false} HaltIsLate(events: seq<Event>)
    ensures UnjoinedHalt(events) || Inside(events) > 0 || Completes(events) ==> Late(events)
  {
    if events != [] {
      var before, e := events[..|events| - 1], events[|events| - 1];
      assert events == before + [e];
      HaltIsLate(before);
      LateGrows(before, e);
    }
  }

  /** Which hooks run, and in which order, told from the calls alone. */
  lemma {:induction false} HooksTold(events: seq<Event>)
    ensures Run(events).hooks == HooksOf(events)
  {
    if events != [] {
      var before, e := events[..|events| - 1], events[|events| - 1];
      HooksTold(before);
      AbortsExactly(before);
      if StartsLate(before) {
        assert HooksOf(before) + [] == HooksOf(before);
      } else {
        PhaseTold(before);
        HaltIsLate(before);
        NextHook(Run(before), before, e);
      }
    }
  }

  /** The state never goes back from one call to the next. */
  ghost predicate Rises(events: seq<Event>)
  {
    events == [] ||
    var before := events[..|events| - 1];
    Rises(before) && Run(before).phase.Ord() <= Run(events).phase.Ord()
  }

  /** A sequence of calls only ever advances the state exactly when no join in it is entered after a stop or
      kill that nobody has joined yet, before completion. */
  lemma {:induction false} AdvancesExactly(events: seq<Event>)
    ensures Rises(events) <==> !JoinsHalted(events)
  {
    if events != [] {
      var before := events[..|events| - 1];
      AdvancesExactly(before);
      AbortsExactly(before);
      if !StartsLate(before) {
        PhaseTold(before);
        GoesBackExactly(Run(before), events[|events| - 1]);
      }
    }
  }

  lemma StopThenJoinGoesBack()
    ensures Run([Stop, JoinEnter]).phase.Ord() < Run([Stop]).phase.Ord()
    ensures Run([Stop, JoinEnter, Stop]).hooks == [DoStop, DoJoin, DoStop]
  {
    assert [Stop, JoinEnter][..1] == [Stop] && [Stop][..0] == [];
    assert [Stop, JoinEnter, Stop][..2] == [Stop, JoinEnter];
  }
}
