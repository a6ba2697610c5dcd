/** The Architect's update: a two-phase barrier across the registered machines. The bodies modelled
    here are commented out at this revision of the source; the class that declares them is not.

    The server counts start and complete requests; a phase ends when as many have arrived as machines
    are registered. Machines behave: told of an update, each sends one start, waits for the answer,
    sends one complete, and waits for the answer. Machines come and go between updates only, marked to
    stop or not. A check that fires, or a lookup that throws, ends the run. */
module Architect {
  import opened Finite
  import opened Options

  datatype Pending = Pending(starts: seq<nat>, completes: seq<nat>, started: bool)

  /** `streams` and `stopped` are the keys of the two stream maps; `marked` the machines that asked to
      stop in this batching window. */
  datatype Server = Server(streams: set<nat>, stopped: set<nat>, marked: set<nat>, update: Option<Pending>)

  // ---------------------------------------------------------------------------------------
  // The handlers: none when a check fires, otherwise the new state and who is answered

  ghost predicate Reachable(s: Server, list: seq<nat>)
  {
    forall k :: 0 <= k < |list| ==> list[k] in s.streams || list[k] in s.stopped
  }

  ghost function OnStart(s: Server, m: nat): Option<(Server, seq<nat>)>
  {
    if s.update.None? || s.update.value.started then None else
    var starts := s.update.value.starts + [m];
    if |starts| != |s.streams| then Some((s.(update := Some(s.update.value.(starts := starts))), []))
    else if !Reachable(s, starts) then None
    else Some((s.(update := Some(s.update.value.(starts := [], started := true))), starts))
  }

  ghost function OnComplete(s: Server, m: nat): Option<(Server, seq<nat>)>
  {
    if s.update.None? || !s.update.value.started then None else
    var completes := s.update.value.completes + [m];
    if |completes| != |s.streams| then Some((s.(update := Some(s.update.value.(completes := completes))), []))
    else if !Reachable(s, completes) || !(s.marked <= s.streams) then None
    else Some((Server(s.streams - s.marked, s.stopped + s.marked, {}, None), completes))
  }

  class UpdateServer {
    var streams: set<nat>
    var stopped: set<nat>
    var marked: set<nat>
    var update: Option<Pending>

    ghost function View(): Server
      reads this
    {
      Server(streams, stopped, marked, update)
    }

    /** Answers each request in turn; false when one has no stream. */
    method Answer(requests: seq<nat>) returns (ok: bool, answered: seq<nat>)
      ensures ok <==> Reachable(View(), requests)
      ensures ok ==> answered == requests
    {
      answered := [];
      for k := 0 to |requests|
        invariant answered == requests[..k]
        invariant forall j :: 0 <= j < k ==> requests[j] in streams || requests[j] in stopped
      {
        if requests[k] !in streams && requests[k] !in stopped {
          return false, answered;
        }
        answered := answered + [requests[k]];
      }
      return true, answered;
    }

    method OnClientUpdateStart(m: nat) returns (ok: bool, answered: seq<nat>)
      modifies this
      ensures ok <==> OnStart(old(View()), m).Some?
      ensures ok ==> OnStart(old(View()), m).value == (View(), answered)
    {
      answered := [];
      if update.None? || update.value.started {
        return false, answered;
      }
      var starts := update.value.starts + [m];
      update := Some(update.value.(starts := starts));
      if |starts| == |streams| {
        update := Some(update.value.(started := true));
        ok, answered := Answer(starts);
        if !ok {
          return;
        }
        update := Some(update.value.(starts := []));
      }
      ok := true;
    }

    /** Moves the marked machines to the other map; false when one is not registered. */
    method MoveMarked() returns (ok: bool)
      modifies this
      ensures ok <==> old(marked) <= old(streams)
      ensures ok ==> streams == old(streams) - old(marked) && stopped == old(stopped) + old(marked) && marked == {}
      ensures update == old(update)
    {
      var todo := marked;
      ghost var done: set<nat> := {};
      while todo != {}
        invariant todo + done == marked && todo !! done && marked == old(marked) && update == old(update)
        invariant done <= old(streams)
        invariant streams == old(streams) - done && stopped == old(stopped) + done
        decreases todo
      {
        var id :| id in todo;
        if id !in streams {
          return false;
        }
        stopped := stopped + {id};
        streams := streams - {id};
        todo, done := todo - {id}, done + {id};
      }
      marked := {};
      return true;
    }

    method OnClientUpdateComplete(m: nat) returns (ok: bool, answered: seq<nat>)
      modifies this
      ensures ok <==> OnComplete(old(View()), m).Some?
      ensures ok ==> OnComplete(old(View()), m).value == (View(), answered)
    {
      answered := [];
      if update.None? || !update.value.started {
        return false, answered;
      }
      var completes := update.value.completes + [m];
      if |completes| != |streams| {
        update := Some(update.value.(completes := completes));
        return true, answered;
      }
      ok, answered := Answer(completes);
      if !ok {
        return;
      }
      ok := MoveMarked();
      update := None;
    }
  }

  // ---------------------------------------------------------------------------------------
  // The server and its machines

  datatype Client = Idle | Notified | StartWait | Started | CompleteWait

  datatype Kind = StartSent | StartAnswered | CompleteSent | CompleteAnswered

  /** What was sent and answered, numbered by update. */
  datatype Event = Issued(r: nat) | Message(kind: Kind, r: nat, m: nat)

  /** `members` lists, for each update so far, the machines it was issued to. */
  datatype World = World(
    server: Server,
    clients: map<nat, Client>,
    members: seq<set<nat>>,
    log: seq<Event>,
    aborted: bool)

  datatype Step =
    | Join(m: nat)           // register_workers, between updates; machine numbers are never reused
    | Leave(m: nat)          // remove_machine, between updates
    | ControlStop(m: nat)    // the oracle processes a stop request
    | CloseWindow            // a batching window ends without an update
    | IssueUpdate            // the oracle issues an update
    | SendStart(m: nat)
    | SendComplete(m: nat)

  ghost function Answers(kind: Kind, r: nat, who: seq<nat>): seq<Event>
  {
    seq(|who|, k requires 0 <= k < |who| => Message(kind, r, who[k]))
  }

  /** The machines of `who` move on. */
  ghost function Released(clients: map<nat, Client>, who: seq<nat>, c: Client): map<nat, Client>
  {
    map m | m in clients :: if m in who then c else clients[m]
  }

  ghost predicate Enabled(w: World, step: Step)
  {
    var s := w.server;
    !w.aborted &&
    match step
    case Join(m) => s.update.None? && m !in w.clients
    case Leave(m) => s.update.None?
    case ControlStop(m) => s.update.None?
    case CloseWindow => s.update.None?
    case IssueUpdate => s.update.None?
    case SendStart(m) => m in w.clients && w.clients[m].Notified?
    case SendComplete(m) => m in w.clients && w.clients[m].Started?
  }

  ghost function Next(w: World, step: Step): World
  {
    if !Enabled(w, step) then w else
    var s, r := w.server, |w.members| - 1;
    match step
    case Join(m) => w.(server := s.(streams := s.streams + {m}), clients := w.clients[m := Idle])
    case Leave(m) => w.(server := s.(streams := s.streams - {m}, stopped := s.stopped - {m}))
    case ControlStop(m) =>
      if m in s.streams || m in s.stopped then w.(server := s.(marked := s.marked + {m})) else w.(aborted := true)
    case CloseWindow => w.(server := s.(marked := {}))
    case IssueUpdate =>
      World(s.(update := Some(Pending([], [], false))),
            map m | m in w.clients :: if m in s.streams then Notified else w.clients[m],
            w.members + [s.streams], w.log + [Issued(r + 1)], false)
    case SendStart(m) =>
      (match OnStart(s, m)
       case None => w.(aborted := true)
       case Some((s', who)) =>
         if r < 0 then w else
         w.(server := s', clients := Released(w.clients[m := StartWait], who, Started),
            log := w.log + [Message(StartSent, r, m)] + Answers(StartAnswered, r, who)))
    case SendComplete(m) =>
      (match OnComplete(s, m)
       case None => w.(aborted := true)
       case Some((s', who)) =>
         if r < 0 then w else
         w.(server := s', clients := Released(w.clients[m := CompleteWait], who, Idle),
            log := w.log + [Message(CompleteSent, r, m)] + Answers(CompleteAnswered, r, who)))
  }

  ghost function Run(steps: seq<Step>): World
  {
    if steps == [] then World(Server({}, {}, {}, None), map[], [], [], false)
    else Next(Run(steps[..|steps| - 1]), steps[|steps| - 1])
  }

  // ---------------------------------------------------------------------------------------
  // The two phases

  ghost predicate AllDid(members: seq<set<nat>>, kind: Kind, r: nat, before: seq<Event>)
  {
    r < |members| && forall u :: u in members[r] ==> Message(kind, r, u) in before
  }

  /** Whether an event may come after the events `before`: no start is answered before every machine of
      the update has sent its start; no complete is sent before every start is answered; no complete
      is answered before every complete is sent; and no update is issued before every complete of the
      one before it is answered. */
  ghost predicate Allowed(members: seq<set<nat>>, before: seq<Event>, e: Event)
  {
    match e
    case Issued(r) => r == 0 || AllDid(members, CompleteAnswered, r - 1, before)
    case Message(StartSent, r, m) => r < |members| && m in members[r] && Issued(r) in before
    case Message(StartAnswered, r, m) => AllDid(members, StartSent, r, before)
    case Message(CompleteSent, r, m) => AllDid(members, StartAnswered, r, before)
    case Message(CompleteAnswered, r, m) => AllDid(members, CompleteSent, r, before)
  }

  ghost predicate Ordered(members: seq<set<nat>>, log: seq<Event>)
  {
    log == [] || (Ordered(members, log[..|log| - 1]) && Allowed(members, log[..|log| - 1], log[|log| - 1]))
  }

  lemma AppendOrdered(members: seq<set<nat>>, log: seq<Event>, e: Event)
    requires Ordered(members, log) && Allowed(members, log, e)
    ensures Ordered(members, log + [e])
  {
    assert (log + [e])[..|log|] == log;
  }

  /** Later updates do not change what was allowed. */
  lemma {:induction false} OrderedStays(members: seq<set<nat>>, log: seq<Event>, more: set<nat>)
    requires Ordered(members, log)
    ensures Ordered(members + [more], log)
  {
    if log != [] {
      var k := |log| - 1;
      OrderedStays(members, log[..k], more);
      assert forall r :: 0 <= r < |members| ==> (members + [more])[r] == members[r];
      AllowedStays(members, log[..k], log[k], more);
    }
  }

  lemma AllowedStays(members: seq<set<nat>>, before: seq<Event>, e: Event, more: set<nat>)
    requires Allowed(members, before, e)
    ensures Allowed(members + [more], before, e)
  {
    assert forall r :: 0 <= r < |members| ==> (members + [more])[r] == members[r];
  }

  /** Answers may all go out together once one of them may. */
  lemma {:induction false} AnswersOrdered(members: seq<set<nat>>, log: seq<Event>, kind: Kind, r: nat, who: seq<nat>)
    requires Ordered(members, log)
    requires (kind.StartAnswered? && AllDid(members, StartSent, r, log)) ||
             (kind.CompleteAnswered? && AllDid(members, CompleteSent, r, log))
    ensures Ordered(members, log + Answers(kind, r, who))
    decreases |who|
  {
    if who == [] {
      assert log + Answers(kind, r, who) == log;
    } else {
      var k := |who| - 1;
      AnswersOrdered(members, log, kind, r, who[..k]);
      var before := log + Answers(kind, r, who[..k]);
      assert log + Answers(kind, r, who) == before + [Message(kind, r, who[k])];
      AppendOrdered(members, before, Message(kind, r, who[k]));
    }
  }

  // ---------------------------------------------------------------------------------------
  // The invariant

  /** The machines of `who` have sent their message and are waiting; the others are still to send it. */
  ghost predicate Collecting(w: World, who: seq<nat>, sent: Kind, there: Client, here: Client)
    requires w.server.streams <= w.clients.Keys
  {
    var s, r := w.server, |w.members| - 1;
    && 0 <= r && w.members[r] == s.streams
    && Distinct(who) && Members(who) <= s.streams && (s.streams != {} ==> |who| < |s.streams|)
    && (forall u :: u in s.streams ==> w.clients[u] == if u in who then there else here)
    && (forall u :: u in who ==> Message(sent, r, u) in w.log)
  }

  ghost predicate Quiet(w: World)
    requires w.server.streams <= w.clients.Keys
  {
    && (forall u :: u in w.server.streams ==> w.clients[u].Idle?)
    && (w.members != [] ==> AllDid(w.members, CompleteAnswered, |w.members| - 1, w.log))
  }

  ghost predicate PhaseInv(w: World)
    requires w.server.streams <= w.clients.Keys
  {
    match w.server.update
    case None => Quiet(w)
    case Some(Pending(starts, completes, false)) =>
      completes == [] && Collecting(w, starts, StartSent, StartWait, Notified) && Issued(|w.members| - 1) in w.log
    case Some(Pending(starts, completes, true)) =>
      starts == [] && Collecting(w, completes, CompleteSent, CompleteWait, Started) &&
      AllDid(w.members, StartAnswered, |w.members| - 1, w.log)
  }

  ghost predicate Inv(w: World)
  {
    var s := w.server;
    && s.streams !! s.stopped
    && s.streams <= w.clients.Keys && s.stopped <= w.clients.Keys
    && (forall u :: u in w.clients && u !in s.streams ==> w.clients[u].Idle?)
    && Ordered(w.members, w.log)
    && PhaseInv(w)
  }

  /** A phase in which everyone registered has been heard from. */
  lemma EveryoneHeard(who: seq<nat>, streams: set<nat>)
    requires Distinct(who) && Members(who) <= streams && |who| == |streams|
    ensures forall u :: u in streams <==> u in who
  {
    DistinctSize(who);
    SameSize(Members(who), streams);
    assert forall u :: u in who <==> u in Members(who);
  }

  lemma BetweenUpdatesInv(w: World, step: Step)
    requires Inv(w) && Enabled(w, step) && (step.Join? || step.Leave? || step.ControlStop? || step.CloseWindow?)
    ensures Inv(Next(w, step))
  {
  }

  lemma IssueOrdered(members: seq<set<nat>>, log: seq<Event>, streams: set<nat>)
    requires Ordered(members, log)
    requires members != [] ==> AllDid(members, CompleteAnswered, |members| - 1, log)
    ensures Ordered(members + [streams], log + [Issued(|members|)])
  {
    var r := |members|;
    OrderedStays(members, log, streams);
    assert r > 0 ==> (members + [streams])[r - 1] == members[r - 1];
    AppendOrdered(members + [streams], log, Issued(r));
  }

  /** A phase in which nobody has been heard from yet. */
  lemma PhaseBegins(w: World, sent: Kind, there: Client, here: Client)
    requires w.server.streams <= w.clients.Keys && w.members != [] && w.members[|w.members| - 1] == w.server.streams
    requires forall u :: u in w.server.streams ==> w.clients[u] == here
    ensures Collecting(w, [], sent, there, here)
  {
  }

  lemma IssueInv(w: World)
    requires Inv(w) && Enabled(w, IssueUpdate)
    ensures Inv(Next(w, IssueUpdate))
  {
    var w' := Next(w, IssueUpdate);
    var members, log := w.members + [w.server.streams], w.log + [Issued(|w.members|)];
    assert w'.members == members && w'.log == log;
    IssueOrdered(w.members, w.log, w.server.streams);
    assert w'.clients.Keys == w.clients.Keys;
    assert members[|w.members|] == w.server.streams;
    PhaseBegins(w', StartSent, StartWait, Notified);
    assert log[|w.log|] == Issued(|w.members|);
  }

  /** Who sends, and in which phase. */
  lemma StartSender(w: World, m: nat)
    requires Inv(w) && Enabled(w, SendStart(m))
    ensures w.server.update.Some? && !w.server.update.value.started
    ensures m in w.server.streams && m !in w.server.update.value.starts
  {
  }

  lemma CompleteSender(w: World, m: nat)
    requires Inv(w) && Enabled(w, SendComplete(m))
    ensures w.server.update.Some? && w.server.update.value.started
    ensures m in w.server.streams && m !in w.server.update.value.completes
  {
  }

  /** One more machine has sent its message. */
  lemma OneMore(who: seq<nat>, m: nat, streams: set<nat>)
    requires Distinct(who) && Members(who) <= streams && m in streams && m !in who && |who| < |streams|
    ensures Distinct(who + [m]) && Members(who + [m]) <= streams
    ensures forall u :: u in who + [m] <==> u in who || u == m
    ensures |who + [m]| == |streams| ==> forall u :: u in streams <==> u in who + [m]
  {
    var more := who + [m];
    assert forall k :: 0 <= k < |who| ==> more[k] in who;
    forall i, j | 0 <= i < j < |more| ensures more[i] != more[j] {
      if j == |who| { assert more[i] in who; }
    }
    if |more| == |streams| { EveryoneHeard(more, streams); }
  }

  /** The last message of a phase, followed by all the answers. */
  lemma PhaseEnds(members: seq<set<nat>>, log: seq<Event>, r: nat, who: seq<nat>, m: nat, sent: Kind, answered: Kind)
    requires r < |members| && Ordered(members, log) && Allowed(members, log, Message(sent, r, m))
    requires (sent.StartSent? && answered.StartAnswered?) || (sent.CompleteSent? && answered.CompleteAnswered?)
    requires forall u :: u in who ==> Message(sent, r, u) in log
    requires forall u :: u in members[r] <==> u in who + [m]
    ensures var log' := log + [Message(sent, r, m)] + Answers(answered, r, who + [m]);
            Ordered(members, log') && AllDid(members, answered, r, log')
  {
    var all := who + [m];
    var before := log + [Message(sent, r, m)];
    AppendOrdered(members, log, Message(sent, r, m));
    forall u | u in members[r] ensures Message(sent, r, u) in before {
      assert u in all;
    }
    AnswersOrdered(members, before, answered, r, all);
    forall u | u in members[r] ensures Message(answered, r, u) in before + Answers(answered, r, all) {
      var k :| 0 <= k < |all| && all[k] == u;
      assert Answers(answered, r, all)[k] == Message(answered, r, u);
    }
  }

  lemma NobodyReleased(clients: map<nat, Client>, c: Client)
    ensures Released(clients, [], c) == clients
  {
  }

  lemma StartEarlyInv(w: World, m: nat)
    requires Inv(w) && Enabled(w, SendStart(m))
    requires w.server.update.Some? && |w.server.update.value.starts| + 1 != |w.server.streams|
    ensures Inv(Next(w, SendStart(m))) && !Next(w, SendStart(m)).aborted
  {
    StartSender(w, m);
    var w', r := Next(w, SendStart(m)), |w.members| - 1;
    var sent := w.log + [Message(StartSent, r, m)];
    assert sent + Answers(StartAnswered, r, []) == sent;
    NobodyReleased(w.clients[m := StartWait], Started);
    AppendOrdered(w.members, w.log, Message(StartSent, r, m));
    OneMore(w.server.update.value.starts, m, w.server.streams);
    assert w'.log[|w.log|] == Message(StartSent, r, m);
  }

  lemma CompleteEarlyInv(w: World, m: nat)
    requires Inv(w) && Enabled(w, SendComplete(m))
    requires w.server.update.Some? && |w.server.update.value.completes| + 1 != |w.server.streams|
    ensures Inv(Next(w, SendComplete(m))) && !Next(w, SendComplete(m)).aborted
  {
    CompleteSender(w, m);
    var w', r := Next(w, SendComplete(m)), |w.members| - 1;
    var sent := w.log + [Message(CompleteSent, r, m)];
    assert sent + Answers(CompleteAnswered, r, []) == sent;
    NobodyReleased(w.clients[m := CompleteWait], Idle);
    AppendOrdered(w.members, w.log, Message(CompleteSent, r, m));
    OneMore(w.server.update.value.completes, m, w.server.streams);
    assert w'.log[|w.log|] == Message(CompleteSent, r, m);
  }

  /** Once everyone has been heard from, everyone can be answered. */
  lemma EveryoneReachable(s: Server, who: seq<nat>, m: nat)
    requires Distinct(who) && Members(who) <= s.streams && m in s.streams && m !in who && |who| + 1 == |s.streams|
    ensures Reachable(s, who + [m]) && forall u :: u in s.streams <==> u in who + [m]
  {
    OneMore(who, m, s.streams);
    forall k | 0 <= k < |who + [m]| ensures (who + [m])[k] in s.streams {
      assert (who + [m])[k] in who + [m];
    }
  }

  /** The last start: everyone is answered, and the second phase begins. */
  lemma LastStart(w: World, m: nat)
    requires Inv(w) && Enabled(w, SendStart(m))
    requires w.server.update.Some? && |w.server.update.value.starts| + 1 == |w.server.streams|
    ensures var s, all, r := w.server, w.server.update.value.starts + [m], |w.members| - 1;
            Next(w, SendStart(m)) ==
            w.(server := s.(update := Some(Pending([], [], true))),
               clients := Released(w.clients[m := StartWait], all, Started),
               log := w.log + [Message(StartSent, r, m)] + Answers(StartAnswered, r, all))
  {
    StartSender(w, m);
    EveryoneReachable(w.server, w.server.update.value.starts, m);
  }

  lemma StartedInv(w: World, m: nat, w': World)
    requires Inv(w) && w.server.update.Some? && !w.server.update.value.started
    requires m in w.server.streams && m !in w.server.update.value.starts
    requires |w.server.update.value.starts| + 1 == |w.server.streams|
    requires var all, r := w.server.update.value.starts + [m], |w.members| - 1;
             w' == w.(server := w.server.(update := Some(Pending([], [], true))),
                      clients := Released(w.clients[m := StartWait], all, Started),
                      log := w.log + [Message(StartSent, r, m)] + Answers(StartAnswered, r, all))
    ensures Inv(w')
  {
    EveryoneReachable(w.server, w.server.update.value.starts, m);
    PhaseEnds(w.members, w.log, |w.members| - 1, w.server.update.value.starts, m, StartSent, StartAnswered);
    assert w'.clients.Keys == w.clients.Keys;
    PhaseBegins(w', CompleteSent, CompleteWait, Started);
  }

  lemma StartLastInv(w: World, m: nat)
    requires Inv(w) && Enabled(w, SendStart(m))
    requires w.server.update.Some? && |w.server.update.value.starts| + 1 == |w.server.streams|
    ensures Inv(Next(w, SendStart(m))) && !Next(w, SendStart(m)).aborted
  {
    StartSender(w, m);
    LastStart(w, m);
    StartedInv(w, m, Next(w, SendStart(m)));
  }

  /** The last complete: what the server does, unless a marked machine is gone. */
  lemma LastComplete(w: World, m: nat)
    requires Inv(w) && Enabled(w, SendComplete(m))
    requires w.server.update.Some? && |w.server.update.value.completes| + 1 == |w.server.streams|
    ensures var s, all, r := w.server, w.server.update.value.completes + [m], |w.members| - 1;
            Next(w, SendComplete(m)) ==
            if !(s.marked <= s.streams) then w.(aborted := true)
            else World(Server(s.streams - s.marked, s.stopped + s.marked, {}, None),
                       Released(w.clients[m := CompleteWait], all, Idle), w.members,
                       w.log + [Message(CompleteSent, r, m)] + Answers(CompleteAnswered, r, all), false)
  {
    CompleteSender(w, m);
    EveryoneReachable(w.server, w.server.update.value.completes, m);
  }

  lemma CompleteLastInv(w: World, m: nat)
    requires Inv(w) && Enabled(w, SendComplete(m))
    requires w.server.update.Some? && |w.server.update.value.completes| + 1 == |w.server.streams|
    requires w.server.marked <= w.server.streams
    ensures Inv(Next(w, SendComplete(m)))
  {
    CompleteSender(w, m);
    LastComplete(w, m);
    EveryoneReachable(w.server, w.server.update.value.completes, m);
    PhaseEnds(w.members, w.log, |w.members| - 1, w.server.update.value.completes, m, CompleteSent, CompleteAnswered);
  }

  lemma AbortKeepsInv(w: World)
    requires Inv(w)
    ensures Inv(w.(aborted := true))
  {
  }

  /** What ends the run: a stop request of a machine that is not registered, or the last complete of an
      update while a machine marked to stop is not among those registered. */
  ghost predicate Trips(w: World, step: Step)
  {
    var s := w.server;
    || (step.ControlStop? && step.m !in s.streams && step.m !in s.stopped)
    || (step.SendComplete? && s.update.Some? && |s.update.value.completes| + 1 == |s.streams| &&
        exists u :: u in s.marked && u !in s.streams)
  }

  lemma SendStep(w: World, step: Step)
    requires Inv(w) && Enabled(w, step) && (step.SendStart? || step.SendComplete?)
    ensures Inv(Next(w, step)) && (Next(w, step).aborted <==> Trips(w, step))
  {
    var s, m := w.server, step.m;
    if step.SendStart? {
      StartSender(w, m);
      if |s.update.value.starts| + 1 == |s.streams| { StartLastInv(w, m); } else { StartEarlyInv(w, m); }
    } else {
      CompleteSender(w, m);
      if |s.update.value.completes| + 1 != |s.streams| {
        CompleteEarlyInv(w, m);
      } else {
        LastComplete(w, m);
        if s.marked <= s.streams { CompleteLastInv(w, m); } else { AbortKeepsInv(w); }
      }
    }
  }

  lemma StepInv(w: World, step: Step)
    requires Inv(w) && Enabled(w, step)
    ensures Inv(Next(w, step)) && (Next(w, step).aborted <==> Trips(w, step))
  {
    if step.SendStart? || step.SendComplete? {
      SendStep(w, step);
    } else if step.IssueUpdate? {
      IssueInv(w);
    } else {
      BetweenUpdatesInv(w, step);
    }
  }

  lemma {:induction false} RunInv(steps: seq<Step>)
    ensures Inv(Run(steps))
  {
    if steps != [] {
      var w, step := Run(steps[..|steps| - 1]), steps[|steps| - 1];
      RunInv(steps[..|steps| - 1]);
      if Enabled(w, step) { StepInv(w, step); }
    }
  }

  /** In every run: the log is that of a two-phase barrier, update after update; and no machine is ever in
      both stream maps. */
  lemma UpdateIsTwoPhase(steps: seq<Step>)
    ensures Ordered(Run(steps).members, Run(steps).log)
    ensures Run(steps).server.streams !! Run(steps).server.stopped
  {
    RunInv(steps);
  }

  ghost predicate TripsAt(steps: seq<Step>, k: nat)
  {
    k < |steps| && Enabled(Run(steps[..k]), steps[k]) && Trips(Run(steps[..k]), steps[k])
  }

  lemma TripsAtPrefix(steps: seq<Step>, n: nat, k: nat)
    requires k < n <= |steps|
    ensures TripsAt(steps, k) <==> TripsAt(steps[..n], k)
  {
    assert steps[..n][..k] == steps[..k];
  }

  lemma TripsGrow(steps: seq<Step>)
    requires steps != []
    ensures var last := |steps| - 1;
            (exists k: nat :: TripsAt(steps, k)) <==>
            (exists k: nat :: TripsAt(steps[..last], k)) || TripsAt(steps, last)
  {
    var last := |steps| - 1;
    if k: nat :| TripsAt(steps[..last], k) { TripsAtPrefix(steps, last, k); }
    if k: nat :| TripsAt(steps, k) && k < last { TripsAtPrefix(steps, last, k); }
  }

  /** A run is ended by a check or a failed lookup exactly when one of its steps meets that condition on
      the server's own sets. */
  lemma {:induction false} AbortsExactly(steps: seq<Step>)
    ensures Run(steps).aborted <==> exists k: nat :: TripsAt(steps, k)
  {
    if steps != [] {
      var last := |steps| - 1;
      AbortsExactly(steps[..last]);
      TripsGrow(steps);
      RunInv(steps[..last]);
      if Enabled(Run(steps[..last]), steps[last]) { StepInv(Run(steps[..last]), steps[last]); }
    }
  }

  /** The step closes the window in which stop requests are collected. */
  ghost predicate ClosesWindow(w: World, step: Step)
  {
    && Enabled(w, step)
    && (step.CloseWindow? || (step.SendComplete? && Next(w, step).server.update.None?))
  }

  ghost predicate ClosesAt(steps: seq<Step>, j: nat)
  {
    j < |steps| && ClosesWindow(Run(steps[..j]), steps[j])
  }

  ghost predicate StopsAt(steps: seq<Step>, u: nat, i: nat)
  {
    i < |steps| && steps[i] == ControlStop(u) && Enabled(Run(steps[..i]), steps[i])
  }

  /** A stop request of `u` was processed at step `i`, in the window that is still open. */
  ghost predicate StopPending(steps: seq<Step>, u: nat, i: nat)
  {
    StopsAt(steps, u, i) && forall j :: i < j < |steps| ==> !ClosesAt(steps, j)
  }

  lemma AtPrefix(steps: seq<Step>, n: nat, u: nat, j: nat)
    requires j < n <= |steps|
    ensures ClosesAt(steps, j) <==> ClosesAt(steps[..n], j)
    ensures StopsAt(steps, u, j) <==> StopsAt(steps[..n], u, j)
  {
    assert steps[..n][..j] == steps[..j];
  }

  lemma StopPendingGrows(steps: seq<Step>, u: nat, i: nat)
    requires steps != [] && i < |steps| - 1
    ensures var last := |steps| - 1;
            StopPending(steps, u, i) <==> StopPending(steps[..last], u, i) && !ClosesAt(steps, last)
  {
    var last := |steps| - 1;
    forall j: nat | j < last
      ensures ClosesAt(steps, j) <==> ClosesAt(steps[..last], j)
      ensures StopsAt(steps, u, j) <==> StopsAt(steps[..last], u, j)
    {
      AtPrefix(steps, last, u, j);
    }
  }

  /** The step marks `u`, or leaves it as it was, or clears the marks. */
  lemma MarksAfter(w: World, step: Step, u: nat)
    requires Inv(w) && !Next(w, step).aborted
    ensures u in Next(w, step).server.marked <==>
            (Enabled(w, step) && step == ControlStop(u)) || (u in w.server.marked && !ClosesWindow(w, step))
  {
    if Enabled(w, step) {
      if step.SendComplete? {
        CompleteSender(w, step.m);
        if |w.server.update.value.completes| + 1 == |w.server.streams| { LastComplete(w, step.m); }
      } else if step.SendStart? {
        StartSender(w, step.m);
        if |w.server.update.value.starts| + 1 == |w.server.streams| { LastStart(w, step.m); }
      }
    }
  }

  lemma PendingGrows(steps: seq<Step>, u: nat)
    requires steps != []
    ensures var last := |steps| - 1;
            (exists i: nat :: StopPending(steps, u, i)) <==>
            StopsAt(steps, u, last) || ((exists i: nat :: StopPending(steps[..last], u, i)) && !ClosesAt(steps, last))
  {
    var last := |steps| - 1;
    if i: nat :| StopPending(steps, u, i) && i < last { StopPendingGrows(steps, u, i); }
    if StopsAt(steps, u, last) {
      assert StopPending(steps, u, last);
    } else if i: nat :| StopPending(steps[..last], u, i) {
      StopPendingGrows(steps, u, i);
      assert StopPending(steps, u, i) <==> !ClosesAt(steps, last);
    }
  }

  /** The marked machines are those that asked to stop in the window that is still open. */
  lemma {:induction false} MarkedExactly(steps: seq<Step>, u: nat)
    requires !Run(steps).aborted
    ensures u in Run(steps).server.marked <==> exists i: nat :: StopPending(steps, u, i)
  {
    if steps != [] {
      var last := |steps| - 1;
      RunInv(steps[..last]);
      MarkedExactly(steps[..last], u);
      MarksAfter(Run(steps[..last]), steps[last], u);
      PendingGrows(steps, u);
    }
  }

  /** Machine `u` has joined and not left since. */
  ghost predicate Registered(steps: seq<Step>, u: nat)
  {
    && steps != []
    && var before, step := steps[..|steps| - 1], steps[|steps| - 1];
       if Enabled(Run(before), step) && step == Join(u) then true
       else if Enabled(Run(before), step) && step == Leave(u) then false
       else Registered(before, u)
  }

  /** Machine `u` was marked when an update ended, and has not left since. */
  ghost predicate HasStopped(steps: seq<Step>, u: nat)
  {
    && steps != []
    && var before, step := steps[..|steps| - 1], steps[|steps| - 1];
       if Enabled(Run(before), step) && step == Leave(u) then false
       else HasStopped(before, u) ||
            (step.SendComplete? && ClosesWindow(Run(before), step) && u in Run(before).server.marked)
  }

  lemma StreamsAfter(w: World, step: Step, u: nat)
    requires Inv(w) && Enabled(w, step)
    ensures var s, s' := w.server, Next(w, step).server;
            var ends := step.SendComplete? && ClosesWindow(w, step);
            && (u in s'.streams + s'.stopped <==> step == Join(u) || (u in s.streams + s.stopped && step != Leave(u)))
            && (u in s'.stopped <==> step != Leave(u) && (u in s.stopped || (ends && u in s.marked)))
  {
    if step.SendComplete? {
      CompleteSender(w, step.m);
      if |w.server.update.value.completes| + 1 == |w.server.streams| { LastComplete(w, step.m); }
    } else if step.SendStart? {
      StartSender(w, step.m);
      if |w.server.update.value.starts| + 1 == |w.server.streams| { LastStart(w, step.m); }
    }
  }

  /** The server's two stream maps hold together the machines that have joined and not left, and the second
      those of them that were marked when an update ended. */
  lemma {:induction false} StreamsExactly(steps: seq<Step>, u: nat)
    ensures u in Run(steps).server.streams + Run(steps).server.stopped <==> Registered(steps, u)
    ensures u in Run(steps).server.stopped <==> HasStopped(steps, u)
  {
    if steps != [] {
      var before, step := steps[..|steps| - 1], steps[|steps| - 1];
      StreamsExactly(before, u);
      RunInv(before);
      if Enabled(Run(before), step) { StreamsAfter(Run(before), step, u); }
    }
  }

  /** An update issued to somebody cannot get stuck: some machine still has a message to send. */
  lemma UpdateProgresses(steps: seq<Step>)
    requires !Run(steps).aborted && Run(steps).server.update.Some? && Run(steps).server.streams != {}
    ensures exists m :: Enabled(Run(steps), SendStart(m)) || Enabled(Run(steps), SendComplete(m))
  {
    RunInv(steps);
    var w := Run(steps);
    var p, streams := w.server.update.value, w.server.streams;
    var who := if p.started then p.completes else p.starts;
    DistinctSize(who);
    assert Members(who) != streams;
    var m :| m in streams && m !in Members(who);
    assert Enabled(w, if p.started then SendComplete(m) else SendStart(m));
  }

  /** When the last complete arrives and every marked machine is registered, the update is over, and the
      marked machines, and only they, have moved to the other map; otherwise nothing moves. */
  lemma MarkedMachinesMove(steps: seq<Step>, m: nat)
    requires Enabled(Run(steps), SendComplete(m))
    ensures var s, s' := Run(steps).server, Next(Run(steps), SendComplete(m)).server;
            s.update.Some? &&
            if |s.update.value.completes| + 1 == |s.streams| && s.marked <= s.streams
            then s'.streams == s.streams - s.marked && s'.stopped == s.stopped + s.marked && s'.update.None?
            else s'.streams == s.streams && s'.stopped == s.stopped && s'.update.Some?
  {
    RunInv(steps);
    CompleteSender(Run(steps), m);
    if |Run(steps).server.update.value.completes| + 1 == |Run(steps).server.streams| {
      LastComplete(Run(steps), m);
    }
  }

  lemma RunNext(steps: seq<Step>, step: Step)
    ensures Run(steps + [step]) == Next(Run(steps), step)
  {
    assert (steps + [step])[..|steps|] == steps;
  }

  lemma LeftMarked()
    ensures Run([Join(0), Join(1), ControlStop(0), Leave(0)]) ==
            World(Server({1}, {}, {0}, None), map[0 := Idle, 1 := Idle], [], [], false)
  {
    var two := [Join(0)] + [Join(1)];
    var marked := two + [ControlStop(0)];
    assert marked + [Leave(0)] == [Join(0), Join(1), ControlStop(0), Leave(0)] && [Join(0)] == [] + [Join(0)];
    RunNext([], Join(0));
    RunNext([Join(0)], Join(1));
    RunNext(two, ControlStop(0));
    RunNext(marked, Leave(0));
    assert Run(two).server == Server({0, 1}, {}, {}, None) && Run(two).clients == map[0 := Idle, 1 := Idle];
  }

  /** Machine 1 alone takes part in the update. */
  lemma LastCompleteOfOne(w: World)
    requires w.server.streams == {1} && w.server.stopped == {} && w.server.update.None? && !w.aborted && 1 in w.clients
    ensures var started := Next(Next(w, IssueUpdate), SendStart(1));
            && Enabled(started, SendComplete(1))
            && (Next(started, SendComplete(1)).aborted <==> !(w.server.marked <= {1}))
  {
    var issued := Next(w, IssueUpdate);
    var started := Next(issued, SendStart(1));
    var s := w.server.(update := Some(Pending([], [], false)));
    assert issued.server == s && issued.clients[1] == Notified && |issued.members| > 0;
    assert [] + [1] == [1] && |s.streams| == 1;
    assert Reachable(s, [1]) && OnStart(s, 1) == Some((s.(update := Some(Pending([], [], true))), [1]));
    assert started.server == s.(update := Some(Pending([], [], true))) && started.clients[1] == Started;
    assert Reachable(started.server, [1]);
  }

  /** Machine 0 asks to stop and leaves before the update it asked for is issued: the update's last
      complete looks for it in vain. */
  lemma MarkedMachineLeaves()
    ensures var left := [Join(0), Join(1), ControlStop(0), Leave(0)];
            Run(left + [IssueUpdate] + [SendStart(1)] + [SendComplete(1)]).aborted
  {
    var left := [Join(0), Join(1), ControlStop(0), Leave(0)];
    LeftMarked();
    LastCompleteOfOne(Run(left));
    RunNext(left, IssueUpdate);
    RunNext(left + [IssueUpdate], SendStart(1));
    RunNext(left + [IssueUpdate] + [SendStart(1)], SendComplete(1));
  }
}
