/** The sense-reversing cyclic barrier shared by the instances of one runnable.

    `Barrier` is the object with its three fields. `System` puts `initial` threads around it and
    interleaves the atomic pieces of `wait` arbitrarily: the locked prefix, the notification that
    the last arriver sends after unlocking, spurious wake-ups, and the re-check of the predicate
    that every woken thread makes under the lock. A run is any sequence of steps; a step that is
    not enabled leaves the state alone, so every interleaving is covered. */
module ThreadBarrier {
  import opened Finite

  /** The fields the lock protects. */
  datatype Fields = Fields(initial: nat, current: nat, cycle: bool)

  /** The locked prefix of `wait`; the flag says whether the caller was the last to arrive. */
  function Arrive(f: Fields): (r: (Fields, bool))
    requires f.current > 0
  {
    if f.current == 1
    then (Fields(f.initial, f.initial, !f.cycle), true)
    else (f.(current := f.current - 1), false)
  }

  class Barrier {
    const initial: nat
    var current: nat
    var cycle: bool

    ghost function View(): Fields
      reads this
    {
      Fields(initial, current, cycle)
    }

    constructor (initial: nat)
      requires initial != 0
      ensures View() == Fields(initial, initial, true)
    {
      this.initial, current, cycle := initial, initial, true;
    }

    /** Everything `wait` does before it either returns true or blocks on `seen`. */
    method EnterWait() returns (seen: bool, last: bool)
      requires current > 0
      modifies this
      ensures seen == old(cycle)
      ensures (View(), last) == Arrive(old(View()))
      ensures last <==> cycle != seen
    {
      seen := cycle;
      current := current - 1;
      last := current == 0;
      if last {
        cycle := !cycle;
        current := initial;
      }
    }
  }

  // ---------------------------------------------------------------------------------------
  // The threads around the barrier

  /** Where a thread is: outside `wait`, asleep on the condition variable with the cycle it saw on
      entry, woken but not yet holding the lock, or past the flip and about to notify. */
  datatype Thread = Idle | Sleeping(cycle: bool) | Woken(cycle: bool) | Notifying

  /** `entered` and `results` are history: how often each thread called `wait`, and what the calls
      that returned gave back. `winners` lists the thread that flipped the cycle, once per flip. */
  datatype System = System(
    fields: Fields,
    threads: seq<Thread>,
    entered: seq<nat>,
    results: seq<seq<bool>>,
    winners: seq<nat>)

  datatype Step = Enter(t: nat) | Notify(t: nat) | SpuriousWake(t: nat) | Recheck(t: nat)

  function Init(n: nat): System
  {
    System(Fields(n, n, true), seq(n, _ => Idle), seq(n, _ => 0), seq(n, _ => []), [])
  }

  ghost predicate Shaped(s: System)
  {
    |s.threads| == |s.entered| == |s.results| == s.fields.initial
  }

  ghost predicate Enabled(s: System, step: Step)
    requires Shaped(s)
  {
    step.t < |s.threads| &&
    match step
    case Enter(t) => s.threads[t].Idle? && s.fields.current > 0
    case Notify(t) => s.threads[t].Notifying?
    case SpuriousWake(t) => s.threads[t].Sleeping?
    case Recheck(t) => s.threads[t].Woken?
  }

  function WakeAll(threads: seq<Thread>): seq<Thread>
  {
    seq(|threads|, i requires 0 <= i < |threads| =>
      if threads[i].Sleeping? then Woken(threads[i].cycle) else threads[i])
  }

  function Return(s: System, t: nat, value: bool): System
    requires t < |s.threads| == |s.results|
  {
    s.(threads := s.threads[t := Idle], results := s.results[t := s.results[t] + [value]])
  }

  ghost function Next(s: System, step: Step): (s': System)
    requires Shaped(s)
    ensures Shaped(s') && s'.fields.initial == s.fields.initial
  {
    if !Enabled(s, step) then s else
    match step
    case Enter(t) =>
      var (f, last) := Arrive(s.fields);
      var s' := s.(fields := f, entered := s.entered[t := s.entered[t] + 1]);
      if last
      then s'.(threads := s.threads[t := Notifying], winners := s.winners + [t])
      else s'.(threads := s.threads[t := Sleeping(s.fields.cycle)])
    case Notify(t) => Return(s.(threads := WakeAll(s.threads)), t, true)
    case SpuriousWake(t) => s.(threads := s.threads[t := Woken(s.threads[t].cycle)])
    case Recheck(t) =>
      if s.threads[t].cycle != s.fields.cycle
      then Return(s, t, false)
      else s.(threads := s.threads[t := Sleeping(s.threads[t].cycle)])
  }

  ghost function Run(n: nat, steps: seq<Step>): (s: System)
    ensures Shaped(s) && s.fields.initial == n
  {
    if steps == [] then Init(n) else Next(Run(n, steps[..|steps| - 1]), steps[|steps| - 1])
  }

  // ---------------------------------------------------------------------------------------
  // The invariant. `G` below is |s.winners|, the number of completed generations.

  ghost function ArrivedNow(s: System): set<nat>
    requires Shaped(s)
  {
    set t | 0 <= t < |s.entered| && s.entered[t] == |s.winners| + 1
  }

  predicate Phase(g: int) { g % 2 == 0 }

  /** What holds of one thread. A thread inside `wait` belongs to generation `entered - 1`, which is
      the current one or the one just completed: the single cycle bit tells the two apart. */
  ghost predicate ThreadInv(s: System, t: nat)
    requires Shaped(s) && t < |s.threads|
  {
    var g := |s.winners|;
    var thread := s.threads[t];
    && g <= s.entered[t] <= g + 1
    && |s.results[t]| <= g
    && |s.results[t]| + (if thread.Idle? then 0 else 1) == s.entered[t]
    && (thread.Sleeping? || thread.Woken? ==> thread.cycle == Phase(s.entered[t] - 1))
    && (thread.Notifying? ==> s.entered[t] == g && s.winners[g - 1] == t)
    && (!thread.Idle? && s.entered[t] == g && s.winners[g - 1] == t ==> thread.Notifying?)
    && (thread.Sleeping? && s.entered[t] == g ==>
          s.winners[g - 1] < |s.threads| && s.threads[s.winners[g - 1]].Notifying?)
    && (forall h :: 0 <= h < |s.results[t]| ==> (s.results[t][h] <==> s.winners[h] == t))
  }

  ghost predicate Inv(s: System)
  {
    && Shaped(s)
    && 0 < s.fields.current <= s.fields.initial
    && s.fields.cycle == Phase(|s.winners|)
    && |ArrivedNow(s)| == s.fields.initial - s.fields.current
    && (forall h :: 0 <= h < |s.winners| ==> s.winners[h] < s.fields.initial)
    && (forall t :: 0 <= t < |s.threads| ==> ThreadInv(s, t))
  }

  lemma InitInv(n: nat)
    requires n > 0
    ensures Inv(Init(n))
  {
    assert ArrivedNow(Init(n)) == {};
  }

  /** The last arriver completes the generation. */
  lemma EnterLastInv(s: System, t: nat)
    requires Inv(s) && Enabled(s, Enter(t)) && s.fields.current == 1
    ensures Inv(Next(s, Enter(t)))
  {
    var s' := Next(s, Enter(t));
    assert ThreadInv(s, t);
    assert t !in ArrivedNow(s);
    FullSet(ArrivedNow(s) + {t}, s.fields.initial);
    forall u | 0 <= u < |s.threads| ensures ThreadInv(s', u) {
      assert u in ArrivedNow(s) + {t};
      assert ThreadInv(s, u);
      assert s'.winners[..|s.winners|] == s.winners;
    }
    assert ArrivedNow(s') == {};
  }

  lemma EnterEarlyInv(s: System, t: nat)
    requires Inv(s) && Enabled(s, Enter(t)) && s.fields.current > 1
    ensures Inv(Next(s, Enter(t)))
  {
    var s' := Next(s, Enter(t));
    assert ThreadInv(s, t);
    assert t !in ArrivedNow(s) && ArrivedNow(s') == ArrivedNow(s) + {t};
    forall u | 0 <= u < |s.threads| ensures ThreadInv(s', u) {
      assert ThreadInv(s, u);
    }
  }

  lemma NotifyInv(s: System, t: nat)
    requires Inv(s) && Enabled(s, Notify(t))
    ensures Inv(Next(s, Notify(t)))
  {
    var s' := Next(s, Notify(t));
    assert ArrivedNow(s') == ArrivedNow(s);
    assert ThreadInv(s, t);
    forall u | 0 <= u < |s.threads| ensures ThreadInv(s', u) {
      assert ThreadInv(s, u);
    }
  }

  lemma WakeInv(s: System, t: nat)
    requires Inv(s) && Enabled(s, SpuriousWake(t))
    ensures Inv(Next(s, SpuriousWake(t)))
  {
    var s' := Next(s, SpuriousWake(t));
    assert ArrivedNow(s') == ArrivedNow(s);
    forall u | 0 <= u < |s.threads| ensures ThreadInv(s', u) {
      assert ThreadInv(s, u);
    }
  }

  lemma RecheckInv(s: System, t: nat)
    requires Inv(s) && Enabled(s, Recheck(t))
    ensures Inv(Next(s, Recheck(t)))
  {
    var s' := Next(s, Recheck(t));
    assert ArrivedNow(s') == ArrivedNow(s);
    assert ThreadInv(s, t);
    forall u | 0 <= u < |s.threads| ensures ThreadInv(s', u) {
      assert ThreadInv(s, u);
    }
  }

  lemma {:induction false} RunInv(n: nat, steps: seq<Step>)
    requires n > 0
    ensures Inv(Run(n, steps))
  {
    if steps == [] {
      InitInv(n);
    } else {
      var before, step := Run(n, steps[..|steps| - 1]), steps[|steps| - 1];
      RunInv(n, steps[..|steps| - 1]);
      if Enabled(before, step) {
        if step.Notify? {
          NotifyInv(before, step.t);
        } else if step.SpuriousWake? {
          WakeInv(before, step.t);
        } else if step.Recheck? {
          RecheckInv(before, step.t);
        } else if before.fields.current == 1 {
          EnterLastInv(before, step.t);
        } else {
          EnterEarlyInv(before, step.t);
        }
      }
    }
  }

  // ---------------------------------------------------------------------------------------
  // What the barrier promises

  /** Thread `t` has entered generation `g`. */
  ghost predicate In(s: System, t: nat, g: nat)
  {
    t < |s.entered| && g < s.entered[t]
  }

  /** Thread `t` is back from generation `g`. */
  ghost predicate Back(s: System, t: nat, g: nat)
  {
    t < |s.results| && g < |s.results[t]|
  }

  /** Thread `t` is back from generation `g`, and its call returned true. */
  ghost predicate Won(s: System, t: nat, g: nat)
  {
    Back(s, t, g) && s.results[t][g]
  }

  ghost predicate AllBack(s: System, g: nat)
  {
    forall t :: 0 <= t < |s.threads| ==> Back(s, t, g)
  }

  ghost predicate AllIn(s: System, g: nat)
  {
    forall t :: 0 <= t < |s.threads| ==> In(s, t, g)
  }

  /** No thread is back from a generation before every thread has entered it. */
  ghost predicate NoEarlyReturn(s: System)
  {
    forall t, g :: Back(s, t, g) ==> AllIn(s, g)
  }

  /** In every generation at most one call returns true, and once all have returned, one has. */
  ghost predicate OneWinner(s: System)
  {
    && (forall t, u, g :: Won(s, t, g) && Won(s, u, g) ==> t == u)
    && (forall g :: AllBack(s, g) ==> exists t :: Won(s, t, g))
  }

  /** A blocked thread whose generation is over is never stranded: it is awake, or the thread that
      completed the generation has yet to notify. */
  ghost predicate NoLostWakeup(s: System)
    requires Shaped(s)
  {
    forall t :: 0 <= t < |s.threads| && s.threads[t].Sleeping? && s.threads[t].cycle != s.fields.cycle ==>
      exists u :: 0 <= u < |s.threads| && s.threads[u].Notifying?
  }

  /** One bit is enough: no two threads are ever two generations apart, and the bit a waiting thread
      remembers differs from the barrier's exactly when every thread has entered its generation. */
  ghost predicate OneBitSuffices(s: System)
    requires Shaped(s)
  {
    && (forall t, u :: 0 <= t < |s.threads| && 0 <= u < |s.threads| ==> s.entered[t] <= s.entered[u] + 1)
    && (forall t :: 0 <= t < |s.threads| && (s.threads[t].Sleeping? || s.threads[t].Woken?) ==>
          s.entered[t] > 0 && (s.threads[t].cycle != s.fields.cycle <==> AllIn(s, s.entered[t] - 1)))
  }

  lemma ReturnsAreCollective(s: System)
    requires Inv(s)
    ensures NoEarlyReturn(s)
    ensures OneWinner(s)
  {
    forall t, g | Back(s, t, g) ensures AllIn(s, g) {
      assert ThreadInv(s, t);
      forall u | 0 <= u < |s.threads| ensures In(s, u, g) { assert ThreadInv(s, u); }
    }
    forall t, u, g | Won(s, t, g) && Won(s, u, g) ensures t == u {
      assert ThreadInv(s, t) && ThreadInv(s, u);
    }
    forall g: nat | AllBack(s, g) ensures exists t :: Won(s, t, g) {
      assert Back(s, 0, g) && ThreadInv(s, 0);
      var w := s.winners[g];
      assert Back(s, w, g) && ThreadInv(s, w);
      assert Won(s, w, g);
    }
  }

  /** While a generation is open some thread has not arrived in it. */
  lemma NotAllArrived(s: System)
    requires Inv(s)
    ensures !AllIn(s, |s.winners|)
  {
    assert AllIn(s, |s.winners|) ==> ArrivedNow(s) == Below(|s.threads|) by {
      forall t | t in Below(|s.threads|) && In(s, t, |s.winners|) ensures t in ArrivedNow(s) {
        assert ThreadInv(s, t);
      }
    }
  }

  lemma WaitersAreReleased(s: System)
    requires Inv(s)
    ensures OneBitSuffices(s)
    ensures NoLostWakeup(s)
  {
    var g := |s.winners|;
    NotAllArrived(s);
    forall t, u | 0 <= t < |s.threads| && 0 <= u < |s.threads| ensures s.entered[t] <= s.entered[u] + 1 {
      assert ThreadInv(s, t) && ThreadInv(s, u);
    }
    forall t | 0 <= t < |s.threads| && (s.threads[t].Sleeping? || s.threads[t].Woken?)
      ensures s.entered[t] > 0 && (s.threads[t].cycle != s.fields.cycle <==> AllIn(s, s.entered[t] - 1))
    {
      assert ThreadInv(s, t);
      if s.entered[t] == g {
        var h := g - 1;
        forall u | 0 <= u < |s.threads| ensures In(s, u, h) { assert ThreadInv(s, u); }
      }
    }
    forall t | 0 <= t < |s.threads| && s.threads[t].Sleeping? && s.threads[t].cycle != s.fields.cycle
      ensures exists u :: 0 <= u < |s.threads| && s.threads[u].Notifying?
    {
      assert ThreadInv(s, t);
    }
  }

  /** In every interleaving of the threads' calls, however often the barrier is reused. */
  lemma BarrierCorrect(n: nat, steps: seq<Step>)
    requires n > 0
    ensures NoEarlyReturn(Run(n, steps))
    ensures OneWinner(Run(n, steps))
    ensures OneBitSuffices(Run(n, steps))
    ensures NoLostWakeup(Run(n, steps))
  {
    RunInv(n, steps);
    ReturnsAreCollective(Run(n, steps));
    WaitersAreReleased(Run(n, steps));
  }

  /** What becomes of a woken thread that looks at the cycle again. */
  lemma RecheckExactly(s: System, t: nat)
    requires Inv(s) && Enabled(s, Recheck(t))
    ensures s.entered[t] > 0
    ensures var s' := Next(s, Recheck(t));
            if AllIn(s, s.entered[t] - 1)
            then s'.threads[t].Idle? && s'.results[t] == s.results[t] + [false]
            else s' == s.(threads := s.threads[t := Sleeping(s.threads[t].cycle)])
  {
    WaitersAreReleased(s);
  }

  /** A wake-up with no reason wakes a sleeping thread at any time; it returns from its round exactly when every
      thread has entered that, and otherwise is asleep again with nothing changed. */
  lemma SpuriousWakeups(n: nat, steps: seq<Step>, t: nat)
    requires n > 0 && t < n && Run(n, steps).threads[t].Sleeping?
    ensures var s := Run(n, steps);
            var woken := Next(s, SpuriousWake(t));
            && s.entered[t] > 0
            && woken == s.(threads := s.threads[t := Woken(s.threads[t].cycle)])
            && var after := Next(woken, Recheck(t));
               if AllIn(s, s.entered[t] - 1)
               then after.threads[t].Idle? && after.results[t] == s.results[t] + [false]
               else after == s
  {
    var s := Run(n, steps);
    RunInv(n, steps);
    assert Enabled(s, SpuriousWake(t));
    WakeInv(s, t);
    RecheckExactly(Next(s, SpuriousWake(t)), t);
    assert s.threads[t := Woken(s.threads[t].cycle)][t := s.threads[t]] == s.threads;
    assert forall g: nat :: AllIn(Next(s, SpuriousWake(t)), g) <==> AllIn(s, g) by {
      assert forall u: nat, g: nat :: In(Next(s, SpuriousWake(t)), u, g) <==> In(s, u, g);
    }
  }

  // ---------------------------------------------------------------------------------------
  // The abstract barrier: what users of the barrier rely on

  /** How often each participant has entered and left. */
  datatype Rendezvous = Rendezvous(entered: seq<nat>, left: seq<nat>)

  ghost predicate MayLeave(r: Rendezvous, t: nat)
  {
    && t < |r.entered| == |r.left|
    && r.left[t] < r.entered[t]
    && forall u :: 0 <= u < |r.entered| ==> r.left[t] < r.entered[u]
  }

  ghost predicate AbstractStep(r: Rendezvous, r': Rendezvous)
  {
    || r' == r
    || (exists t :: 0 <= t < |r.entered| == |r.left| && r.left[t] == r.entered[t] &&
                    r' == r.(entered := r.entered[t := r.entered[t] + 1]))
    || (exists t: nat :: MayLeave(r, t) && r' == r.(left := r.left[t := r.left[t] + 1]))
  }

  ghost function Abstract(s: System): Rendezvous
  {
    Rendezvous(s.entered, seq(|s.results|, i requires 0 <= i < |s.results| => |s.results[i]|))
  }

  lemma LeavingIsAllowed(s: System, step: Step)
    requires Inv(s) && Enabled(s, step) && !step.Enter?
    requires Next(s, step).results != s.results
    ensures MayLeave(Abstract(s), step.t)
  {
    var t, r := step.t, Abstract(s);
    WaitersAreReleased(s);
    assert ThreadInv(s, t) && r.left[t] == s.entered[t] - 1;
    assert s.threads[t].Notifying? || AllIn(s, s.entered[t] - 1);
    forall u | 0 <= u < |r.entered| ensures r.left[t] < r.entered[u] {
      assert ThreadInv(s, u);
      assert step.Recheck? ==> In(s, u, s.entered[t] - 1);
    }
  }

  lemma EnterAbstract(s: System, t: nat)
    requires Inv(s) && Enabled(s, Enter(t))
    ensures AbstractStep(Abstract(s), Abstract(Next(s, Enter(t))))
  {
    var r := Abstract(s);
    assert ThreadInv(s, t);
    assert Abstract(Next(s, Enter(t))) == r.(entered := r.entered[t := r.entered[t] + 1]);
  }

  lemma ReturnAbstract(s: System, s': System, t: nat, value: bool)
    requires t < |s.results| && s'.entered == s.entered && s'.results == s.results[t := s.results[t] + [value]]
    ensures var r := Abstract(s); Abstract(s') == r.(left := r.left[t := r.left[t] + 1])
  {
  }

  lemma LeaveAbstract(s: System, step: Step)
    requires Inv(s) && Enabled(s, step) && !step.Enter? && Next(s, step).results != s.results
    ensures AbstractStep(Abstract(s), Abstract(Next(s, step)))
  {
    LeavingIsAllowed(s, step);
    ReturnAbstract(s, Next(s, step), step.t, step.Notify?);
  }

  lemma StayAbstract(s: System, step: Step)
    requires Shaped(s) && !step.Enter? && Next(s, step).results == s.results
    ensures Abstract(Next(s, step)) == Abstract(s)
  {
  }

  /** The one-bit barrier implements the rendezvous in which a participant may leave its round
      exactly when all have entered it. */
  lemma RefinesRendezvous(n: nat, steps: seq<Step>, step: Step)
    requires n > 0
    ensures AbstractStep(Abstract(Run(n, steps)), Abstract(Next(Run(n, steps), step)))
  {
    RunInv(n, steps);
    if !Enabled(Run(n, steps), step) {
    } else if step.Enter? {
      EnterAbstract(Run(n, steps), step.t);
    } else if Next(Run(n, steps), step).results == Run(n, steps).results {
      StayAbstract(Run(n, steps), step);
    } else {
      LeaveAbstract(Run(n, steps), step);
    }
  }

  /** A thread still inside a round that everyone has entered belongs to the round just completed. */
  lemma LateInCompletedRound(s: System, t: nat, g: nat)
    requires Inv(s) && In(s, t, g) && !Back(s, t, g) && AllIn(s, g)
    ensures !s.threads[t].Idle? && s.entered[t] == |s.winners| == g + 1
  {
    assert ThreadInv(s, t);
    NotAllArrived(s);
    if s.entered[t] == |s.winners| + 1 {
      forall u | 0 <= u < |s.threads| ensures In(s, u, |s.winners|) { assert In(s, u, g); }
    }
  }

  ghost predicate CanReturn(s: System, step: Step)
    requires Shaped(s)
  {
    Enabled(s, step) && !step.Enter? && !step.SpuriousWake? && Next(s, step).results != s.results
  }

  lemma NextReturn(s: System, t: nat, g: nat) returns (step: Step)
    requires Inv(s) && In(s, t, g) && !Back(s, t, g) && AllIn(s, g)
    ensures CanReturn(s, step)
  {
    LateInCompletedRound(s, t, g);
    assert ThreadInv(s, t);
    var u := if s.threads[t].Sleeping? then s.winners[|s.winners| - 1] else t;
    step := if s.threads[u].Notifying? then Notify(u) else Recheck(u);
    assert |Next(s, step).results[u]| == |s.results[u]| + 1;
  }

  /** No thread is stuck: when every thread has entered the same round and some have not left it, a
      notification, or the return of a woken thread, is possible. */
  lemma RoundCompletes(n: nat, steps: seq<Step>, t: nat, g: nat)
    requires n > 0
    requires In(Run(n, steps), t, g) && !Back(Run(n, steps), t, g) && AllIn(Run(n, steps), g)
    ensures exists step :: CanReturn(Run(n, steps), step)
  {
    RunInv(n, steps);
    var step := NextReturn(Run(n, steps), t, g);
  }
}
