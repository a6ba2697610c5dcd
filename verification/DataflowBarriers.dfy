/** A node's instances meet three times in one barrier. Their phases say how often each has entered and
    left it, and every step they take is a step the rendezvous allows. */
module DataflowBarriers {
  import opened Dataflow
  import opened DataflowSafety
  import ThreadBarrier

  function Entered(p: Phase): nat
  {
    if p.Ord() < AtStart.Ord() then 0 else if p.Ord() < AtShutdown.Ord() then 1
    else if p.Ord() < AtFinish.Ord() then 2 else 3
  }

  function LeftCount(p: Phase): nat
  {
    if p.Ord() < Subscribed.Ord() then 0 else if p.Ord() < Critical.Ord() then 1
    else if p.Ord() < Finished.Ord() then 2 else 3
  }

  ghost function Meeting<V>(n: Node<V>): ThreadBarrier.Rendezvous
  {
    ThreadBarrier.Rendezvous(
      seq(|n.insts|, k requires 0 <= k < |n.insts| => Entered(n.insts[k].phase)),
      seq(|n.insts|, k requires 0 <= k < |n.insts| => LeftCount(n.insts[k].phase)))
  }

  /** An instance waiting in the barrier may go on in the graph exactly when the rendezvous lets it. */
  lemma LeavesWithRendezvous<V>(spec: Spec<V>, n: Node<V>, k: nat, act: Action<V>)
    requires k < |n.insts|
    requires var p := n.insts[k].phase;
             || (p.AtStart? && act.LeaveStart?)
             || (p.AtShutdown? && act.LeaveShutdown?)
             || (p.AtFinish? && act.LeaveFinish?)
    ensures Ready(spec, n, k, act) <==> ThreadBarrier.MayLeave(Meeting(n), k)
  {
    var r := Meeting(n);
    assert forall u :: 0 <= u < |n.insts| ==> r.entered[u] == Entered(n.insts[u].phase);
    if ThreadBarrier.MayLeave(r, k) {
      forall u | 0 <= u < |n.insts| ensures n.insts[u].phase.Ord() >= n.insts[k].phase.Ord() {
        assert r.left[k] < r.entered[u];
      }
    }
  }

  lemma MeetingAfter<V>(n: Node<V>, n': Node<V>, k: nat, t: Inst<V>)
    requires k < |n.insts| && n'.insts == n.insts[k := t]
    ensures var r := Meeting(n);
            Meeting(n') == r.(entered := r.entered[k := Entered(t.phase)], left := r.left[k := LeftCount(t.phase)])
  {
  }

  lemma LeaveSteps<V>(spec: Spec<V>, n: Node<V>, k: nat, act: Action<V>)
    requires Ready(spec, n, k, act) && (act.LeaveStart? || act.LeaveShutdown? || act.LeaveFinish?)
    ensures ThreadBarrier.AbstractStep(Meeting(n), Meeting(Pass(n, k, act)))
  {
    var r, t := Meeting(n), Pass(n, k, act).insts[k];
    LeavesWithRendezvous(spec, n, k, act);
    MeetingAfter(n, Pass(n, k, act), k, t);
    assert Meeting(Pass(n, k, act)) == r.(left := r.left[k := r.left[k] + 1]);
  }

  lemma EnterSteps<V>(n: Node<V>, n': Node<V>, k: nat, t: Inst<V>)
    requires k < |n.insts| && n'.insts == n.insts[k := t]
    requires Entered(t.phase) == Entered(n.insts[k].phase) + 1
    requires LeftCount(t.phase) == LeftCount(n.insts[k].phase) == Entered(n.insts[k].phase)
    ensures ThreadBarrier.AbstractStep(Meeting(n), Meeting(n'))
  {
    var r := Meeting(n);
    MeetingAfter(n, n', k, t);
    assert Meeting(n') == r.(entered := r.entered[k := r.entered[k] + 1]);
  }

  lemma OtherSteps<V>(n: Node<V>, n': Node<V>, k: nat, t: Inst<V>)
    requires k < |n.insts| && n'.insts == n.insts[k := t]
    requires Entered(t.phase) == Entered(n.insts[k].phase) && LeftCount(t.phase) == LeftCount(n.insts[k].phase)
    ensures Meeting(n') == Meeting(n)
  {
    MeetingAfter(n, n', k, t);
  }

  /** Every step of a node is a step of the rendezvous: entering, leaving when all have entered, or
      neither. */
  lemma StepsWithRendezvous<V>(spec: Spec<V>, n: Node<V>, k: nat, act: Action<V>)
    requires Ready(spec, n, k, act)
    ensures ThreadBarrier.AbstractStep(Meeting(n), Meeting(Own(n, k, act)))
  {
    var n' := Own(n, k, act);
    if act.LeaveStart? || act.LeaveShutdown? || act.LeaveFinish? {
      LeaveSteps(spec, n, k, act);
    } else if act.Arrive? || act.Return? || act.RunSection? {
      EnterSteps(n, n', k, n'.insts[k]);
    } else {
      OtherSteps(n, n', k, n'.insts[k]);
    }
  }
}
