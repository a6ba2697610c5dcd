/** What every step of the running graph keeps. */
module DataflowSafety {
  import opened Dataflow
  import opened Options

  // ---------------------------------------------------------------------------------------
  // The invariant

  /** The three barriers: no instance is past one that another has not reached. */
  predicate BarrierOrder(p: Phase, q: Phase)
  {
    && (p.Ord() >= Subscribed.Ord() ==> q.Ord() >= AtStart.Ord())
    && (p.Ord() >= Critical.Ord() ==> q.Ord() >= AtShutdown.Ord())
    && (p.Ord() >= Finished.Ord() ==> q.Ord() >= AtFinish.Ord())
  }

  ghost predicate BarrierInv<V>(n: Node<V>)
  {
    forall a, b :: 0 <= a < |n.insts| && 0 <= b < |n.insts| ==> BarrierOrder(n.insts[a].phase, n.insts[b].phase)
  }

  ghost predicate InstInv<V>(spec: Spec<V>, n: Node<V>, t: Inst<V>)
  {
    && (t.outbox != [] ==> t.phase.Ord() <= Completing.Ord() && spec.down.Some?)
    && (!spec.source && t.phase.Ord() >= Completing.Ord() ==> n.closed && n.buf == [])
  }

  ghost predicate ChannelInv<V>(spec: Spec<V>, n: Node<V>)
  {
    && n.accepted == n.taken + n.buf
    && (if spec.source then n.accepted == [] else |n.buf| <= spec.capacity && (n.closed <==> n.refs == 0))
    && n.lost == []
    && !n.thrown
  }

  ghost predicate NodeInv<V>(spec: Spec<V>, n: Node<V>)
  {
    && |n.insts| == |spec.items| > 0
    && BarrierInv(n)
    && (forall k :: 0 <= k < |n.insts| ==> InstInv(spec, n, n.insts[k]))
    && ChannelInv(spec, n)
    && (n.held <==> spec.down.Some? && n.insts[0].phase.Ord() < AtFinish.Ord())
  }

  ghost predicate RefInv<V>(g: Graph<V>, s: State<V>)
    requires |s| == |g|
  {
    forall j :: 0 <= j < |g| ==> s[j].refs == |Holders(g, s, j)|
  }

  ghost predicate Inv<V>(g: Graph<V>, s: State<V>)
  {
    && |s| == |g|
    && RefInv(g, s)
    && forall i :: 0 <= i < |g| ==> NodeInv(g[i], s[i])
  }

  lemma InitInv<V>(g: Graph<V>)
    requires WellFormed(g)
    ensures Inv(g, Init(g))
  {
    var s := Init(g);
    forall i | 0 <= i < |g| ensures NodeInv(g[i], s[i]) && s[i].refs == |Holders(g, s, i)| {
      assert WellFormedNode(g, i);
      var ups := set u | 0 <= u < |g| && Upstream(g, u, i);
      assert Holders(g, s, i) == ups;
      if !g[i].source {
        var u: nat :| Upstream(g, u, i);
        assert u in ups;
      }
    }
  }

  /** Whoever holds an ingress finds its channel open. */
  lemma HolderFindsOpen<V>(g: Graph<V>, s: State<V>, i: nat)
    requires WellFormed(g) && Inv(g, s) && i < |g| && s[i].held
    ensures g[i].down.Some? && g[i].down.value < |g|
    ensures !s[g[i].down.value].closed && s[g[i].down.value].refs > 0
  {
    assert WellFormedNode(g, i) && NodeInv(g[i], s[i]);
    var j := g[i].down.value;
    assert i in Holders(g, s, j);
    assert NodeInv(g[j], s[j]);
  }

  /** An instance with something to write belongs to a node that still holds its ingress. */
  lemma WriterHolds<V>(spec: Spec<V>, n: Node<V>, k: nat)
    requires NodeInv(spec, n) && k < |n.insts| && n.insts[k].outbox != []
    ensures n.held
  {
    assert InstInv(spec, n, n.insts[k]);
    assert BarrierOrder(n.insts[0].phase, n.insts[k].phase);
  }

  // ---------------------------------------------------------------------------------------
  // Preservation

  /** Replacing one node by another that agrees on the edge it holds and on its reference count. */
  lemma ReplaceKeepsInv<V>(g: Graph<V>, s: State<V>, i: nat, n: Node<V>)
    requires Inv(g, s) && i < |g| && NodeInv(g[i], n)
    requires n.held == s[i].held && n.refs == s[i].refs
    ensures Inv(g, s[i := n])
  {
    var s' := s[i := n];
    forall j | 0 <= j < |g| ensures s'[j].refs == |Holders(g, s', j)| && NodeInv(g[j], s'[j]) {
      assert Holders(g, s', j) == Holders(g, s, j);
    }
  }

  /** `t` may stand beside the instances of `n` without any barrier having been jumped. */
  ghost predicate Fits<V>(n: Node<V>, t: Inst<V>)
  {
    && BarrierOrder(t.phase, t.phase)
    && forall a :: 0 <= a < |n.insts| ==>
         BarrierOrder(n.insts[a].phase, t.phase) && BarrierOrder(t.phase, n.insts[a].phase)
  }

  /** Replacing one instance, nothing else of the node's channel or edge changing. */
  lemma SwapInst<V>(spec: Spec<V>, n: Node<V>, k: nat, t: Inst<V>, log: seq<Event>)
    requires NodeInv(spec, n) && k < |n.insts| && InstInv(spec, n, t) && Fits(n, t)
    requires k == 0 ==> (t.phase.Ord() < AtFinish.Ord() <==> n.insts[0].phase.Ord() < AtFinish.Ord())
    ensures NodeInv(spec, SetInst(n, k, t).(log := log))
  {
    var n' := SetInst(n, k, t).(log := log);
    forall a | 0 <= a < |n'.insts| ensures InstInv(spec, n', n'.insts[a]) {
      assert InstInv(spec, n, n.insts[a]);
    }
  }

  lemma PhaseFits<V>(spec: Spec<V>, n: Node<V>, k: nat, act: Action<V>, t: Inst<V>)
    requires NodeInv(spec, n) && Ready(spec, n, k, act) && !act.Read? && !act.Write? && t.phase == Target(act)
    ensures Fits(n, t)
  {
    forall a | 0 <= a < |n.insts|
      ensures BarrierOrder(n.insts[a].phase, t.phase) && BarrierOrder(t.phase, n.insts[a].phase)
    {
      assert BarrierOrder(n.insts[a].phase, n.insts[k].phase);
      assert BarrierOrder(n.insts[k].phase, n.insts[a].phase);
    }
  }

  lemma PassInv<V>(spec: Spec<V>, n: Node<V>, k: nat, act: Action<V>)
    requires NodeInv(spec, n) && Ready(spec, n, k, act)
    requires !act.Read? && !act.Write? && !act.RunSection?
    ensures NodeInv(spec, Pass(n, k, act))
  {
    var n' := Pass(n, k, act);
    assert InstInv(spec, n, n.insts[k]);
    PhaseFits(spec, n, k, act, n'.insts[k]);
    assert InstInv(spec, n, n'.insts[k]);
    SwapInst(spec, n, k, n'.insts[k], n'.log);
  }

  lemma TakeChannel<V>(spec: Spec<V>, n: Node<V>, k: nat, out: seq<V>)
    requires ChannelInv(spec, n) && k < |n.insts| && n.buf != []
    ensures ChannelInv(spec, Take(n, k, out))
  {
    assert n.buf == [n.buf[0]] + n.buf[1..];
    assert n.taken + n.buf == (n.taken + [n.buf[0]]) + n.buf[1..];
  }

  lemma TakeInv<V>(spec: Spec<V>, n: Node<V>, k: nat, out: seq<V>)
    requires NodeInv(spec, n) && Ready(spec, n, k, Read(out))
    ensures NodeInv(spec, Take(n, k, out))
  {
    var n' := Take(n, k, out);
    forall a | 0 <= a < |n'.insts| ensures InstInv(spec, n', n'.insts[a]) && n'.insts[a].phase == n.insts[a].phase {
      assert InstInv(spec, n, n.insts[a]);
    }
    TakeChannel(spec, n, k, out);
  }

  lemma LocalStepInv<V>(g: Graph<V>, s: State<V>, l: Step<V>)
    requires Inv(g, s) && Enabled(g, s, l) && !l.act.Write? && !l.act.RunSection?
    ensures Inv(g, Next(g, s, l))
  {
    if l.act.Read? {
      TakeInv(g[l.i], s[l.i], l.k, l.act.out);
      ReplaceKeepsInv(g, s, l.i, Take(s[l.i], l.k, l.act.out));
    } else {
      PassInv(g[l.i], s[l.i], l.k, l.act);
      ReplaceKeepsInv(g, s, l.i, Pass(s[l.i], l.k, l.act));
    }
  }

  lemma AcceptInv<V>(spec: Spec<V>, n: Node<V>, x: V)
    requires NodeInv(spec, n) && !spec.source && !n.closed && |n.buf| < spec.capacity
    ensures NodeInv(spec, Accept(n, x))
  {
    var n' := Accept(n, x);
    forall a | 0 <= a < |n'.insts| ensures InstInv(spec, n', n'.insts[a]) {
      assert InstInv(spec, n, n.insts[a]);
    }
  }

  /** The writing instance's first emitted value has gone out. */
  ghost function Sent<V>(n: Node<V>, k: nat): Node<V>
    requires k < |n.insts| && n.insts[k].outbox != []
  {
    var t := n.insts[k];
    SetInst(n, k, t.(outbox := t.outbox[1..], sent := t.sent + [t.outbox[0]]))
  }

  lemma SentInv<V>(spec: Spec<V>, n: Node<V>, k: nat)
    requires NodeInv(spec, n) && Ready(spec, n, k, Write)
    ensures NodeInv(spec, Sent(n, k))
  {
    var t' := Sent(n, k).insts[k];
    assert InstInv(spec, n, n.insts[k]);
    assert Fits(n, t');
    SwapInst(spec, n, k, t', n.log);
  }

  /** A write that is not blocked always reaches the open channel of another node. */
  lemma WriteReaches<V>(g: Graph<V>, rank: seq<nat>, s: State<V>, l: Step<V>)
    requires WellFormed(g) && Ranked(g, rank) && Inv(g, s) && Enabled(g, s, l) && l.act.Write?
    ensures s[l.i].held && g[l.i].down.Some? && g[l.i].down.value < |g| && g[l.i].down.value != l.i
    ensures var j := g[l.i].down.value;
            && !g[j].source && !s[j].closed && |s[j].buf| < g[j].capacity
            && Next(g, s, l) == s[l.i := Sent(s[l.i], l.k)][j := Accept(s[j], s[l.i].insts[l.k].outbox[0])]
  {
    WriterHolds(g[l.i], s[l.i], l.k);
    HolderFindsOpen(g, s, l.i);
    assert WellFormedNode(g, l.i) && Upstream(g, l.i, g[l.i].down.value);
  }

  lemma WriteStepInv<V>(g: Graph<V>, rank: seq<nat>, s: State<V>, l: Step<V>)
    requires WellFormed(g) && Ranked(g, rank) && Inv(g, s) && Enabled(g, s, l) && l.act.Write?
    ensures Inv(g, Next(g, s, l))
  {
    WriteReaches(g, rank, s, l);
    var j, x, n := g[l.i].down.value, s[l.i].insts[l.k].outbox[0], Sent(s[l.i], l.k);
    SentInv(g[l.i], s[l.i], l.k);
    ReplaceKeepsInv(g, s, l.i, n);
    AcceptInv(g[j], s[j], x);
    ReplaceKeepsInv(g, s[l.i := n], j, Accept(s[j], x));
  }

  lemma DropRefInv<V>(spec: Spec<V>, n: Node<V>)
    requires NodeInv(spec, n) && !spec.source && n.refs > 0
    ensures NodeInv(spec, DropRef(n))
  {
    var n' := DropRef(n);
    forall a | 0 <= a < |n'.insts| ensures InstInv(spec, n', n'.insts[a]) {
      assert InstInv(spec, n, n.insts[a]);
    }
  }

  /** The critical section on rank 0: the node lets go of its ingress and moves on. */
  lemma ReleaseNodeInv<V>(spec: Spec<V>, n: Node<V>, log: seq<Event>)
    requires NodeInv(spec, n) && Ready(spec, n, 0, RunSection)
    ensures NodeInv(spec, Move(n, 0, AtFinish).(log := log, held := false))
  {
    var n' := Move(n, 0, AtFinish).(log := log, held := false);
    PhaseFits(spec, n, 0, RunSection, n'.insts[0]);
    forall a | 0 <= a < |n.insts| ensures InstInv(spec, n', n'.insts[a]) {
      assert InstInv(spec, n, n.insts[a]);
    }
  }

  lemma HoldersAfterRelease<V>(g: Graph<V>, s: State<V>, s': State<V>, i: nat, u: nat)
    requires |s| == |s'| == |g| && i < |g| && s[i].held && !s'[i].held
    requires forall v :: 0 <= v < |g| && v != i ==> s'[v].held == s[v].held
    ensures |Holders(g, s', u)| == |Holders(g, s, u)| - (if Upstream(g, i, u) then 1 else 0)
  {
    if Upstream(g, i, u) {
      assert i in Holders(g, s, u);
      assert Holders(g, s', u) == Holders(g, s, u) - {i};
    } else {
      assert Holders(g, s', u) == Holders(g, s, u);
    }
  }

  /** Releasing a held ingress takes one reference from the channel it leads to. */
  lemma ReleaseKeepsInv<V>(g: Graph<V>, s: State<V>, i: nat, n: Node<V>, j: nat, m: Node<V>)
    requires Inv(g, s) && i < |g| && j < |g| && i != j && g[i].down == Some(j)
    requires s[i].held && !n.held && n.refs == s[i].refs && m.held == s[j].held && m.refs == s[j].refs - 1
    requires NodeInv(g[i], n) && NodeInv(g[j], m)
    ensures Inv(g, s[i := n][j := m])
  {
    var s' := s[i := n][j := m];
    assert RefInv(g, s') by {
      forall u | 0 <= u < |g| ensures s'[u].refs == |Holders(g, s', u)| {
        HoldersAfterRelease(g, s, s', i, u);
      }
    }
  }

  lemma OtherRankInv<V>(g: Graph<V>, s: State<V>, i: nat, k: nat)
    requires Inv(g, s) && Enabled(g, s, Step(i, k, RunSection)) && k != 0
    ensures Inv(g, s[i := Move(s[i], k, AtFinish)])
  {
    var n := s[i];
    var t := n.insts[k].(phase := AtFinish);
    assert NodeInv(g[i], n) && InstInv(g[i], n, n.insts[k]);
    PhaseFits(g[i], n, k, RunSection, t);
    SwapInst(g[i], n, k, t, n.log);
    ReplaceKeepsInv(g, s, i, SetInst(n, k, t));
  }

  lemma SectionStepInv<V>(g: Graph<V>, rank: seq<nat>, s: State<V>, l: Step<V>)
    requires WellFormed(g) && Ranked(g, rank) && Inv(g, s) && Enabled(g, s, l) && l.act.RunSection?
    ensures Inv(g, Next(g, s, l))
  {
    if l.k != 0 {
      OtherRankInv(g, s, l.i, l.k);
    } else {
      var n := Move(s[l.i], 0, AtFinish).(log := s[l.i].log + [Section(0)], held := false);
      assert NodeInv(g[l.i], s[l.i]);
      ReleaseNodeInv(g[l.i], s[l.i], n.log);
      if s[l.i].held {
        HolderFindsOpen(g, s, l.i);
        var j := g[l.i].down.value;
        assert Upstream(g, l.i, j) && WellFormedNode(g, l.i);
        DropRefInv(g[j], s[j]);
        ReleaseKeepsInv(g, s, l.i, n, j, DropRef(s[j]));
      } else {
        ReplaceKeepsInv(g, s, l.i, n);
      }
    }
  }

  /** What an enabled step makes of the node that takes it. */
  ghost function Own<V>(n: Node<V>, k: nat, act: Action<V>): Node<V>
    requires k < |n.insts|
    requires act.Write? ==> n.insts[k].outbox != []
    requires act.Read? ==> n.buf != []
  {
    if act.Write? then Sent(n, k)
    else if act.Read? then Take(n, k, act.out)
    else if !act.RunSection? then Pass(n, k, act)
    else if k != 0 then Move(n, k, AtFinish)
    else Move(n, k, AtFinish).(log := n.log + [Section(k)], held := false)
  }

  /** A step changes its own node as `Own` says. Of any other node it can change the channel alone:
      one value more if it was an accepted write to it, one reference less if it released it. */
  lemma Effect<V>(g: Graph<V>, rank: seq<nat>, s: State<V>, l: Step<V>, u: nat)
    requires WellFormed(g) && Ranked(g, rank) && Inv(g, s) && Enabled(g, s, l) && u < |g|
    ensures var m, m' := s[u], Next(g, s, l)[u];
            if u == l.i then m' == Own(m, l.k, l.act)
            else || m' == m
                 || (Upstream(g, l.i, u) && l.act.Write? && m' == Accept(m, s[l.i].insts[l.k].outbox[0]))
                 || (Upstream(g, l.i, u) && l.act.RunSection? && m' == DropRef(m))
  {
    if l.act.Write? {
      WriteReaches(g, rank, s, l);
    } else if l.act.RunSection? && s[l.i].held && l.k == 0 {
      HolderFindsOpen(g, s, l.i);
      assert Upstream(g, l.i, g[l.i].down.value);
    }
  }

  lemma StepInv<V>(g: Graph<V>, s: State<V>, l: Step<V>)
    requires WellFormed(g) && Acyclic(g) && Inv(g, s)
    ensures Inv(g, Next(g, s, l))
  {
    if Enabled(g, s, l) {
      var rank :| Ranked(g, rank);
      if l.act.Write? {
        WriteStepInv(g, rank, s, l);
      } else if l.act.RunSection? {
        SectionStepInv(g, rank, s, l);
      } else {
        LocalStepInv(g, s, l);
      }
    }
  }

  lemma {:induction false} RunInv<V>(g: Graph<V>, steps: seq<Step<V>>)
    requires WellFormed(g) && Acyclic(g)
    ensures Inv(g, Run(g, steps))
  {
    if steps == [] {
      InitInv(g);
    } else {
      RunInv(g, steps[..|steps| - 1]);
      StepInv(g, Run(g, steps[..|steps| - 1]), steps[|steps| - 1]);
    }
  }
}
