/** A whole graph of default nodes, each passing on what it reads: nothing is lost, duplicated or
    made up between the sources and the sinks. */
module DataflowEndToEnd {
  import opened Bags
  import opened Dataflow
  import opened DataflowDelivery
  import opened DataflowSafety
  import opened Options

  /** The step does what the default stream does: a node with a downstream edge emits the value it
      read, and completion adds nothing. */
  ghost predicate Forwards<V>(g: Graph<V>, s: State<V>, l: Step<V>)
  {
    Enabled(g, s, l) ==>
      && (l.act.Read? && g[l.i].down.Some? ==> l.act.out == [s[l.i].buf[0]])
      && (l.act.Complete? ==> l.act.out == [])
  }

  ghost predicate DefaultRun<V>(g: Graph<V>, steps: seq<Step<V>>)
  {
    steps == [] ||
    (DefaultRun(g, steps[..|steps| - 1]) && Forwards(g, Run(g, steps[..|steps| - 1]), steps[|steps| - 1]))
  }

  /** The values a node is answerable for: those waiting in its channel or to be written, and for a
      sink also those it has consumed. */
  ghost function Content<V>(spec: Spec<V>, n: Node<V>): multiset<V>
  {
    multiset(n.buf) + Sum(OutParts(n.insts)) + (if spec.down.None? then multiset(n.taken) else multiset{})
  }

  ghost function Contents<V>(g: Graph<V>, s: State<V>): seq<multiset<V>>
    requires |s| == |g|
  {
    seq(|g|, i requires 0 <= i < |g| => Content(g[i], s[i]))
  }

  lemma PassContent<V>(spec: Spec<V>, n: Node<V>, k: nat, t: Inst<V>)
    requires k < |n.insts| && t.outbox == n.insts[k].outbox
    ensures Content(spec, SetInst(n, k, t)) == Content(spec, n)
  {
    PartsUpdate(n.insts, k, t);
    Cancel(Sum(OutParts(n.insts[k := t])), Sum(OutParts(n.insts)), multiset(t.outbox));
  }

  lemma TakeParts<V>(n: Node<V>, k: nat, out: seq<V>)
    requires k < |n.insts| && n.insts[k].outbox == [] && n.buf != []
    ensures Sum(OutParts(Take(n, k, out).insts)) == Sum(OutParts(n.insts)) + multiset(out)
    ensures multiset(n.buf) == multiset{n.buf[0]} + multiset(Take(n, k, out).buf)
  {
    var parts := OutParts(n.insts);
    SumGrow(parts, k, multiset(out));
    assert parts[k] + multiset(out) == multiset(out);
    assert OutParts(Take(n, k, out).insts) == parts[k := multiset(out)];
    assert n.buf == [n.buf[0]] + n.buf[1..];
  }

  lemma TakeContent<V>(spec: Spec<V>, n: Node<V>, k: nat, out: seq<V>)
    requires k < |n.insts| && n.insts[k].outbox == [] && n.buf != []
    requires out == if spec.down.None? then [] else [n.buf[0]]
    ensures Content(spec, Take(n, k, out)) == Content(spec, n)
  {
    TakeParts(n, k, out);
    var x, rest, outs := multiset{n.buf[0]}, multiset(n.buf[1..]), Sum(OutParts(n.insts));
    if spec.down.None? {
      Regroup(rest, outs, multiset(n.taken), x);
      assert multiset(n.taken + [n.buf[0]]) == multiset(n.taken) + x;
    } else {
      Regroup(rest, outs, multiset{}, x);
    }
  }

  lemma SentOuts<V>(n: Node<V>, k: nat)
    requires k < |n.insts| && n.insts[k].outbox != []
    ensures Sum(OutParts(n.insts)) == Sum(OutParts(Sent(n, k).insts)) + multiset{n.insts[k].outbox[0]}
  {
    var parts, out, rest := OutParts(n.insts), n.insts[k].outbox, n.insts[k].outbox[1..];
    assert out == [out[0]] + rest;
    assert OutParts(Sent(n, k).insts) == parts[k := multiset(rest)];
    SumShrink(parts, k, multiset(rest), multiset{out[0]});
  }

  lemma SentContent<V>(spec: Spec<V>, n: Node<V>, k: nat)
    requires k < |n.insts| && n.insts[k].outbox != []
    ensures Content(spec, n) == Content(spec, Sent(n, k)) + multiset{n.insts[k].outbox[0]}
  {
    SentOuts(n, k);
  }

  lemma OwnContent<V>(g: Graph<V>, s: State<V>, l: Step<V>)
    requires |s| == |g| && Enabled(g, s, l) && Forwards(g, s, l) && !l.act.Write?
    ensures Content(g[l.i], Own(s[l.i], l.k, l.act)) == Content(g[l.i], s[l.i])
  {
    var n := s[l.i];
    if l.act.Read? {
      TakeContent(g[l.i], n, l.k, l.act.out);
    } else {
      PassContent(g[l.i], n, l.k, Own(n, l.k, l.act).insts[l.k]);
    }
  }

  lemma WriteParts<V>(g: Graph<V>, s: State<V>, i: nat, k: nat, j: nat)
    requires |s| == |g| && i < |g| && j < |g| && i != j && k < |s[i].insts| && s[i].insts[k].outbox != []
    ensures var s' := AfterSend(g, s, i, k, j);
            Contents(g, s') == Contents(g, s)[i := Content(g[i], s'[i])][j := Content(g[j], s'[j])]
  {
  }

  lemma WriteContents<V>(g: Graph<V>, s: State<V>, i: nat, k: nat, j: nat)
    requires |s| == |g| && i < |g| && j < |g| && i != j && k < |s[i].insts| && s[i].insts[k].outbox != []
    ensures Sum(Contents(g, AfterSend(g, s, i, k, j))) == Sum(Contents(g, s))
  {
    var x, s' := s[i].insts[k].outbox[0], AfterSend(g, s, i, k, j);
    SentContent(g[i], s[i], k);
    AcceptContent(g[j], s[j], x);
    SumMove(Contents(g, s), i, j, Content(g[i], s'[i]), Content(g[j], s'[j]), multiset{x});
    WriteParts(g, s, i, k, j);
  }

  lemma AcceptContent<V>(spec: Spec<V>, n: Node<V>, x: V)
    ensures Content(spec, Accept(n, x)) == Content(spec, n) + multiset{x}
  {
  }

  lemma QuietContent<V>(g: Graph<V>, rank: seq<nat>, s: State<V>, l: Step<V>, u: nat)
    requires WellFormed(g) && Ranked(g, rank) && Inv(g, s) && Enabled(g, s, l) && Forwards(g, s, l) && !l.act.Write?
    requires u < |g|
    ensures Content(g[u], Next(g, s, l)[u]) == Content(g[u], s[u])
  {
    Effect(g, rank, s, l, u);
    if u == l.i { OwnContent(g, s, l); }
  }

  lemma StepContents<V>(g: Graph<V>, rank: seq<nat>, s: State<V>, l: Step<V>)
    requires WellFormed(g) && Ranked(g, rank) && Inv(g, s) && Forwards(g, s, l)
    ensures Sum(Contents(g, Next(g, s, l))) == Sum(Contents(g, s))
  {
    if Enabled(g, s, l) {
      if l.act.Write? {
        WriteReaches(g, rank, s, l);
        WriteContents(g, s, l.i, l.k, g[l.i].down.value);
      } else {
        forall u | 0 <= u < |g| ensures Contents(g, Next(g, s, l))[u] == Contents(g, s)[u] {
          QuietContent(g, rank, s, l, u);
        }
        assert Contents(g, Next(g, s, l)) == Contents(g, s);
      }
    }
  }

  lemma {:induction false} RunContents<V>(g: Graph<V>, rank: seq<nat>, steps: seq<Step<V>>)
    requires WellFormed(g) && Ranked(g, rank) && DefaultRun(g, steps)
    ensures Sum(Contents(g, Run(g, steps))) == Sum(Contents(g, Init(g)))
  {
    if steps != [] {
      RunInv(g, steps[..|steps| - 1]);
      RunContents(g, rank, steps[..|steps| - 1]);
      StepContents(g, rank, Run(g, steps[..|steps| - 1]), steps[|steps| - 1]);
    }
  }

  // ---------------------------------------------------------------------------------------
  // The two ends

  ghost function Emitted<V>(g: Graph<V>): seq<multiset<V>>
  {
    seq(|g|, i requires 0 <= i < |g| =>
      Sum(seq(|g[i].items|, k requires 0 <= k < |g[i].items| => multiset(g[i].items[k]))))
  }

  /** What the sinks have consumed. */
  ghost function Consumed<V>(g: Graph<V>, s: State<V>): seq<multiset<V>>
    requires |s| == |g|
  {
    seq(|g|, i requires 0 <= i < |g| => if g[i].down.None? then multiset(s[i].taken) else multiset{})
  }

  lemma InitContents<V>(g: Graph<V>)
    ensures Contents(g, Init(g)) == Emitted(g)
  {
    forall i | 0 <= i < |g| ensures Content(g[i], Init(g)[i]) == Emitted(g)[i] {
      assert OutParts(Init(g)[i].insts) ==
             seq(|g[i].items|, k requires 0 <= k < |g[i].items| => multiset(g[i].items[k]));
    }
  }

  lemma FinishedContent<V>(spec: Spec<V>, n: Node<V>)
    requires NodeInv(spec, n) && AllFinished(n)
    ensures Content(spec, n) == if spec.down.None? then multiset(n.taken) else multiset{}
  {
    forall k | 0 <= k < |n.insts| ensures OutParts(n.insts)[k] == multiset{} {
      assert InstInv(spec, n, n.insts[k]);
    }
    SumEmpty(OutParts(n.insts));
    assert InstInv(spec, n, n.insts[0]);
  }

  /** When a graph of default nodes has finished, its sinks have consumed exactly what its sources
      emitted, value for value. */
  lemma EndToEnd<V>(g: Graph<V>, steps: seq<Step<V>>)
    requires WellFormed(g) && Acyclic(g) && DefaultRun(g, steps)
    requires forall i :: 0 <= i < |g| ==> AllFinished(Run(g, steps)[i])
    ensures Sum(Consumed(g, Run(g, steps))) == Sum(Emitted(g))
  {
    var rank :| Ranked(g, rank);
    var s := Run(g, steps);
    RunContents(g, rank, steps);
    InitContents(g);
    RunInv(g, steps);
    forall i | 0 <= i < |g| ensures Contents(g, s)[i] == Consumed(g, s)[i] {
      FinishedContent(g[i], s[i]);
    }
    assert Contents(g, s) == Consumed(g, s);
  }
}
