/** The channel that keeps the most recent values: a full buffer drops its oldest value to make room,
    and closing it ends reading at once, whatever is still buffered. The size is at least one: with
    size zero the first write would pop an empty deque. */
module RecentChannels {
  import opened Finite
  import opened Options

  datatype Status = Success | Empty | Closed

  datatype Recent<T> = Recent(max: nat, deque: seq<T>, shutdown: bool)

  function Write<T>(c: Recent<T>, x: T): (r: (Recent<T>, Status))
    requires c.max > 0
  {
    if c.shutdown then (c, Closed)
    else (c.(deque := (if |c.deque| >= c.max then c.deque[1..] else c.deque) + [x]), Success)
  }

  function TryRead<T>(c: Recent<T>): (r: (Recent<T>, Status, Option<T>))
  {
    if c.shutdown then (c, Closed, None)
    else if c.deque == [] then (c, Empty, None)
    else (c.(deque := c.deque[1..]), Success, Some(c.deque[0]))
  }

  datatype Op<T> = Put(x: T) | Get | Shut

  function Apply<T>(c: Recent<T>, op: Op<T>): (c': Recent<T>)
    requires c.max > 0
    ensures c'.max == c.max
  {
    match op
    case Put(x) => Write(c, x).0
    case Get => TryRead(c).0
    case Shut => c.(shutdown := true)
  }

  function ApplyAll<T>(c: Recent<T>, ops: seq<Op<T>>): (c': Recent<T>)
    requires c.max > 0
    ensures c'.max == c.max
  {
    if ops == [] then c else Apply(ApplyAll(c, ops[..|ops| - 1]), ops[|ops| - 1])
  }

  /** A waiting reader can go on. */
  predicate Readable<T>(c: Recent<T>)
  {
    c.deque != [] || c.shutdown
  }

  class RecentChannel<T> {
    const max: nat
    var deque: seq<T>
    var shutdown: bool

    ghost function View(): Recent<T>
      reads this
    {
      Recent(max, deque, shutdown)
    }

    constructor (max: nat)
      requires max > 0
      ensures View() == Recent(max, [], false)
    {
      this.max, deque, shutdown := max, [], false;
    }

    method AwaitWrite(x: T) returns (status: Status)
      requires max > 0
      modifies this
      ensures (View(), status) == Write(old(View()), x)
    {
      if shutdown {
        return Closed;
      }
      if |deque| >= max {
        deque := deque[1..];
      }
      deque := deque + [x];
      return Success;
    }

    /** One operation of another thread. */
    method Other(op: Op<T>)
      requires max > 0
      modifies this
      ensures View() == Apply(old(View()), op)
    {
      match op
      case Put(x) => var _ := AwaitWrite(x);
      case Get => var _, _ := DoTryRead();
      case Shut => Close();
    }

    /** The reader waits while `others` happen, and gets the lock back after at least `late` of them. It goes
        on waiting while there is nothing to read and the channel is open; then it reads, after `used` of
        them. The answer is empty when it is still waiting after all of them. */
    method AwaitRead(others: seq<Op<T>>, late: nat) returns (used: nat, status: Status, data: Option<T>)
      requires max > 0
      modifies this
      ensures used <= |others|
      ensures forall k :: late <= k < used ==> !Readable(ApplyAll(old(View()), others[..k]))
      ensures (View(), status, data) == TryRead(ApplyAll(old(View()), others[..used]))
      ensures status.Empty? ==> used == |others|
    {
      used := 0;
      while used < |others| && (used < late || (deque == [] && !shutdown))
        invariant used <= |others| && View() == ApplyAll(old(View()), others[..used])
        invariant forall k :: late <= k < used ==> !Readable(ApplyAll(old(View()), others[..k]))
      {
        assert others[..used + 1][..used] == others[..used];
        Other(others[used]);
        used := used + 1;
      }
      status, data := DoTryRead();
    }

    method DoTryRead() returns (status: Status, data: Option<T>)
      modifies this
      ensures (View(), status, data) == TryRead(old(View()))
    {
      if shutdown {
        return Closed, None;
      }
      if deque == [] {
        return Empty, None;
      }
      data := Some(deque[0]);
      deque := deque[1..];
      return Success, data;
    }

    method Close()
      modifies this
      ensures View() == old(View()).(shutdown := true)
    {
      shutdown := true;
    }
  }

  // ---------------------------------------------------------------------------------------
  // Every run

  /** The accepted writes are numbered from zero. `first` is the number of the oldest buffered one;
      `taken` and `drops` list the numbers of those read and of those dropped to make room, and `values`
      what the reads gave. */
  datatype World<T> = World(
    channel: Recent<T>,
    accepted: seq<T>,
    first: nat,
    taken: seq<nat>,
    drops: seq<nat>,
    values: seq<T>)

  ghost function Next<T>(w: World<T>, op: Op<T>): World<T>
    requires w.channel.max > 0
  {
    match op
    case Put(x) =>
      var (c, status) := Write(w.channel, x);
      if !status.Success? then w
      else if |w.channel.deque| >= w.channel.max
      then w.(channel := c, accepted := w.accepted + [x], first := w.first + 1, drops := w.drops + [w.first])
      else w.(channel := c, accepted := w.accepted + [x])
    case Get =>
      var (c, status, data) := TryRead(w.channel);
      if !status.Success? then w
      else w.(channel := c, first := w.first + 1, taken := w.taken + [w.first],
              values := w.values + (if data.Some? then [data.value] else []))
    case Shut => w.(channel := w.channel.(shutdown := true))
  }

  ghost function Run<T>(max: nat, ops: seq<Op<T>>): (w: World<T>)
    requires max > 0
    ensures w.channel.max == max
  {
    if ops == [] then World(Recent(max, [], false), [], 0, [], [], [])
    else Next(Run(max, ops[..|ops| - 1]), ops[|ops| - 1])
  }

  ghost predicate Increasing(xs: seq<nat>)
  {
    forall i, j :: 0 <= i < j < |xs| ==> xs[i] < xs[j]
  }

  /** The buffer is a contiguous suffix of the accepted writes, no longer than the size allows; reads
      and drops each go in order, and share out exactly the writes that are no longer buffered; and
      a drop happens no earlier than `max` writes later. */
  ghost predicate Inv<T>(w: World<T>)
  {
    && w.first <= |w.accepted|
    && w.channel.deque == w.accepted[w.first..]
    && |w.channel.deque| <= w.channel.max
    && Increasing(w.taken) && Increasing(w.drops)
    && (forall i: nat :: i < w.first <==> i in w.taken || i in w.drops)
    && (forall i: nat :: !(i in w.taken && i in w.drops))
    && (forall i :: i in w.drops ==> i + w.channel.max < |w.accepted|)
  }

  lemma NextInv<T>(w: World<T>, op: Op<T>)
    requires w.channel.max > 0 && Inv(w)
    ensures Inv(Next(w, op))
  {
    var w' := Next(w, op);
    assert forall i :: i in w.taken + [w.first] <==> i in w.taken || i == w.first;
    assert forall i :: i in w.drops + [w.first] <==> i in w.drops || i == w.first;
    assert forall k :: 0 <= k < |w.taken| ==> w.taken[k] in w.taken;
    assert forall k :: 0 <= k < |w.drops| ==> w.drops[k] in w.drops;
    assert w'.channel.deque == w'.accepted[w'.first..];
  }

  lemma {:induction false} RunInv<T>(max: nat, ops: seq<Op<T>>)
    requires max > 0
    ensures Inv(Run(max, ops))
  {
    if ops != [] {
      RunInv(max, ops[..|ops| - 1]);
      NextInv(Run(max, ops[..|ops| - 1]), ops[|ops| - 1]);
    }
  }

  /** The operation numbered `t` is the write that was accepted as number `m`. */
  ghost predicate AcceptedAs<T>(max: nat, ops: seq<Op<T>>, t: nat, m: nat)
    requires max > 0
  {
    t < |ops| && ops[t].Put? && !Run(max, ops[..t]).channel.shutdown && |Run(max, ops[..t]).accepted| == m
  }

  /** Write number `i` was still unread when write number `i + max` was accepted. */
  ghost predicate Overtaken<T>(max: nat, ops: seq<Op<T>>, i: nat)
    requires max > 0
  {
    exists t :: 0 <= t < |ops| && AcceptedAs(max, ops, t, i + max) && i !in Run(max, ops[..t]).taken
  }

  /** One more operation. */
  lemma OvertakenGrows<T>(max: nat, ops: seq<Op<T>>, i: nat)
    requires max > 0 && ops != []
    ensures var k := |ops| - 1;
            Overtaken(max, ops, i) <==>
            Overtaken(max, ops[..k], i) || (AcceptedAs(max, ops, k, i + max) && i !in Run(max, ops[..k]).taken)
  {
    var k := |ops| - 1;
    var before := ops[..k];
    if Overtaken(max, before, i) {
      var t :| 0 <= t < |before| && AcceptedAs(max, before, t, i + max) && i !in Run(max, before[..t]).taken;
      assert before[..t] == ops[..t] && AcceptedAs(max, ops, t, i + max);
    }
    if Overtaken(max, ops, i) {
      var t :| 0 <= t < |ops| && AcceptedAs(max, ops, t, i + max) && i !in Run(max, ops[..t]).taken;
      if t < k { assert before[..t] == ops[..t] && AcceptedAs(max, before, t, i + max); }
    }
  }

  /** A write is dropped exactly when it is still unread as the write `max` places later is accepted. */
  lemma {:induction false} DroppedExactly<T>(max: nat, ops: seq<Op<T>>, i: nat)
    requires max > 0
    ensures i in Run(max, ops).drops <==> Overtaken(max, ops, i)
  {
    if ops != [] {
      var k := |ops| - 1;
      var w := Run(max, ops[..k]);
      DroppedExactly(max, ops[..k], i);
      OvertakenGrows(max, ops, i);
      RunInv(max, ops[..k]);
      if ops[k].Put? && !w.channel.shutdown && |w.accepted| == i + max {
        assert AcceptedAs(max, ops, k, i + max);
        assert i < w.first ==> i in w.taken;
        assert i >= w.first ==> i == w.first && |w.channel.deque| == max;
      }
    }
  }

  /** The k-th value read is the write with the k-th number read. */
  ghost predicate ValuesRight<T>(w: World<T>)
  {
    && |w.values| == |w.taken|
    && forall k :: 0 <= k < |w.taken| ==> w.taken[k] < |w.accepted| && w.values[k] == w.accepted[w.taken[k]]
  }

  lemma NextValues<T>(w: World<T>, op: Op<T>)
    requires w.channel.max > 0 && Inv(w) && ValuesRight(w)
    ensures ValuesRight(Next(w, op))
  {
    var w' := Next(w, op);
    if op.Get? && TryRead(w.channel).1.Success? {
      assert w.channel.deque[0] == w.accepted[w.first];
    }
    assert forall k :: 0 <= k < |w.taken| ==> w'.taken[k] == w.taken[k] && w'.values[k] == w.values[k];
  }

  lemma {:induction false} RunValues<T>(max: nat, ops: seq<Op<T>>)
    requires max > 0
    ensures ValuesRight(Run(max, ops))
  {
    if ops != [] {
      RunInv(max, ops[..|ops| - 1]);
      RunValues(max, ops[..|ops| - 1]);
      NextValues(Run(max, ops[..|ops| - 1]), ops[|ops| - 1]);
    }
  }

  ghost predicate Shuts<T>(ops: seq<Op<T>>)
  {
    ops != [] && (Shuts(ops[..|ops| - 1]) || ops[|ops| - 1].Shut?)
  }

  /** The writes that come before the channel is closed. */
  ghost function Written<T>(ops: seq<Op<T>>): seq<T>
  {
    if ops == [] then []
    else
      var before, op := ops[..|ops| - 1], ops[|ops| - 1];
      if op.Put? && !Shuts(before) then Written(before) + [op.x] else Written(before)
  }

  /** Exactly the writes before closing are accepted, whatever is read or dropped meanwhile. */
  lemma {:induction false} AcceptedExactly<T>(max: nat, ops: seq<Op<T>>)
    requires max > 0
    ensures Run(max, ops).accepted == Written(ops)
    ensures Run(max, ops).channel.shutdown <==> Shuts(ops)
  {
    if ops != [] { AcceptedExactly(max, ops[..|ops| - 1]); }
  }

  /** Write number `i` has been neither read nor dropped. */
  ghost predicate Waiting<T>(w: World<T>, i: nat)
  {
    i < |w.accepted| && i !in w.taken && i !in w.drops
  }

  /** What the next operation answers: a write is refused exactly when the channel was closed; a read is
      refused exactly then, finds nothing exactly when no accepted write is waiting, and otherwise gives the
      oldest one waiting. */
  lemma AnswersExactly<T>(max: nat, ops: seq<Op<T>>, x: T)
    requires max > 0
    ensures var w := Run(max, ops);
            var (_, read, data) := TryRead(w.channel);
            && Write(w.channel, x).1 == (if Shuts(ops) then Closed else Success)
            && (read.Closed? <==> Shuts(ops))
            && (read.Empty? <==> !Shuts(ops) && forall i: nat :: !Waiting(w, i))
            && (read.Success? ==> exists i: nat ::
                  && Waiting(w, i) && i < |Written(ops)| && data == Some(Written(ops)[i])
                  && forall j: nat :: j < i ==> !Waiting(w, j))
            && (!read.Success? ==> data.None?)
  {
    var w := Run(max, ops);
    RunInv(max, ops);
    AcceptedExactly(max, ops);
    if w.first < |w.accepted| {
      assert Waiting(w, w.first) && w.channel.deque[0] == w.accepted[w.first];
    }
  }

  /** The object's operations one after the other are a run. */
  lemma {:induction false} ChannelOf<T>(max: nat, ops: seq<Op<T>>)
    requires max > 0
    ensures ApplyAll(Recent(max, [], false), ops) == Run(max, ops).channel
  {
    if ops != [] { ChannelOf(max, ops[..|ops| - 1]); }
  }

  /** Reads are an in-order subsequence of the writes: the numbers read rise, as do those dropped;
      every accepted write has been read, or dropped, or is buffered, and just one of these; and every read
      gave the value of the write whose number it took. */
  lemma EveryWriteAccounted<T>(max: nat, ops: seq<Op<T>>)
    requires max > 0
    ensures Inv(Run(max, ops)) && ValuesRight(Run(max, ops))
    ensures var w := Run(max, ops);
            forall i :: 0 <= i < |w.accepted| ==>
              var read, dropped, buffered := i in w.taken, i in w.drops, w.first <= i;
              (read || dropped || buffered) && !(read && dropped) && !(read && buffered) && !(dropped && buffered)
  {
    RunInv(max, ops);
    RunValues(max, ops);
  }

  /** Closing strands what is buffered: nothing is read, dropped or accepted any more, so at most
      `max` accepted values stay undelivered for good. */
  lemma {:induction false} CloseStrands<T>(max: nat, ops: seq<Op<T>>, more: seq<Op<T>>)
    requires max > 0 && Run(max, ops).channel.shutdown
    ensures Run(max, ops + more) == Run(max, ops)
    ensures |Run(max, ops).accepted| - |Run(max, ops).taken| - |Run(max, ops).drops| <= max
  {
    RunInv(max, ops);
    Shares(Run(max, ops));
    if more == [] {
      assert ops + more == ops;
    } else {
      CloseStrands(max, ops, more[..|more| - 1]);
      assert (ops + more)[..|ops + more| - 1] == ops + more[..|more| - 1];
    }
  }

  lemma IncreasingCount(xs: seq<nat>)
    requires Increasing(xs)
    ensures |Members(xs)| == |xs|
  {
    assert Distinct(xs);
    DistinctSize(xs);
  }

  /** Reads and drops together number the writes that are no longer buffered. */
  lemma Shares<T>(w: World<T>)
    requires Inv(w)
    ensures |w.taken| + |w.drops| == w.first
  {
    IncreasingCount(w.taken);
    IncreasingCount(w.drops);
    assert Below(w.first) == Members(w.taken) + Members(w.drops);
    assert Members(w.taken) !! Members(w.drops);
  }
}
