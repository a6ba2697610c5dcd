/** The life of a sink channel, told from what is done to it and nothing else. A clerk who only counts the
    references taken and dropped knows whether the channel is open, kept open or closed, how many references
    there are, and which replacements the sink channel accepts. */
module ChannelLives {
  import opened Options
  import opened SinkChannels

  /** The current channel: nobody has connected yet; there is a live edge, with so many references outside and
      perhaps one kept inside; or its last reference has gone. */
  datatype Life = New | Held(outside: nat, kept: bool) | Used

  /** How many channels were replaced and how many edges made, and the life of the current channel. */
  datatype Book = Book(replaced: nat, made: nat, life: Life, aborted: bool)

  predicate HeldOutside(b: Book, e: nat)
  {
    b.life.Held? && b.life.outside > 0 && e + 1 == b.made
  }

  function Enter(b: Book, op: Op): Book
  {
    if b.aborted then b else
    match op
    case AcquireIngress =>
      (match b.life
       case New => b.(made := b.made + 1, life := Held(1, false))
       case Held(n, kept) => b.(life := Held(n + 1, kept))
       case Used => b)
    case Copy(e) => if HeldOutside(b, e) then b.(life := Held(b.life.outside + 1, b.life.kept)) else b
    case DropIngress(e) =>
      if !HeldOutside(b, e) then b
      else if b.life == Held(1, false) then b.(life := Used)
      else b.(life := Held(b.life.outside - 1, b.life.kept))
    case Persist =>
      (match b.life
       case New => b.(made := b.made + 1, life := Held(0, true))
       case Held(n, _) => b.(life := Held(n, true))
       case Used => b)
    case Unpersist =>
      if b.life == Held(0, true) then b.(life := Used)
      else if b.life.Held? then b.(life := Held(b.life.outside, false))
      else b
    case UpdateChannel(given, lingering) =>
      if !given || b.life.Held? || (b.life.Used? && lingering) then b.(aborted := true)
      else b.(replaced := b.replaced + 1, life := New)
  }

  function Entries(ops: seq<Op>): Book
  {
    if ops == [] then Book(0, 0, New, false) else Enter(Entries(ops[..|ops| - 1]), ops[|ops| - 1])
  }

  // ---------------------------------------------------------------------------------------
  // The book is right

  ghost predicate LifeShows(w: World, b: Book)
  {
    var s := w.sink;
    match b.life
    case New =>
      s.channel !in s.closed && !s.initialized && s.persistent.None? && w.holders == multiset{}
    case Held(n, kept) =>
      && b.made > 0 && Live(s, b.made - 1) && s.channel !in s.closed
      && w.holders == multiset{}[b.made - 1 := n]
      && s.persistent == (if kept then Some(b.made - 1) else None)
    case Used =>
      s.channel in s.closed && s.initialized && s.persistent.None? && w.holders == multiset{}
  }

  ghost predicate Shows(w: World, b: Book)
  {
    && w.aborted == b.aborted
    && w.sink.channel == b.replaced && w.sink.channels == b.replaced + 1
    && |w.sink.edges| == b.made
    && LifeShows(w, b)
  }

  /** Without a holder, inside or outside, no edge is alive. */
  lemma NoneLive(w: World)
    requires Counted(w) && w.holders == multiset{} && w.sink.persistent.None?
    ensures forall e: nat :: !Live(w.sink, e)
  {
  }

  /** The live edge is the one the weak pointer knows, and leads to the current channel. */
  lemma HeldEdge(w: World, b: Book)
    requires Inv(w) && Shows(w, b) && b.life.Held?
    ensures w.sink.weak == Some(b.made - 1) && On(w.sink, b.made - 1, w.sink.channel) && w.sink.initialized
    ensures w.sink.edges[b.made - 1].strong == b.life.outside + (if b.life.kept then 1 else 0)
  {
    var e: nat := b.made - 1;
    assert w.holders[e] == b.life.outside;
    assert Live(w.sink, e);
    assert On(w.sink, e, w.sink.channel);
  }

  lemma AcquireShows(w: World, b: Book, op: Op)
    requires Inv(w) && Shows(w, b) && !w.aborted && (op.AcquireIngress? || op.Persist?)
    ensures Shows(Next(w, op), Enter(b, op))
  {
    if b.life.Held? {
      HeldEdge(w, b);
    } else {
      NoneLive(w);
    }
  }

  lemma CopyShows(w: World, b: Book, e: nat)
    requires Inv(w) && Shows(w, b) && !w.aborted
    ensures Shows(Next(w, Copy(e)), Enter(b, Copy(e)))
  {
    assert e in w.holders <==> HeldOutside(b, e);
  }

  lemma DropShows(w: World, b: Book, e: nat)
    requires Inv(w) && Shows(w, b) && !w.aborted
    ensures Shows(Next(w, DropIngress(e)), Enter(b, DropIngress(e)))
  {
    assert e in w.holders <==> HeldOutside(b, e);
    if HeldOutside(b, e) { HeldEdge(w, b); }
  }

  lemma UnpersistShows(w: World, b: Book)
    requires Inv(w) && Shows(w, b) && !w.aborted
    ensures Shows(Next(w, Unpersist), Enter(b, Unpersist))
  {
    if b.life.Held? { HeldEdge(w, b); }
  }

  /** Who shares the channel. */
  lemma SharedExactly(w: World, b: Book, lingering: bool)
    requires Inv(w) && Shows(w, b)
    ensures Unshared(w.sink, lingering) <==> b.life.New? || (b.life.Used? && !lingering)
  {
    if b.life.Held? {
      HeldEdge(w, b);
    } else {
      NoneLive(w);
      assert w.sink.initialized <==> b.life.Used?;
    }
  }

  lemma ReplaceShows(w: World, b: Book, given: bool, lingering: bool)
    requires Inv(w) && Shows(w, b) && !w.aborted
    ensures Shows(Next(w, UpdateChannel(given, lingering)), Enter(b, UpdateChannel(given, lingering)))
  {
    SharedExactly(w, b, lingering);
    if given && Unshared(w.sink, lingering) {
      assert w.sink.channels !in w.sink.closed by {
        assert forall e: nat :: !On(w.sink, e, w.sink.channels);
      }
    }
  }

  lemma NextShows(w: World, b: Book, op: Op)
    requires Inv(w) && Shows(w, b)
    ensures Shows(Next(w, op), Enter(b, op))
  {
    if w.aborted {
    } else if op.AcquireIngress? || op.Persist? {
      AcquireShows(w, b, op);
    } else if op.Copy? {
      CopyShows(w, b, op.e);
    } else if op.DropIngress? {
      DropShows(w, b, op.e);
    } else if op.Unpersist? {
      UnpersistShows(w, b);
    } else {
      ReplaceShows(w, b, op.given, op.lingering);
    }
  }

  /** In every run the sink channel is what the book says: open, kept open or closed, with so many references,
      so many edges made, so many channels replaced, and ended by a check or not. */
  lemma {:induction false} LifeTold(ops: seq<Op>)
    ensures Shows(Run(ops), Entries(ops))
  {
    if ops != [] {
      LifeTold(ops[..|ops| - 1]);
      RunInv(ops[..|ops| - 1]);
      NextShows(Run(ops[..|ops| - 1]), Entries(ops[..|ops| - 1]), ops[|ops| - 1]);
    }
  }

  // ---------------------------------------------------------------------------------------
  // Persistence

  lemma {:induction false} KeptStays(ops: seq<Op>, more: seq<Op>)
    requires Entries(ops).life.Held? && Entries(ops).life.kept && Unpersist !in more
    ensures Entries(ops + more).life.Held? && Entries(ops + more).life.kept
  {
    if more == [] {
      assert ops + more == ops;
    } else {
      var k := |more| - 1;
      assert more == more[..k] + [more[k]];
      KeptStays(ops, more[..k]);
      assert (ops + more)[..|ops + more| - 1] == ops + more[..k];
    }
  }

  /** Once an open sink channel has been made persistent, and until persistence is disabled, nothing that
      happens to it closes its channel: no reference that is dropped, no replacement that is tried. */
  lemma PersistenceKeepsOpen(ops: seq<Op>, more: seq<Op>)
    requires var w := Run(ops); !w.aborted && w.sink.channel !in w.sink.closed
    requires Unpersist !in more
    ensures var w := Run(ops + [Persist] + more);
            w.sink.persistent.Some? && w.sink.channel == Run(ops).sink.channel && w.sink.channel !in w.sink.closed
  {
    LifeTold(ops);
    LifeTold(ops + [Persist] + more);
    assert (ops + [Persist])[..|ops|] == ops;
    KeptStays(ops + [Persist], more);
    SameChannel(ops + [Persist], more);
  }

  lemma {:induction false} SameChannel(ops: seq<Op>, more: seq<Op>)
    requires Entries(ops).life.Held? && Entries(ops).life.kept && Unpersist !in more
    ensures Entries(ops + more).replaced == Entries(ops).replaced
  {
    if more == [] {
      assert ops + more == ops;
    } else {
      var k := |more| - 1;
      assert more == more[..k] + [more[k]];
      KeptStays(ops, more[..k]);
      SameChannel(ops, more[..k]);
      assert (ops + more)[..|ops + more| - 1] == ops + more[..k];
    }
  }

  /** Disabling persistence closes the channel exactly when no reference to it is left outside. */
  lemma UnpersistClosesExactly(ops: seq<Op>)
    requires var w := Run(ops); !w.aborted && w.sink.persistent.Some?
    ensures var w, w' := Run(ops), Next(Run(ops), Unpersist);
            && w'.sink.persistent.None?
            && (w'.sink.channel in w'.sink.closed <==> w.holders == multiset{})
  {
    LifeTold(ops);
    RunInv(ops);
    NextShows(Run(ops), Entries(ops), Unpersist);
    var b := Entries(ops);
    assert Run(ops).holders[b.made - 1] == b.life.outside;
  }
}
