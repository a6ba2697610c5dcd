/** Who owns allocated memory. A buffer is constructed by allocating from a memory resource, moves
    hand its block on, and releasing or destroying it gives the block back. Allocation always returns
    a new address. */
module Buffers {
  import opened Options

  /** `view` is the resource the block came from; an empty or moved-from buffer has none. */
  datatype Buf = Buf(view: Option<nat>, bytes: nat, ptr: Option<nat>)

  datatype Block = Block(view: nat, bytes: nat)

  const MOVED := Buf(None, 0, None)

  /** The resources: what is allocated, the next address, and whether a deallocation ever failed to
      match a live allocation of the same resource and size. */
  datatype Memory = Memory(live: map<nat, Block>, next: nat, mismatch: bool)

  function Allocate(m: Memory, view: nat, bytes: nat): (Memory, nat)
  {
    (m.(live := m.live[m.next := Block(view, bytes)], next := m.next + 1), m.next)
  }

  function Deallocate(m: Memory, b: Buf): Memory
    requires b.ptr.Some?
  {
    if b.view.Some? && b.ptr.value in m.live && m.live[b.ptr.value] == Block(b.view.value, b.bytes)
    then m.(live := m.live - {b.ptr.value})
    else m.(mismatch := true)
  }

  class Resources {
    var live: map<nat, Block>
    var next: nat
    var mismatch: bool

    ghost function View(): Memory
      reads this
    {
      Memory(live, next, mismatch)
    }

    constructor ()
      ensures View() == Memory(map[], 0, false)
    {
      live, next, mismatch := map[], 0, false;
    }
  }

  class Buffer {
    const memory: Resources
    var view: Option<nat>
    var bytes: nat
    var ptr: Option<nat>

    ghost function View(): Buf
      reads this
    {
      Buf(view, bytes, ptr)
    }

    constructor Empty(memory: Resources)
      ensures View() == MOVED && this.memory == memory
    {
      this.memory := memory;
      view, bytes, ptr := None, 0, None;
    }

    constructor OfSize(bytes: nat, view: nat, memory: Resources)
      modifies memory
      ensures this.memory == memory
      ensures (memory.View(), ptr) == (Allocate(old(memory.View()), view, bytes).0, Some(old(memory.next)))
      ensures View() == Buf(Some(view), bytes, ptr)
    {
      this.memory := memory;
      this.view, this.bytes, ptr := Some(view), bytes, Some(memory.next);
      new;
      memory.live := memory.live[memory.next := Block(view, bytes)];
      memory.next := memory.next + 1;
    }

    constructor MoveFrom(other: Buffer)
      modifies other
      ensures View() == old(other.View()) && other.View() == MOVED && memory == other.memory
    {
      memory := other.memory;
      view, bytes, ptr := other.view, other.bytes, other.ptr;
      new;
      other.view, other.bytes, other.ptr := None, 0, None;
    }

    /** Assigning a buffer to itself changes nothing; otherwise the target's own block is forgotten. */
    method MoveAssign(other: Buffer)
      modifies this, other
      ensures View() == old(other.View())
      ensures other != this ==> other.View() == MOVED
    {
      var v := other.view;
      other.view := None;
      view := v;
      var b := other.bytes;
      other.bytes := 0;
      bytes := b;
      var p := other.ptr;
      other.ptr := None;
      ptr := p;
    }

    method Release()
      modifies this, memory
      ensures memory.View() == FreeBlock(old(memory.View()), old(View()))
      ensures View() == if old(ptr).Some? then Buf(old(view), 0, None) else old(View())
    {
      if ptr.Some? {
        if view.Some? && ptr.value in memory.live && memory.live[ptr.value] == Block(view.value, bytes) {
          memory.live := memory.live - {ptr.value};
        } else {
          memory.mismatch := true;
        }
        ptr := None;
        bytes := 0;
      }
    }
  }

  // ---------------------------------------------------------------------------------------
  // Every run

  datatype Op =
    | ConstructEmpty(id: nat)
    | Construct(id: nat, bytes: nat, view: nat)
    | MoveConstruct(id: nat, from: nat)
    | MoveAssign(id: nat, from: nat)
    | Release(id: nat)
    | Destroy(id: nat)

  /** `buffers` are the buffers alive, by name; `forgotten` the blocks owned by the target of a move
      assignment from another buffer. */
  datatype World = World(memory: Memory, buffers: map<nat, Buf>, forgotten: set<nat>)

  function Empty(): World
  {
    World(Memory(map[], 0, false), map[], {})
  }

  function FreeBlock(m: Memory, b: Buf): Memory
  {
    if b.ptr.Some? then Deallocate(m, b) else m
  }

  function Next(w: World, op: Op): World
  {
    match op
    case ConstructEmpty(id) => if id in w.buffers then w else w.(buffers := w.buffers[id := MOVED])
    case Construct(id, bytes, view) =>
      if id in w.buffers then w else
      var (m, p) := Allocate(w.memory, view, bytes);
      w.(memory := m, buffers := w.buffers[id := Buf(Some(view), bytes, Some(p))])
    case MoveConstruct(id, from) =>
      if id in w.buffers || from !in w.buffers then w else
      w.(buffers := w.buffers[id := w.buffers[from]][from := MOVED])
    case MoveAssign(id, from) =>
      if id !in w.buffers || from !in w.buffers || id == from then w else
      var lost := if w.buffers[id].ptr.Some? then {w.buffers[id].ptr.value} else {};
      w.(buffers := w.buffers[id := w.buffers[from]][from := MOVED], forgotten := w.forgotten + lost)
    case Release(id) =>
      if id !in w.buffers || w.buffers[id].ptr.None? then w else
      w.(memory := FreeBlock(w.memory, w.buffers[id]), buffers := w.buffers[id := Buf(w.buffers[id].view, 0, None)])
    case Destroy(id) =>
      if id !in w.buffers then w else
      w.(memory := FreeBlock(w.memory, w.buffers[id]), buffers := w.buffers - {id})
  }

  function Run(ops: seq<Op>): World
  {
    if ops == [] then Empty() else Next(Run(ops[..|ops| - 1]), ops[|ops| - 1])
  }

  ghost predicate Owns(w: World, id: nat, p: nat)
  {
    id in w.buffers && w.buffers[id].ptr == Some(p)
  }

  /** What a buffer owns is a live block of the resource and size it remembers; no block has two
      owners; and the live blocks are exactly those owned or forgotten. */
  ghost predicate Inv(w: World)
  {
    && !w.memory.mismatch
    && (forall id, p :: Owns(w, id, p) ==>
          && w.buffers[id].view.Some? && p in w.memory.live && p !in w.forgotten
          && w.memory.live[p] == Block(w.buffers[id].view.value, w.buffers[id].bytes))
    && (forall id, id', p :: Owns(w, id, p) && Owns(w, id', p) ==> id == id')
    && (forall p :: p in w.memory.live ==> p < w.memory.next && (p in w.forgotten || exists id :: Owns(w, id, p)))
    && (forall p :: p in w.forgotten ==> p in w.memory.live)
  }

  lemma EmptyInv(w: World, id: nat)
    requires Inv(w)
    ensures Inv(Next(w, ConstructEmpty(id)))
  {
    assert forall d, p :: Owns(Next(w, ConstructEmpty(id)), d, p) <==> Owns(w, d, p);
  }

  lemma ConstructInv(w: World, id: nat, bytes: nat, view: nat)
    requires Inv(w)
    ensures Inv(Next(w, Construct(id, bytes, view)))
  {
    var w' := Next(w, Construct(id, bytes, view));
    if id !in w.buffers {
      assert Owns(w', id, w.memory.next);
      assert forall d, p :: d != id ==> (Owns(w', d, p) <==> Owns(w, d, p));
      assert forall d, p :: Owns(w, d, p) ==> d != id;
      assert w.memory.next !in w.memory.live;
    }
  }

  /** The block of `from` becomes the block of `id`, whose own is forgotten. */
  lemma MoveInv(w: World, id: nat, from: nat, w': World)
    requires Inv(w) && from in w.buffers && id != from
    requires w'.memory == w.memory && w'.buffers == w.buffers[id := w.buffers[from]][from := MOVED]
    requires w'.forgotten == w.forgotten + (set p | p in w.memory.live && Owns(w, id, p))
    ensures Inv(w')
  {
    assert forall p :: Owns(w', id, p) <==> Owns(w, from, p);
    assert forall p :: !Owns(w', from, p);
    assert forall d, p :: d != id && d != from ==> (Owns(w', d, p) <==> Owns(w, d, p));
    forall p | p in w'.memory.live ensures p in w'.forgotten || exists d :: Owns(w', d, p) {
      if p !in w.forgotten {
        var d :| Owns(w, d, p);
        assert d == from ==> Owns(w', id, p);
        assert d != id && d != from ==> Owns(w', d, p);
      }
    }
  }

  /** A buffer gives its block back. */
  lemma FreeInv(w: World, id: nat, w': World)
    requires Inv(w) && id in w.buffers && w'.memory == FreeBlock(w.memory, w.buffers[id]) && w'.forgotten == w.forgotten
    requires w'.buffers == w.buffers - {id} || (w'.buffers == w.buffers[id := Buf(w.buffers[id].view, 0, None)])
    ensures Inv(w')
  {
    assert forall p :: !Owns(w', id, p);
    assert forall d, p :: d != id ==> (Owns(w', d, p) <==> Owns(w, d, p));
    assert w.buffers[id].ptr.Some? ==> Owns(w, id, w.buffers[id].ptr.value);
    forall p | p in w'.memory.live ensures p in w'.forgotten || exists d :: Owns(w', d, p) {
      if p !in w.forgotten {
        var d :| Owns(w, d, p);
        assert d != id;
        assert Owns(w', d, p);
      }
    }
  }

  lemma NextInv(w: World, op: Op)
    requires Inv(w)
    ensures Inv(Next(w, op))
  {
    var w' := Next(w, op);
    match op
    case ConstructEmpty(id) => EmptyInv(w, id);
    case Construct(id, bytes, view) => ConstructInv(w, id, bytes, view);
    case MoveConstruct(id, from) =>
      if id !in w.buffers && from in w.buffers {
        assert (set p | p in w.memory.live && Owns(w, id, p)) == {};
        MoveInv(w, id, from, w');
      }
    case MoveAssign(id, from) =>
      if id in w.buffers && from in w.buffers && id != from {
        var lost := if w.buffers[id].ptr.Some? then {w.buffers[id].ptr.value} else {};
        assert forall p :: p in lost ==> Owns(w, id, p);
        assert (set p | p in w.memory.live && Owns(w, id, p)) == lost;
        MoveInv(w, id, from, w');
      }
    case Release(id) => if id in w.buffers && w.buffers[id].ptr.Some? { FreeInv(w, id, w'); }
    case Destroy(id) => if id in w.buffers { FreeInv(w, id, w'); }
  }

  lemma {:induction false} RunInv(ops: seq<Op>)
    ensures Inv(Run(ops))
  {
    if ops != [] {
      RunInv(ops[..|ops| - 1]);
      NextInv(Run(ops[..|ops| - 1]), ops[|ops| - 1]);
    }
  }

  /** Over every run, each deallocation matches one live allocation of the same resource and size,
      and no block has two owners; once every buffer is destroyed, the blocks never given back are
      exactly those that belonged to the target of a move assignment from another buffer. */
  lemma BlocksAreFreedOnce(ops: seq<Op>)
    ensures !Run(ops).memory.mismatch
    ensures forall id, id', p :: Owns(Run(ops), id, p) && Owns(Run(ops), id', p) ==> id == id'
    ensures Run(ops).buffers == map[] ==> Run(ops).memory.live.Keys == Run(ops).forgotten
  {
    RunInv(ops);
    var w := Run(ops);
    if w.buffers == map[] {
      assert forall id, p :: !Owns(w, id, p);
    }
  }

  /** The run assigns to a buffer that still owns a block. */
  ghost predicate Overwrites(ops: seq<Op>)
  {
    ops != [] &&
    var k := |ops| - 1;
    var w := Run(ops[..k]);
    || Overwrites(ops[..k])
    || (ops[k].MoveAssign? && ops[k].id != ops[k].from && ops[k].from in w.buffers &&
        ops[k].id in w.buffers && w.buffers[ops[k].id].ptr.Some?)
  }

  lemma {:induction false} ForgetsExactly(ops: seq<Op>)
    ensures Run(ops).forgotten != {} <==> Overwrites(ops)
  {
    if ops != [] {
      var k := |ops| - 1;
      var w := Run(ops[..k]);
      ForgetsExactly(ops[..k]);
      if ops[k].MoveAssign? && ops[k].id in w.buffers && w.buffers[ops[k].id].ptr.Some? {
        var p := w.buffers[ops[k].id].ptr.value;
        assert Overwrites(ops) ==> Overwrites(ops[..k]) || p in Run(ops).forgotten;
      }
    }
  }

  /** A block that is allocated and that no buffer will ever give back. */
  ghost predicate Lost(w: World, p: nat)
  {
    p in w.memory.live && forall id :: !Owns(w, id, p)
  }

  /** Memory is lost by a run exactly when it assigns to a buffer that still owns a block; and once every
      buffer is destroyed, memory is still allocated exactly then. */
  lemma LeaksExactly(ops: seq<Op>)
    ensures (exists p :: Lost(Run(ops), p)) <==> Overwrites(ops)
    ensures Run(ops).buffers == map[] ==> (Run(ops).memory.live != map[] <==> Overwrites(ops))
  {
    RunInv(ops);
    ForgetsExactly(ops);
    BlocksAreFreedOnce(ops);
    var w := Run(ops);
    if w.forgotten != {} {
      var p :| p in w.forgotten;
      assert Lost(w, p);
    }
    assert w.memory.live == map[] <==> w.memory.live.Keys == {};
  }

  lemma RunNext(ops: seq<Op>, op: Op)
    ensures Run(ops + [op]) == Next(Run(ops), op)
  {
    assert (ops + [op])[..|ops|] == ops;
  }

  /** Two buffers, one assigned over the other, both destroyed: the first block is never given back. */
  lemma AssignmentLeaks()
    ensures var w := Run([Construct(0, 8, 0), Construct(1, 8, 0), MoveAssign(0, 1), Destroy(0), Destroy(1)]);
            w.buffers == map[] && w.memory.live == map[0 := Block(0, 8)]
  {
    var made := [Construct(0, 8, 0), Construct(1, 8, 0)];
    var moved := made + [MoveAssign(0, 1)];
    var one := moved + [Destroy(0)];
    assert made == [] + [Construct(0, 8, 0)] + [Construct(1, 8, 0)];
    RunNext([], Construct(0, 8, 0));
    RunNext([Construct(0, 8, 0)], Construct(1, 8, 0));
    RunNext(made, MoveAssign(0, 1));
    RunNext(moved, Destroy(0));
    RunNext(one, Destroy(1));
    assert Run(made).buffers == map[0 := Buf(Some(0), 8, Some(0)), 1 := Buf(Some(0), 8, Some(1))];
    assert Run(moved).buffers == map[0 := Buf(Some(0), 8, Some(1)), 1 := MOVED];
    assert Run(one).memory.live == map[0 := Block(0, 8)] && Run(one).buffers == map[1 := MOVED];
    assert one + [Destroy(1)] ==
           [Construct(0, 8, 0), Construct(1, 8, 0), MoveAssign(0, 1), Destroy(0), Destroy(1)];
  }

  // ---------------------------------------------------------------------------------------
  // The fate of every block

  /** Blocks are numbered in the order they are allocated. Each is held by a buffer, was given back, or was
      abandoned when its buffer was assigned another. */
  datatype Fate = HeldBy(id: nat) | GivenBack | Abandoned

  datatype Ledger = Ledger(alive: set<nat>, blocks: seq<Block>, fates: seq<Fate>)

  /** What `id` holds meets fate `f`. */
  ghost function Meets(fates: seq<Fate>, id: nat, f: Fate): (r: seq<Fate>)
    ensures |r| == |fates|
  {
    seq(|fates|, p requires 0 <= p < |fates| => if fates[p] == HeldBy(id) then f else fates[p])
  }

  ghost function Note(l: Ledger, op: Op): Ledger
  {
    match op
    case ConstructEmpty(id) => l.(alive := l.alive + {id})
    case Construct(id, bytes, view) =>
      if id in l.alive then l else Ledger(l.alive + {id}, l.blocks + [Block(view, bytes)], l.fates + [HeldBy(id)])
    case MoveConstruct(id, from) =>
      if id in l.alive || from !in l.alive then l
      else l.(alive := l.alive + {id}, fates := Meets(l.fates, from, HeldBy(id)))
    case MoveAssign(id, from) =>
      if id !in l.alive || from !in l.alive || id == from then l
      else l.(fates := Meets(Meets(l.fates, id, Abandoned), from, HeldBy(id)))
    case Release(id) => if id in l.alive then l.(fates := Meets(l.fates, id, GivenBack)) else l
    case Destroy(id) =>
      if id in l.alive then l.(alive := l.alive - {id}, fates := Meets(l.fates, id, GivenBack)) else l
  }

  ghost function Notes(ops: seq<Op>): Ledger
  {
    if ops == [] then Ledger({}, [], []) else Note(Notes(ops[..|ops| - 1]), ops[|ops| - 1])
  }

  ghost predicate FateAgrees(w: World, l: Ledger, p: nat)
  {
    && p < |l.fates| == |l.blocks|
    && (p in w.memory.live <==> !l.fates[p].GivenBack?)
    && (p in w.memory.live ==> w.memory.live[p] == l.blocks[p])
    && (p in w.forgotten <==> l.fates[p].Abandoned?)
    && (forall id :: Owns(w, id, p) <==> l.fates[p] == HeldBy(id))
  }

  ghost predicate Agrees(w: World, l: Ledger)
  {
    && w.buffers.Keys == l.alive
    && w.memory.next == |l.fates| == |l.blocks|
    && (forall p :: 0 <= p < |l.fates| ==> FateAgrees(w, l, p))
  }

  lemma OwnedIsKnown(w: World, l: Ledger, id: nat, p: nat)
    requires Inv(w) && Agrees(w, l) && Owns(w, id, p)
    ensures p < |l.fates| && l.fates[p] == HeldBy(id)
  {
    assert p in w.memory.live;
    assert FateAgrees(w, l, p);
  }

  lemma ConstructAgrees(w: World, l: Ledger, op: Op)
    requires Inv(w) && Agrees(w, l) && (op.Construct? || op.ConstructEmpty?)
    ensures Agrees(Next(w, op), Note(l, op))
  {
    var w', l' := Next(w, op), Note(l, op);
    if op.id !in w.buffers {
      forall p | 0 <= p < |l'.fates| ensures FateAgrees(w', l', p) {
        if p < |l.fates| {
          assert FateAgrees(w, l, p);
          assert forall d :: d != op.id ==> (Owns(w', d, p) <==> Owns(w, d, p));
        } else {
          forall d | Owns(w, d, p) ensures false { OwnedIsKnown(w, l, d, p); }
          assert p !in w.memory.live && p !in w.forgotten;
          assert forall d :: Owns(w', d, p) <==> d == op.id;
        }
      }
    } else {
      assert w' == w && l' == l;
    }
  }

  lemma MoveAgrees(w: World, l: Ledger, op: Op)
    requires Inv(w) && Agrees(w, l) && (op.MoveConstruct? || op.MoveAssign?)
    ensures Agrees(Next(w, op), Note(l, op))
  {
    var w', l' := Next(w, op), Note(l, op);
    var id, from := op.id, op.from;
    if from in w.buffers && id != from && (id in w.buffers <==> op.MoveAssign?) {
      forall p | 0 <= p < |l'.fates| ensures FateAgrees(w', l', p) {
        assert FateAgrees(w, l, p);
        assert Owns(w', id, p) <==> Owns(w, from, p);
        assert !Owns(w', from, p);
        assert forall d :: d != id && d != from ==> (Owns(w', d, p) <==> Owns(w, d, p));
      }
    }
  }

  lemma FreeAgrees(w: World, l: Ledger, op: Op)
    requires Inv(w) && Agrees(w, l) && (op.Release? || op.Destroy?)
    ensures Agrees(Next(w, op), Note(l, op))
  {
    var w', l' := Next(w, op), Note(l, op);
    if op.id in w.buffers {
      var b := w.buffers[op.id];
      if b.ptr.Some? { assert Owns(w, op.id, b.ptr.value); }
      forall p | 0 <= p < |l'.fates| ensures FateAgrees(w', l', p) {
        assert FateAgrees(w, l, p);
        assert !Owns(w', op.id, p);
        assert forall d :: d != op.id ==> (Owns(w', d, p) <==> Owns(w, d, p));
        assert Owns(w, op.id, p) <==> b.ptr == Some(p);
      }
    }
  }

  /** In every run: the buffers alive are those the operations made and did not destroy; and of every block ever
      allocated, the resource and size it was allocated with, and whether and by whom it is held, given back or
      abandoned, are what the ledger of the operations says. */
  lemma {:induction false} FatesTold(ops: seq<Op>)
    ensures Agrees(Run(ops), Notes(ops))
  {
    if ops != [] {
      var before, op := ops[..|ops| - 1], ops[|ops| - 1];
      FatesTold(before);
      RunInv(before);
      if op.Construct? || op.ConstructEmpty? {
        ConstructAgrees(Run(before), Notes(before), op);
      } else if op.MoveConstruct? || op.MoveAssign? {
        MoveAgrees(Run(before), Notes(before), op);
      } else {
        FreeAgrees(Run(before), Notes(before), op);
      }
    }
  }
}
