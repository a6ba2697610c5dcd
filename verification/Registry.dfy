/** The Architect's registry of machines and their workers. The bodies modelled here are commented out
    at this revision of the source; the class that declares them is not. Counters do not wrap. */
module Registry {
  import opened Finite
  import opened Options

  /** `ids` holds the instance ids of each machine, `byId` the address of each instance; `owner` is
      never erased, so its keys are the ids ever handed out. */
  datatype Reg = Reg(
    addresses: set<string>,
    byId: map<nat, string>,
    owner: map<nat, nat>,
    ids: map<nat, set<nat>>,
    streams: set<nat>,
    nextId: nat,
    nextMachine: nat)

  const FIRST_ID := 42

  function Empty(): Reg
  {
    Reg({}, map[], map[], map[], {}, FIRST_ID, 0)
  }

  function IdsOf(r: Reg, m: nat): set<nat>
  {
    if m in r.ids then r.ids[m] else {}
  }

  /** One worker address gets the next id. */
  function AssignOne(r: Reg, m: nat, a: string): Reg
  {
    Reg(r.addresses + {a}, r.byId[r.nextId := a], r.owner[r.nextId := m],
        r.ids[m := IdsOf(r, m) + {r.nextId}], r.streams, r.nextId + 1, r.nextMachine)
  }

  function Assign(r: Reg, m: nat, req: seq<string>): Reg
  {
    if req == [] then r else AssignOne(Assign(r, m, req[..|req| - 1]), m, req[|req| - 1])
  }

  ghost predicate Known(r: Reg, req: seq<string>)
  {
    exists k :: 0 <= k < |req| && req[k] in r.addresses
  }

  /** `register_workers`; the request is refused when an address is already known. */
  ghost function Register(r: Reg, req: seq<string>): Reg
  {
    if Known(r, req) then r
    else Assign(r.(streams := r.streams + {r.nextMachine}), r.nextMachine, req).(nextMachine := r.nextMachine + 1)
  }

  /** Erasing the addresses of `ids` one by one finds each of them there. */
  ghost predicate Erasable(r: Reg, ids: set<nat>)
  {
    && ids <= r.byId.Keys
    && (forall i :: i in ids ==> r.byId[i] in r.addresses)
    && (forall i, j :: i in ids && j in ids && r.byId[i] == r.byId[j] ==> i == j)
  }

  ghost function Erased(r: Reg, ids: set<nat>): Reg
    requires ids <= r.byId.Keys
  {
    r.(addresses := r.addresses - (set i | i in ids :: r.byId[i]), byId := r.byId - ids)
  }

  /** `remove_machine`; none when a check fires. */
  ghost function Remove(r: Reg, m: nat): Option<Reg>
  {
    if m !in r.ids || !Erasable(r, r.ids[m]) then None
    else Some(Erased(r, r.ids[m]).(ids := r.ids - {m}, streams := r.streams - {m}))
  }

  class ServerResources {
    var addresses: set<string>
    var byId: map<nat, string>
    var owner: map<nat, nat>
    var ids: map<nat, set<nat>>
    var streams: set<nat>
    var nextId: nat
    var nextMachine: nat

    ghost function View(): Reg
      reads this
    {
      Reg(addresses, byId, owner, ids, streams, nextId, nextMachine)
    }

    constructor ()
      ensures View() == Empty()
    {
      addresses, byId, owner, ids, streams := {}, map[], map[], map[], {};
      nextId, nextMachine := FIRST_ID, 0;
    }

    method Unknown(req: seq<string>) returns (ok: bool)
      ensures ok <==> !Known(View(), req)
    {
      for k := 0 to |req|
        invariant forall j :: 0 <= j < k ==> req[j] !in addresses
      {
        if req[k] in addresses {
          return false;
        }
      }
      return true;
    }

    method AssignWorker(machine: nat, a: string) returns (id: nat)
      modifies this
      ensures id == old(nextId) && View() == AssignOne(old(View()), machine, a)
    {
      id := nextId;
      nextId := nextId + 1;
      addresses := addresses + {a};
      byId := byId[id := a];
      owner := owner[id := machine];
      ids := ids[machine := (if machine in ids then ids[machine] else {}) + {id}];
    }

    method RegisterWorkers(req: seq<string>) returns (ok: bool, machine: nat, instances: seq<nat>)
      modifies this
      ensures ok <==> !Known(old(View()), req)
      ensures View() == Register(old(View()), req)
      ensures ok ==> machine == old(nextMachine) && |instances| == |req|
      ensures ok ==> forall k :: 0 <= k < |req| ==> instances[k] == old(nextId) + k
    {
      machine, instances := nextMachine, [];
      ok := Unknown(req);
      if !ok {
        return;
      }
      streams := streams + {machine};
      ghost var base := View();
      for k := 0 to |req|
        invariant View() == Assign(base, machine, req[..k])
        invariant |instances| == k && nextId == base.nextId + k && nextMachine == machine
        invariant forall j :: 0 <= j < k ==> instances[j] == base.nextId + j
      {
        assert req[..k + 1][..k] == req[..k];
        var id := AssignWorker(machine, req[k]);
        instances := instances + [id];
      }
      assert req[..|req|] == req;
      nextMachine := nextMachine + 1;
    }

    method RemoveMachine(m: nat) returns (ok: bool)
      modifies this
      ensures ok <==> Remove(old(View()), m).Some?
      ensures ok ==> View() == Remove(old(View()), m).value
    {
      if m !in ids {
        return false;
      }
      var todo := ids[m];
      ghost var done: set<nat> := {};
      ghost var before := View();
      assert Erased(before, done) == before;
      while todo != {}
        invariant todo + done == before.ids[m] && todo !! done
        invariant Erasable(before, done) && View() == Erased(before, done)
        decreases todo
      {
        var id :| id in todo;
        if id !in byId || byId[id] !in addresses {
          return false;
        }
        addresses := addresses - {byId[id]};
        byId := byId - {id};
        todo, done := todo - {id}, done + {id};
      }
      ids := ids - {m};
      streams := streams - {m};
      return true;
    }
  }

  // ---------------------------------------------------------------------------------------
  // Agreement

  ghost predicate Injective(byId: map<nat, string>)
  {
    forall i, j :: i in byId && j in byId && byId[i] == byId[j] ==> i == j
  }

  /** The address set holds exactly the values of the id-to-address map, which is injective. */
  ghost predicate AddressesAgree(addresses: set<string>, byId: map<nat, string>)
  {
    && (forall a :: a in addresses <==> exists i :: i in byId && byId[i] == a)
    && Injective(byId)
  }

  /** The ids in use are the disjoint union of the machines' id sets, none of them empty, and each
      belongs to its owner; the ids ever handed out are exactly those below the counter; and all
      machines are numbered below `limit`. */
  ghost predicate IdsAgree(r: Reg, limit: nat)
  {
    && r.nextId >= FIRST_ID
    && (forall i :: i in r.owner <==> FIRST_ID <= i < r.nextId)
    && (forall m, i :: m in r.ids && i in r.ids[m] ==> i in r.byId && i in r.owner && r.owner[i] == m)
    && (forall i :: i in r.byId ==> i in r.owner && r.owner[i] in r.ids && i in r.ids[r.owner[i]])
    && (forall m :: m in r.ids ==> m < limit && r.ids[m] != {})
  }

  ghost predicate AgreesBelow(r: Reg, limit: nat)
  {
    AddressesAgree(r.addresses, r.byId) && IdsAgree(r, limit)
  }

  ghost predicate Agrees(r: Reg)
  {
    AgreesBelow(r, r.nextMachine)
  }

  /** At least one worker, and no address twice. */
  ghost predicate WellFormed(req: seq<string>)
  {
    req != [] && Distinct(req)
  }

  lemma AddAddress(addresses: set<string>, byId: map<nat, string>, id: nat, a: string)
    requires AddressesAgree(addresses, byId) && a !in addresses && id !in byId
    ensures AddressesAgree(addresses + {a}, byId[id := a])
  {
    var byId' := byId[id := a];
    forall b ensures b in addresses + {a} <==> exists i :: i in byId' && byId'[i] == b {
      if b == a {
        assert id in byId' && byId'[id] == b;
      } else if b in addresses {
        var i :| i in byId && byId[i] == b;
        assert i in byId' && byId'[i] == b;
      }
    }
  }

  lemma AddId(r: Reg, m: nat, a: string)
    requires IdsAgree(r, m + 1)
    ensures r.nextId !in r.byId && IdsAgree(AssignOne(r, m, a), m + 1)
  {
    assert r.nextId !in r.byId && r.nextId !in r.owner;
  }

  lemma AssignOneAgrees(r: Reg, m: nat, a: string)
    requires AgreesBelow(r, m + 1) && a !in r.addresses
    ensures AgreesBelow(AssignOne(r, m, a), m + 1)
  {
    AddId(r, m, a);
    AddAddress(r.addresses, r.byId, r.nextId, a);
  }

  /** What assigning does: the addresses are added. */
  lemma {:induction false} AssignAddresses(r: Reg, m: nat, req: seq<string>)
    ensures var r' := Assign(r, m, req);
            && r'.nextMachine == r.nextMachine && r'.streams == r.streams
            && (forall a :: a in r'.addresses <==> a in r.addresses || a in req)
  {
    if req != [] {
      var k := |req| - 1;
      AssignAddresses(r, m, req[..k]);
      assert req == req[..k] + [req[k]];
    }
  }

  /** The ids go to them in order. */
  lemma {:induction false} AssignMaps(r: Reg, m: nat, req: seq<string>)
    ensures var r' := Assign(r, m, req);
            && r'.nextId == r.nextId + |req|
            && (forall i :: i in r'.byId <==> i in r.byId || r.nextId <= i < r'.nextId)
            && (forall i :: r.nextId <= i < r'.nextId ==> r'.byId[i] == req[i - r.nextId])
            && (forall i :: i in r.byId && i < r.nextId ==> r'.byId[i] == r.byId[i])
  {
    if req != [] { AssignMaps(r, m, req[..|req| - 1]); }
  }

  /** For this machine alone. */
  lemma {:induction false} AssignIds(r: Reg, m: nat, req: seq<string>)
    ensures var r' := Assign(r, m, req);
            && r'.nextId == r.nextId + |req|
            && (forall i :: i in IdsOf(r', m) <==> i in IdsOf(r, m) || r.nextId <= i < r'.nextId)
            && (m in r'.ids <==> m in r.ids || req != [])
            && (forall n :: n != m ==> (n in r'.ids <==> n in r.ids))
            && (forall n :: n != m && n in r.ids ==> r'.ids[n] == r.ids[n])
  {
    if req != [] { AssignIds(r, m, req[..|req| - 1]); }
  }

  /** And the owners. */
  lemma {:induction false} AssignOwners(r: Reg, m: nat, req: seq<string>)
    ensures var r' := Assign(r, m, req);
            && r'.nextId == r.nextId + |req|
            && (forall i :: i in r'.owner <==> i in r.owner || r.nextId <= i < r'.nextId)
            && (forall i :: r.nextId <= i < r'.nextId ==> r'.owner[i] == m)
            && (forall i :: i in r.owner && i < r.nextId ==> r'.owner[i] == r.owner[i])
  {
    if req != [] { AssignOwners(r, m, req[..|req| - 1]); }
  }

  lemma {:induction false} AssignAgrees(r: Reg, m: nat, req: seq<string>)
    requires AgreesBelow(r, m + 1) && Distinct(req) && !Known(r, req)
    ensures AgreesBelow(Assign(r, m, req), m + 1)
  {
    if req != [] {
      var k := |req| - 1;
      assert forall i :: 0 <= i < k ==> req[..k][i] == req[i];
      AssignAgrees(r, m, req[..k]);
      AssignAddresses(r, m, req[..k]);
      assert req[k] !in req[..k] && req[k] !in r.addresses;
      AssignOneAgrees(Assign(r, m, req[..k]), m, req[k]);
    }
  }

  lemma RegisterAgrees(r: Reg, req: seq<string>)
    requires Agrees(r) && Distinct(req)
    ensures Agrees(Register(r, req))
  {
    if !Known(r, req) {
      AssignAgrees(r.(streams := r.streams + {r.nextMachine}), r.nextMachine, req);
    }
  }

  lemma EraseAddresses(r: Reg, ids: set<nat>)
    requires AddressesAgree(r.addresses, r.byId) && ids <= r.byId.Keys
    ensures Erasable(r, ids) && AddressesAgree(Erased(r, ids).addresses, Erased(r, ids).byId)
  {
    forall i | i in ids ensures r.byId[i] in r.addresses { }
    var r' := Erased(r, ids);
    forall a ensures a in r'.addresses <==> exists i :: i in r'.byId && r'.byId[i] == a {
      if a in r'.addresses {
        var i :| i in r.byId && r.byId[i] == a;
        assert i !in ids;
        assert i in r'.byId && r'.byId[i] == a;
      }
    }
  }

  /** Removing a registered machine never trips a check, and frees exactly its ids. */
  lemma RemoveAgrees(r: Reg, m: nat)
    requires Agrees(r) && m in r.ids
    ensures Remove(r, m).Some? && Agrees(Remove(r, m).value)
    ensures Remove(r, m).value.byId.Keys == r.byId.Keys - r.ids[m]
  {
    EraseAddresses(r, r.ids[m]);
  }

  // ---------------------------------------------------------------------------------------
  // Runs

  datatype Op = RegisterOp(req: seq<string>) | RemoveOp(m: nat)

  ghost predicate Fair(op: Op)
  {
    op.RegisterOp? ==> WellFormed(op.req)
  }

  /** None once a check has fired. */
  ghost function Run(ops: seq<Op>): Option<Reg>
  {
    if ops == [] then Some(Empty())
    else match Run(ops[..|ops| - 1])
         case None => None
         case Some(r) =>
           var op := ops[|ops| - 1];
           if op.RegisterOp? then Some(Register(r, op.req)) else Remove(r, op.m)
  }

  /** Every run of well-formed registrations and of removals that fires no check keeps the registry in
      agreement. */
  lemma {:induction false} RegistryAgrees(ops: seq<Op>)
    requires forall k :: 0 <= k < |ops| ==> Fair(ops[k])
    ensures Run(ops).Some? ==> Agrees(Run(ops).value)
  {
    if ops != [] {
      var k := |ops| - 1;
      assert forall j :: 0 <= j < k ==> ops[..k][j] == ops[j];
      RegistryAgrees(ops[..k]);
      assert Fair(ops[k]);
      if Run(ops[..k]).Some? {
        var r := Run(ops[..k]).value;
        if ops[k].RegisterOp? {
          RegisterAgrees(r, ops[k].req);
        } else if ops[k].m in r.ids {
          RemoveAgrees(r, ops[k].m);
        }
      }
    }
  }

  /** What a registration gives its new machine: the next ids, in the order of its addresses. */
  lemma RegisterMaps(r: Reg, req: seq<string>)
    requires r.nextMachine !in r.ids && !Known(r, req)
    ensures var m, r' := r.nextMachine, Register(r, req);
            && (m in r'.ids <==> req != [])
            && (forall i :: i in IdsOf(r', m) <==> r.nextId <= i < r.nextId + |req|)
            && (forall i :: i in IdsOf(r', m) ==> i in r'.byId && r'.byId[i] == req[i - r.nextId])
            && (forall a :: a in req ==> a in r'.addresses)
  {
    var m, r' := r.nextMachine, Register(r, req);
    var start := r.(streams := r.streams + {m});
    AssignMaps(start, m, req);
    AssignAddresses(start, m, req);
    AssignIds(start, m, req);
    assert m !in r.ids && IdsOf(start, m) == {};
    assert IdsOf(r', m) == IdsOf(Assign(start, m, req), m);
    assert r'.byId == Assign(start, m, req).byId && r'.addresses == Assign(start, m, req).addresses;
  }

  /** The first machine is number 0, and its ids start at 42. */
  lemma FirstIds(req: seq<string>)
    ensures forall i :: i in IdsOf(Register(Empty(), req), 0) <==> 42 <= i < 42 + |req|
  {
    assert !Known(Empty(), req);
    RegisterMaps(Empty(), req);
  }

  /** The condition is exact: a machine just registered can be removed without a check firing exactly
      when its request named at least one worker and no address twice. */
  lemma RemovableExactly(r: Reg, req: seq<string>)
    requires Agrees(r) && !Known(r, req)
    ensures Remove(Register(r, req), r.nextMachine).Some? <==> WellFormed(req)
  {
    var m, r' := r.nextMachine, Register(r, req);
    RegisterMaps(r, req);
    if req != [] {
      assert r'.ids[m] == IdsOf(r', m);
      if !Distinct(req) {
        var i, j :| 0 <= i < j < |req| && req[i] == req[j];
        var x, y := r.nextId + i, r.nextId + j;
        assert x in r'.ids[m] && y in r'.ids[m] && r'.byId[x] == r'.byId[y];
      } else {
        forall i | i in r'.ids[m] ensures r'.byId[i] in r'.addresses {
          assert r'.byId[i] == req[i - r.nextId];
        }
      }
    }
  }

  // ---------------------------------------------------------------------------------------
  // Which runs survive

  /** What a clerk would write down: the machines registered and not removed since, with the request of
      each and the first of its ids. */
  datatype Entry = Entry(first: nat, req: seq<string>)

  datatype Ledger = Ledger(next: nat, nextId: nat, live: map<nat, Entry>)

  ghost predicate InUse(l: Ledger, a: string)
  {
    exists m :: m in l.live && a in l.live[m].req
  }

  ghost predicate Refuses(l: Ledger, req: seq<string>)
  {
    exists k :: 0 <= k < |req| && InUse(l, req[k])
  }

  ghost function Record(l: Ledger, op: Op): Ledger
  {
    if op.RemoveOp? then l.(live := l.live - {op.m})
    else if Refuses(l, op.req) then l
    else Ledger(l.next + 1, l.nextId + |op.req|, l.live[l.next := Entry(l.nextId, op.req)])
  }

  ghost function Records(ops: seq<Op>): Ledger
  {
    if ops == [] then Ledger(0, FIRST_ID, map[]) else Record(Records(ops[..|ops| - 1]), ops[|ops| - 1])
  }

  /** The machine was given to a registration that was accepted, named at least one worker and no address
      twice, and it has not been removed since. */
  ghost predicate Removable(l: Ledger, m: nat)
  {
    m in l.live && WellFormed(l.live[m].req)
  }

  ghost predicate Survivable(ops: seq<Op>)
  {
    forall k :: 0 <= k < |ops| && ops[k].RemoveOp? ==> Removable(Records(ops[..k]), ops[k].m)
  }

  ghost predicate HasId(e: Entry, i: int)
  {
    e.first <= i < e.first + |e.req|
  }

  ghost predicate EntryMatches(r: Reg, m: nat, e: Entry)
  {
    && FIRST_ID <= e.first && e.first + |e.req| <= r.nextId && m < r.nextMachine
    && (m in r.ids <==> e.req != [])
    && (m in r.ids ==> forall i :: i in r.ids[m] <==> HasId(e, i))
    && (forall i :: HasId(e, i) ==> i in r.byId && r.byId[i] == e.req[i - e.first] && i in r.owner && r.owner[i] == m)
  }

  /** No address belongs to two machines. */
  ghost predicate Apart(l: Ledger)
  {
    forall m, n, a :: m in l.live && n in l.live && a in l.live[m].req && a in l.live[n].req ==> m == n
  }

  /** The registry holds what the ledger says, and nothing else. */
  ghost predicate Matches(r: Reg, l: Ledger)
  {
    && r.nextMachine == l.next && r.nextId == l.nextId >= FIRST_ID
    && (forall m :: m in l.live ==> EntryMatches(r, m, l.live[m]))
    && (forall m :: m in r.ids ==> m in l.live)
    && (forall i :: i in r.owner <==> FIRST_ID <= i < r.nextId)
    && (forall i :: i in r.byId ==> i in r.owner && r.owner[i] in l.live && HasId(l.live[r.owner[i]], i))
    && (forall a :: a in r.addresses <==> InUse(l, a))
    && r.streams == l.live.Keys
    && Apart(l)
  }

  /** The next machine joins the ledger. */
  lemma RecordEntry(l: Ledger, req: seq<string>)
    requires Apart(l) && !Refuses(l, req) && l.next !in l.live
    ensures var l' := Record(l, RegisterOp(req));
            Apart(l') && forall a :: InUse(l', a) <==> InUse(l, a) || a in req
  {
    var l' := Record(l, RegisterOp(req));
    forall a ensures InUse(l', a) <==> InUse(l, a) || a in req {
      if a in req { assert l.next in l'.live && a in l'.live[l.next].req; }
      if InUse(l, a) {
        var m :| m in l.live && a in l.live[m].req;
        assert m in l'.live && a in l'.live[m].req;
      }
    }
    forall m, a | m in l.live && a in l.live[m].req ensures a !in req {
      assert InUse(l, a);
    }
  }

  /** What a registration does to the registry. */
  ghost predicate Registered(r: Reg, req: seq<string>, r': Reg)
  {
    var m := r.nextMachine;
    && r'.nextId == r.nextId + |req| && r'.nextMachine == m + 1 && r'.streams == r.streams + {m}
    && EntryMatches(r', m, Entry(r.nextId, req))
    && (forall n :: n != m ==> (n in r'.ids <==> n in r.ids))
    && (forall n :: n != m && n in r.ids ==> r'.ids[n] == r.ids[n])
    && (forall i :: i in r'.byId <==> i in r.byId || r.nextId <= i < r'.nextId)
    && (forall i :: i in r.byId && i < r.nextId ==> r'.byId[i] == r.byId[i])
    && (forall i :: i in r'.owner <==> i in r.owner || r.nextId <= i < r'.nextId)
    && (forall i :: i in r.owner && i < r.nextId ==> r'.owner[i] == r.owner[i])
    && (forall a :: a in r'.addresses <==> a in r.addresses || a in req)
  }

  lemma RegisterEntry(r: Reg, req: seq<string>)
    requires r.nextMachine !in r.ids && !Known(r, req) && r.nextId >= FIRST_ID
    ensures EntryMatches(Register(r, req), r.nextMachine, Entry(r.nextId, req))
  {
    var m, r' := r.nextMachine, Register(r, req);
    var start := r.(streams := r.streams + {m});
    AssignMaps(start, m, req);
    AssignAddresses(start, m, req);
    AssignOwners(start, m, req);
    AssignIds(start, m, req);
    var e, made := Entry(r.nextId, req), Assign(start, m, req);
    assert r'.byId == made.byId && r'.owner == made.owner && r'.ids == made.ids && r'.nextId == made.nextId;
    assert r'.nextMachine == m + 1 && IdsOf(start, m) == {};
    assert m in r'.ids ==> r'.ids[m] == IdsOf(made, m);
  }

  lemma RegisterEffect(r: Reg, req: seq<string>)
    requires r.nextMachine !in r.ids && !Known(r, req) && r.nextId >= FIRST_ID
    ensures Registered(r, req, Register(r, req))
  {
    var start := r.(streams := r.streams + {r.nextMachine});
    RegisterEntry(r, req);
    AssignMaps(start, r.nextMachine, req);
    AssignAddresses(start, r.nextMachine, req);
    AssignOwners(start, r.nextMachine, req);
    AssignIds(start, r.nextMachine, req);
  }

  lemma OldEntry(r: Reg, req: seq<string>, r': Reg, m: nat, e: Entry)
    requires Registered(r, req, r') && EntryMatches(r, m, e)
    ensures EntryMatches(r', m, e)
  {
    forall i | HasId(e, i)
      ensures i in r'.byId && r'.byId[i] == e.req[i - e.first] && i in r'.owner && r'.owner[i] == m
    {
    }
  }

  lemma RegisteredMatches(r: Reg, l: Ledger, req: seq<string>, r': Reg)
    requires Matches(r, l) && Registered(r, req, r') && !Refuses(l, req)
    ensures Matches(r', Record(l, RegisterOp(req)))
  {
    var l' := Record(l, RegisterOp(req));
    RecordEntry(l, req);
    forall n | n in l'.live ensures EntryMatches(r', n, l'.live[n]) {
      if n != l.next { OldEntry(r, req, r', n, l.live[n]); }
    }
    forall i | i in r'.byId ensures i in r'.owner && r'.owner[i] in l'.live && HasId(l'.live[r'.owner[i]], i) {
      assert i in r.byId || HasId(l'.live[l.next], i);
    }
  }

  lemma RegisterMatches(r: Reg, l: Ledger, req: seq<string>)
    requires Matches(r, l)
    ensures Matches(Register(r, req), Record(l, RegisterOp(req)))
  {
    assert Known(r, req) <==> Refuses(l, req);
    if !Known(r, req) {
      RegisterEffect(r, req);
      RegisteredMatches(r, l, req, Register(r, req));
    }
  }

  /** Erasing a machine's addresses one by one works exactly when it named none twice. */
  lemma ErasableExactly(r: Reg, m: nat, e: Entry)
    requires EntryMatches(r, m, e) && m in r.ids
    requires forall a :: a in e.req ==> a in r.addresses
    ensures Erasable(r, r.ids[m]) <==> Distinct(e.req)
  {
    if Erasable(r, r.ids[m]) {
      forall i, j | 0 <= i < j < |e.req| ensures e.req[i] != e.req[j] {
        var x, y := e.first + i, e.first + j;
        assert HasId(e, x) && HasId(e, y);
      }
    }
    forall i | i in r.ids[m] ensures r.byId[i] in r.addresses {
      assert r.byId[i] == e.req[i - e.first];
    }
  }

  /** The addresses that go with a machine are those of its request. */
  lemma ErasedAddresses(r: Reg, m: nat, e: Entry, a: string)
    requires EntryMatches(r, m, e) && m in r.ids
    ensures a in (set i | i in r.ids[m] :: r.byId[i]) <==> a in e.req
  {
    if a in e.req {
      var k :| 0 <= k < |e.req| && e.req[k] == a;
      var i := e.first + k;
      assert HasId(e, i) && r.byId[i] == a;
    }
  }

  lemma RemoveAddresses(r: Reg, l: Ledger, m: nat)
    requires Matches(r, l) && m in r.ids && Erasable(r, r.ids[m])
    ensures var r', l' := Remove(r, m).value, Record(l, RemoveOp(m));
            Apart(l') && forall a :: a in r'.addresses <==> InUse(l', a)
  {
    var r', l' := Remove(r, m).value, Record(l, RemoveOp(m));
    forall a ensures a in r'.addresses <==> InUse(l', a) {
      ErasedAddresses(r, m, l.live[m], a);
      if a in r'.addresses {
        var n :| n in l.live && a in l.live[n].req;
        assert n in l'.live && a in l'.live[n].req;
      }
      if InUse(l', a) {
        var n :| n in l'.live && a in l'.live[n].req;
        assert n in l.live && a in l.live[n].req && n != m;
      }
    }
  }

  /** The entry of another machine is not touched. */
  lemma OtherEntry(r: Reg, l: Ledger, m: nat, n: nat)
    requires Matches(r, l) && m in r.ids && Erasable(r, r.ids[m]) && n in l.live && n != m
    ensures EntryMatches(Remove(r, m).value, n, l.live[n])
  {
    var r', e := Remove(r, m).value, l.live[n];
    assert EntryMatches(r, n, e);
    forall i | HasId(e, i)
      ensures i in r'.byId && r'.byId[i] == e.req[i - e.first] && i in r'.owner && r'.owner[i] == n
    {
      assert i !in r.ids[m] by {
        assert EntryMatches(r, m, l.live[m]);
      }
    }
  }

  lemma RemovedMatches(r: Reg, l: Ledger, m: nat)
    requires Matches(r, l) && m in r.ids && Erasable(r, r.ids[m])
    ensures Matches(Remove(r, m).value, Record(l, RemoveOp(m)))
  {
    var r', l' := Remove(r, m).value, Record(l, RemoveOp(m));
    RemoveAddresses(r, l, m);
    forall n | n in l'.live ensures EntryMatches(r', n, l'.live[n]) { OtherEntry(r, l, m, n); }
    forall i | i in r'.byId ensures i in r'.owner && r'.owner[i] in l'.live && HasId(l'.live[r'.owner[i]], i) {
      assert i in r.byId && i !in r.ids[m];
      assert EntryMatches(r, m, l.live[m]);
    }
  }

  lemma RemoveMatches(r: Reg, l: Ledger, m: nat)
    requires Matches(r, l)
    ensures Remove(r, m).Some? <==> Removable(l, m)
    ensures Remove(r, m).Some? ==> Matches(Remove(r, m).value, Record(l, RemoveOp(m)))
  {
    if m in r.ids {
      forall a | a in l.live[m].req ensures a in r.addresses {
        assert InUse(l, a);
      }
      ErasableExactly(r, m, l.live[m]);
      if Erasable(r, r.ids[m]) { RemovedMatches(r, l, m); }
    } else if m in l.live {
      assert EntryMatches(r, m, l.live[m]);
    }
  }

  lemma SurvivableGrows(ops: seq<Op>)
    requires ops != []
    ensures var k := |ops| - 1;
            Survivable(ops) <==>
            Survivable(ops[..k]) && (ops[k].RemoveOp? ==> Removable(Records(ops[..k]), ops[k].m))
  {
    var before := ops[..|ops| - 1];
    assert forall j :: 0 <= j < |before| ==> before[j] == ops[j] && before[..j] == ops[..j];
  }

  /** A run of registrations and removals, well formed or not, reaches its end without a check firing
      exactly when every removal in it names a removable machine; then the registry holds what the
      ledger says. */
  lemma {:induction false} SurvivesExactly(ops: seq<Op>)
    ensures Run(ops).Some? <==> Survivable(ops)
    ensures Run(ops).Some? ==> Matches(Run(ops).value, Records(ops))
  {
    if ops == [] {
      assert Apart(Records([]));
    } else {
      var k := |ops| - 1;
      SurvivesExactly(ops[..k]);
      SurvivableGrows(ops);
      if Run(ops[..k]).Some? {
        if ops[k].RegisterOp? {
          RegisterMatches(Run(ops[..k]).value, Records(ops[..k]), ops[k].req);
        } else {
          RemoveMatches(Run(ops[..k]).value, Records(ops[..k]), ops[k].m);
        }
      }
    }
  }

  /** A client that closes its stream without having registered ends the server. */
  lemma RemovingUnregisteredFails()
    ensures Run([RemoveOp(0)]).None?
  {
    assert [RemoveOp(0)][..0] == [];
  }

  /** Ids are never handed out twice: a registration uses only ids that no earlier one has used. */
  lemma IdsAreNew(ops: seq<Op>, req: seq<string>)
    requires Run(ops).Some? && !Known(Run(ops).value, req)
    ensures var r := Run(ops).value; IdsOf(Register(r, req), r.nextMachine) !! r.owner.Keys
  {
    SurvivesExactly(ops);
    RegisterMaps(Run(ops).value, req);
  }
}
