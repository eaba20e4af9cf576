/** What every run of the executor database keeps. */
module LeaseRuns {
  import opened Leases

  datatype Op =
    | AddOp(name: string, cores: int, memory: int)
    | LoadOp(name: string, cores: int, memory: int)
    | ConnectOp(qp: nat)
    | RegisterOp(qp: nat, name: string)
    | RemoveOp(qp: nat)
    | OpenOp(cores: int, memory: int)
    | CloseOp(id: nat)

  function Apply(db: DB, op: Op): DB
    requires WellFormed(db)
  {
    match op
    case AddOp(name, cores, memory) => Add(db, name, cores, memory).0
    case LoadOp(name, cores, memory) => AddNode(db, name, cores, memory).0
    case ConnectOp(qp) => Connect(db, qp)
    case RegisterOp(qp, name) => Register(db, qp, name).0
    case RemoveOp(qp) => Remove(db, qp).0
    case OpenOp(cores, memory) => Open(db, cores, memory).0
    case CloseOp(id) => Close(db, id)
  }

  ghost predicate IsOpen(db: DB, id: nat) {
    exists i :: 0 <= i < |db.open| && db.open[i].id == id
  }

  /** The runs in question: fewer than 2^32 leases have been granted, and no lease is closed twice.
      Capacities and requests may be any numbers. */
  ghost predicate Legal(db: DB, op: Op) {
    match op
    case OpenOp(_, _) => db.leaseCount < LEASE_IDS
    case CloseOp(id) => id in db.leases ==> IsOpen(db, id)
    case _ => true
  }

  ghost predicate StepAt(run: seq<DB>, ops: seq<Op>, i: nat)
    requires i < |ops| && |run| == |ops| + 1
  {
    WellFormed(run[i]) && Legal(run[i], ops[i]) && run[i + 1] == Apply(run[i], ops[i])
  }

  ghost predicate IsRun(run: seq<DB>, ops: seq<Op>) {
    && |run| == |ops| + 1
    && run[0] == Empty
    && forall i :: 0 <= i < |ops| ==> StepAt(run, ops, i)
  }

  // ---------------------------------------------------------------------------------------------
  // What the open leases of a node hold
  // ---------------------------------------------------------------------------------------------

  /** Cores, memory, number of "total" leases, and how much of the memory was asked for negatively. */
  datatype Use = Use(cores: int, memory: int, totals: int, negative: int)

  function LeaseUse(lease: Lease): Use {
    Use(lease.cores, lease.memory, if lease.total then 1 else 0, if lease.memory < 0 then lease.memory else 0)
  }

  function Weight(o: OpenLease, id: Id): Use {
    if o.lease.node == id then LeaseUse(o.lease) else Nothing
  }

  function Plus(a: Use, b: Use): Use {
    Use(a.cores + b.cores, a.memory + b.memory, a.totals + b.totals, a.negative + b.negative)
  }

  /** What the open leases hold on node `id`. */
  function InUse(open: seq<OpenLease>, id: Id): Use {
    if open == [] then Nothing else Plus(Weight(open[0], id), InUse(open[1..], id))
  }

  lemma PlusAssociative(a: Use, b: Use, c: Use)
    ensures Plus(Plus(a, b), c) == Plus(a, Plus(b, c))
  {
  }

  const Nothing: Use := Use(0, 0, 0, 0)

  lemma PlusNothing(a: Use, z: Use)
    requires z.cores == 0 && z.memory == 0 && z.totals == 0 && z.negative == 0
    ensures Plus(a, z) == a == Plus(z, a)
  {
  }

  lemma PlusSwaps(a: Use, b: Use, c: Use)
    ensures Plus(a, Plus(b, c)) == Plus(b, Plus(a, c))
  {
  }

  lemma {:induction false} InUseAppend(open: seq<OpenLease>, o: OpenLease, id: Id)
    ensures InUse(open + [o], id) == Plus(InUse(open, id), Weight(o, id))
  {
    if open == [] {
      assert open + [o] == [o] && [o][1..] == [];
      PlusNothing(Weight(o, id), Nothing);
    } else {
      InUseAppend(open[1..], o, id);
      assert (open + [o])[1..] == open[1..] + [o];
      PlusAssociative(Weight(open[0], id), InUse(open[1..], id), Weight(o, id));
    }
  }

  ghost predicate DistinctIds(open: seq<OpenLease>) {
    forall i, j :: 0 <= i < j < |open| ==> open[i].id != open[j].id
  }

  lemma {:induction false} WithoutUse(open: seq<OpenLease>, k: nat, id: Id)
    requires k < |open| && DistinctIds(open)
    ensures InUse(open, id) == Plus(Weight(open[k], id), InUse(Without(open, open[k].id), id))
  {
    if 0 < k {
      WithoutUse(open[1..], k - 1, id);
      var rest := Without(open[1..], open[k].id);
      assert ([open[0]] + rest)[1..] == rest;
      PlusSwaps(Weight(open[0], id), Weight(open[k], id), InUse(rest, id));
    }
  }

  lemma {:induction false} WithoutElements(open: seq<OpenLease>, id: nat)
    requires DistinctIds(open)
    ensures DistinctIds(Without(open, id))
    ensures forall o :: o in Without(open, id) <==> o in open && o.id != id
  {
    if open != [] && open[0].id != id {
      WithoutElements(open[1..], id);
      var rest := Without(open[1..], id);
      forall i, j | 0 <= i < j < 1 + |rest| ensures ([open[0]] + rest)[i].id != ([open[0]] + rest)[j].id {
        if i == 0 {
          assert rest[j - 1] in open[1..];
        }
      }
    }
  }

  lemma {:induction false} UnusedNode(open: seq<OpenLease>, id: Id)
    requires forall o :: o in open ==> o.lease.node != id
    ensures InUse(open, id) == Nothing
  {
    if open != [] {
      UnusedNode(open[1..], id);
      PlusNothing(Weight(open[0], id), InUse(open[1..], id));
    }
  }

  // ---------------------------------------------------------------------------------------------
  // The invariant
  // ---------------------------------------------------------------------------------------------

  /** Every open lease has a record of its own. */
  ghost predicate Recorded(db: DB) {
    && DistinctIds(db.open)
    && (forall o :: o in db.open ==> o.id in db.leases && db.leases[o.id] == o.lease)
  }

  /** The lease records: also, their ids are those below the counter, and their nodes are in use. */
  ghost predicate Records(db: DB)
    requires WellFormed(db)
  {
    && Recorded(db)
    && (forall id :: 0 <= id < db.leaseCount <==> id in db.leases)
    && (forall id :: id in db.leases ==> db.objects[db.leases[id].node].IsInitialized())
    && db.leaseCount <= LEASE_IDS
  }

  /** Free capacity plus leased capacity is the whole. */
  predicate Capacity(node: Node, use: Use) {
    node.freeCores + use.cores == node.cores && node.freeMemory + use.memory == node.memory
  }

  ghost predicate Conserved(db: DB) {
    forall id: Id :: db.Alive(id) && id < |db.objects| ==> Capacity(db.objects[id], InUse(db.open, id))
  }

  /** Every object reached through a connection has one. */
  ghost predicate Linked(db: DB)
    requires WellFormed(db)
  {
    forall qp :: qp in db.byConn ==> db.objects[db.byConn[qp]].connected
  }

  ghost predicate Inv(db: DB) {
    WellFormed(db) && Linked(db) && Records(db) && Conserved(db)
  }

  // ---------------------------------------------------------------------------------------------
  // Steps
  // ---------------------------------------------------------------------------------------------

  /** What all operations but `open` and `close` do: objects may be added, ones without leases may
      change, and nothing dead comes back. */
  ghost predicate Administrative(db: DB, db': DB) {
    && WellFormed(db') && Linked(db')
    && db'.leases == db.leases && db'.leaseCount == db.leaseCount && db'.open == db.open
    && |db.objects| <= |db'.objects|
    && (forall id: Id :: db'.Alive(id) && id < |db.objects| ==> db.Alive(id))
    && (forall id :: 0 <= id < |db.objects| && db.objects[id].IsInitialized() ==> db'.objects[id].IsInitialized())
    && (forall id :: 0 <= id < |db.objects| ==>
          || SameCapacity(db.objects[id], db'.objects[id])
          || (!db.objects[id].IsInitialized() && Untouched(db'.objects[id])))
    && (forall id :: |db.objects| <= id < |db'.objects| ==> Untouched(db'.objects[id]))
  }

  predicate SameCapacity(a: Node, b: Node) {
    a.cores == b.cores && a.memory == b.memory && a.freeCores == b.freeCores && a.freeMemory == b.freeMemory
  }

  predicate Untouched(n: Node) {
    n.freeCores == n.cores && n.freeMemory == n.memory
  }

  lemma AddIsAdministrative(db: DB, name: string, cores: int, memory: int)
    requires WellFormed(db) && Linked(db)
    ensures Administrative(db, AddNode(db, name, cores, memory).0)
  {
    var db' := AddNode(db, name, cores, memory).0;
    AddIsWellFormed(db, name, cores, memory);
    forall id: Id | db'.Alive(id) && id < |db.objects| ensures db.Alive(id) {
      AddRevivesNothing(db, name, cores, memory, id);
    }
  }

  lemma AddIsWellFormed(db: DB, name: string, cores: int, memory: int)
    requires WellFormed(db) && Linked(db)
    ensures WellFormed(AddNode(db, name, cores, memory).0) && Linked(AddNode(db, name, cores, memory).0)
  {
  }

  lemma AddRevivesNothing(db: DB, name: string, cores: int, memory: int, id: Id)
    requires WellFormed(db) && AddNode(db, name, cores, memory).0.Alive(id) && id < |db.objects|
    ensures db.Alive(id)
  {
    var db' := AddNode(db, name, cores, memory).0;
    if id in db'.byName.Values {
      var n :| n in db'.byName && db'.byName[n] == id;
      assert n in db.byName && db.byName[n] == id;
    }
  }

  lemma ConnectIsAdministrative(db: DB, qp: nat)
    requires WellFormed(db) && Linked(db)
    ensures Administrative(db, Connect(db, qp))
  {
    var db' := Connect(db, qp);
    forall id: Id | db'.Alive(id) && id < |db.objects| ensures db.Alive(id) {
      if id in db'.byConn.Values {
        var q :| q in db'.byConn && db'.byConn[q] == id;
        assert q in db.byConn && db.byConn[q] == id;
      }
    }
  }

  lemma RegisterIsAdministrative(db: DB, qp: nat, name: string)
    requires WellFormed(db) && Linked(db)
    ensures Administrative(db, Register(db, qp, name).0)
  {
    var db' := Register(db, qp, name).0;
    forall id: Id | db'.Alive(id) && id < |db.objects| ensures db.Alive(id) {
      if id in db'.byConn.Values {
        var q :| q in db'.byConn && db'.byConn[q] == id;
        assert id in db.byConn.Values || id in db.byName.Values;
      } else {
        var n :| n in db'.byName && db'.byName[n] == id;
        assert id in db.byConn.Values || id in db.byName.Values;
      }
    }
  }

  lemma RemoveIsAdministrative(db: DB, qp: nat)
    requires WellFormed(db) && Linked(db)
    ensures Administrative(db, Remove(db, qp).0)
  {
    var db' := Remove(db, qp).0;
    forall id: Id | db'.Alive(id) && id < |db.objects| ensures db.Alive(id) {
      if id in db'.byConn.Values {
        var q :| q in db'.byConn && db'.byConn[q] == id;
        assert db.byConn[q] == id;
      } else {
        var n :| n in db'.byName && db'.byName[n] == id;
        assert db.byName[n] == id;
      }
    }
  }

  lemma AdministrativeKeeps(db: DB, db': DB)
    requires Inv(db) && Administrative(db, db')
    ensures Inv(db')
  {
    forall id: Id | db'.Alive(id) && id < |db'.objects|
      ensures Capacity(db'.objects[id], InUse(db'.open, id))
    {
      if id < |db.objects| && db.objects[id].IsInitialized() {
        assert db.Alive(id);
      } else {
        forall o | o in db.open ensures o.lease.node != id {
          assert db.leases[o.id].node < |db.objects|;
        }
        UnusedNode(db.open, id);
        if id < |db.objects| { assert db.Alive(id); }
      }
    }
  }

  lemma OpenKeeps(db: DB, c: int, m: int)
    requires Inv(db) && db.leaseCount < LEASE_IDS
    ensures Inv(Open(db, c, m).0)
  {
    var k := FirstFit(db, c, m, 0);
    FirstFitIsFirst(db, c, m, 0);
    var db' := Open(db, c, m).0;
    OpenWellFormed(db, c, m);
    if k < |db.freeNodes| {
      GrantKeeps(db, c, m, k);
    }
  }

  lemma {:induction false} LiveOnlyBelow(db: DB, ids: seq<Id>)
    requires forall i :: 0 <= i < |ids| ==> ids[i] < |db.objects|
    ensures forall i :: 0 <= i < |LiveOnly(db, ids)| ==> LiveOnly(db, ids)[i] < |db.objects|
  {
    if ids != [] { LiveOnlyBelow(db, ids[..|ids| - 1]); }
  }

  lemma OpenWellFormed(db: DB, c: int, m: int)
    requires WellFormed(db)
    ensures WellFormed(Open(db, c, m).0)
  {
    var k := FirstFit(db, c, m, 0);
    FirstFitIsFirst(db, c, m, 0);
    LiveOnlyBelow(db, db.freeNodes);
    LiveOnlyBelow(db, db.freeNodes[..k]);
  }

  lemma GrantKeepsRecords(db: DB, c: int, m: int, k: nat)
    requires WellFormed(db) && Linked(db) && Records(db) && db.leaseCount < LEASE_IDS
    requires k < |db.freeNodes| && Usable(db, db.freeNodes[k], c, m)
    requires WellFormed(GrantAt(db, c, m, k).0)
    ensures Linked(GrantAt(db, c, m, k).0) && Records(GrantAt(db, c, m, k).0)
  {
    var db' := GrantAt(db, c, m, k).0;
    assert db.leaseCount % LEASE_IDS == db.leaseCount && db.leaseCount !in db.leases;
    GrantKeepsRecordedIff(db, c, m, k);
  }

  lemma GrantConserves(db: DB, c: int, m: int, k: nat, id: Id)
    requires k < |db.freeNodes| && db.freeNodes[k] < |db.objects|
    requires id < |db.objects| && Capacity(db.objects[id], InUse(db.open, id))
    ensures var db' := GrantAt(db, c, m, k).0;
            id < |db'.objects| && Capacity(db'.objects[id], InUse(db'.open, id))
  {
    var db' := GrantAt(db, c, m, k).0;
    InUseAppend(db.open, db'.open[|db.open|], id);
  }

  lemma GrantKeeps(db: DB, c: int, m: int, k: nat)
    requires Inv(db) && db.leaseCount < LEASE_IDS
    requires k < |db.freeNodes| && Usable(db, db.freeNodes[k], c, m)
    requires WellFormed(GrantAt(db, c, m, k).0)
    ensures Inv(GrantAt(db, c, m, k).0)
  {
    GrantKeepsRecords(db, c, m, k);
    var db' := GrantAt(db, c, m, k).0;
    forall id: Id | db'.Alive(id) && id < |db'.objects|
      ensures Capacity(db'.objects[id], InUse(db'.open, id))
    {
      assert db.Alive(id);
      GrantConserves(db, c, m, k, id);
    }
  }

  lemma GiveBackConserves(node: Node, before: Use, after: Use, lease: Lease)
    requires Capacity(node, before) && before == Plus(LeaseUse(lease), after)
    ensures Capacity(node.GiveBack(lease.cores, lease.memory), after)
  {
  }

  lemma CloseObject(db: DB, id: nat, n: Id)
    requires WellFormed(db) && id in db.leases && n < |db.objects| && db.Alive(n)
    ensures var db', lease := Close(db, id), db.leases[id];
            && |db'.objects| == |db.objects| && db'.open == Without(db.open, id)
            && db'.objects[n] == if n == lease.node then db.objects[n].GiveBack(lease.cores, lease.memory)
                                 else db.objects[n]
  {
  }

  lemma CloseConserves(db: DB, id: nat, k: nat, n: Id)
    requires WellFormed(db) && id in db.leases && k < |db.open| && db.open[k] == OpenLease(id, db.leases[id])
    requires DistinctIds(db.open)
    requires n < |db.objects| && db.Alive(n) && Capacity(db.objects[n], InUse(db.open, n))
    ensures n < |Close(db, id).objects| && Capacity(Close(db, id).objects[n], InUse(Close(db, id).open, n))
  {
    var lease, after := db.leases[id], InUse(Without(db.open, id), n);
    CloseObject(db, id, n);
    WithoutUse(db.open, k, n);
    if n == lease.node {
      GiveBackConserves(db.objects[n], InUse(db.open, n), after, lease);
    } else {
      PlusNothing(after, Weight(db.open[k], n));
    }
  }

  lemma CloseKeepsRecords(db: DB, id: nat)
    requires WellFormed(db) && Linked(db) && Records(db)
    ensures WellFormed(Close(db, id)) && Linked(Close(db, id)) && Records(Close(db, id))
  {
    WithoutElements(db.open, id);
  }

  lemma CloseKeeps(db: DB, id: nat)
    requires Inv(db) && (id in db.leases ==> IsOpen(db, id))
    ensures Inv(Close(db, id))
  {
    CloseKeepsRecords(db, id);
    if id in db.leases {
      var k :| 0 <= k < |db.open| && db.open[k].id == id;
      assert db.open[k] in db.open;
      var db' := Close(db, id);
      forall n: Id | db'.Alive(n) && n < |db'.objects|
        ensures Capacity(db'.objects[n], InUse(db'.open, n))
      {
        assert db.Alive(n);
        CloseConserves(db, id, k, n);
      }
    }
  }

  lemma ApplyKeeps(db: DB, op: Op)
    requires Inv(db) && Legal(db, op)
    ensures Inv(Apply(db, op))
  {
    match op
    case AddOp(name, cores, memory) =>
      AddIsAdministrative(db, name, cores, memory);
      if NODE_NAME_LENGTH <= |name| { AdministrativeKeeps(db, AddNode(db, name, cores, memory).0); }
    case LoadOp(name, cores, memory) =>
      AddIsAdministrative(db, name, cores, memory);
      AdministrativeKeeps(db, AddNode(db, name, cores, memory).0);
    case ConnectOp(qp) =>
      ConnectIsAdministrative(db, qp);
      AdministrativeKeeps(db, Connect(db, qp));
    case RegisterOp(qp, name) =>
      RegisterIsAdministrative(db, qp, name);
      AdministrativeKeeps(db, Register(db, qp, name).0);
    case RemoveOp(qp) =>
      RemoveIsAdministrative(db, qp);
      AdministrativeKeeps(db, Remove(db, qp).0);
    case OpenOp(cores, memory) => OpenKeeps(db, cores, memory);
    case CloseOp(id) => CloseKeeps(db, id);
  }

  lemma {:induction false} RunInvariant(run: seq<DB>, ops: seq<Op>, i: nat)
    requires IsRun(run, ops) && i < |run|
    ensures Inv(run[i])
    decreases i
  {
    if 0 < i {
      assert StepAt(run, ops, i - 1);
      RunInvariant(run, ops, i - 1);
      ApplyKeeps(run[i - 1], ops[i - 1]);
    }
  }

  /** Lease conservation over every run, whatever the capacities and requests: for every live node,
      free cores plus the cores of its open leases are its cores, and likewise for memory. */
  lemma LeaseConservation(run: seq<DB>, ops: seq<Op>, i: nat, id: Id)
    requires IsRun(run, ops) && i < |run| && run[i].Alive(id)
    ensures id < |run[i].objects|
    ensures var n, use := run[i].objects[id], InUse(run[i].open, id);
            n.freeCores + use.cores == n.cores && n.freeMemory + use.memory == n.memory
  {
    RunInvariant(run, ops, i);
    AliveIsObject(run[i], id);
  }

  // ---------------------------------------------------------------------------------------------
  // Ids
  // ---------------------------------------------------------------------------------------------

  /** What the bound of 2^32 grants is for: a grant leaves every open lease with a record of its own
      if and only if its id is not recorded yet, or what is recorded is a closed lease just like it. */
  lemma GrantKeepsRecordedIff(db: DB, c: int, m: int, k: nat)
    requires Recorded(db) && k < |db.freeNodes| && db.freeNodes[k] < |db.objects|
    ensures var db', id := GrantAt(db, c, m, k).0, db.leaseCount % LEASE_IDS;
            Recorded(db') <==> id !in db.leases || (!IsOpen(db, id) && db.leases[id] == db'.open[|db.open|].lease)
  {
    var db', id := GrantAt(db, c, m, k).0, db.leaseCount % LEASE_IDS;
    var o := db'.open[|db.open|];
    assert o in db'.open;
    forall i | 0 <= i < |db.open|
      ensures db'.open[i] == db.open[i] && db.open[i] in db.open && db.open[i] in db'.open
    {
    }
    if IsOpen(db, id) {
      var j :| 0 <= j < |db.open| && db.open[j].id == id;
      assert db'.open[j].id == o.id;
    }
  }

  /** In every run the next id is free if and only if fewer than 2^32 leases have been granted. */
  lemma NextIdIsFreeIff(run: seq<DB>, ops: seq<Op>, i: nat)
    requires IsRun(run, ops) && i < |run|
    ensures run[i].leaseCount % 0x1_0000_0000 !in run[i].leases <==> run[i].leaseCount < 0x1_0000_0000
  {
    RunInvariant(run, ops, i);
  }

  // ---------------------------------------------------------------------------------------------
  // Nodes that are gone
  // ---------------------------------------------------------------------------------------------

  lemma DeadStep(db: DB, op: Op, id: Id)
    requires Inv(db) && id < |db.objects| && !db.Alive(id)
    ensures id < |Apply(db, op).objects| && !Apply(db, op).Alive(id)
  {
    match op
    case AddOp(name, cores, memory) => AddIsAdministrative(db, name, cores, memory);
    case LoadOp(name, cores, memory) => AddIsAdministrative(db, name, cores, memory);
    case ConnectOp(qp) => ConnectIsAdministrative(db, qp);
    case RegisterOp(qp, name) => RegisterIsAdministrative(db, qp, name);
    case RemoveOp(qp) => RemoveIsAdministrative(db, qp);
    case OpenOp(c, m) =>
    case CloseOp(lease) =>
  }

  lemma GrantedIsAlive(db: DB, c: int, m: int)
    requires WellFormed(db) && Open(db, c, m).1.Granted?
    ensures db.Alive(Open(db, c, m).1.node)
  {
    FirstFitIsFirst(db, c, m, 0);
  }

  lemma {:induction false} StaysGone(run: seq<DB>, ops: seq<Op>, i: nat, k: nat, id: Id)
    requires IsRun(run, ops) && i <= k < |run| && id < |run[i].objects| && !run[i].Alive(id)
    ensures id < |run[k].objects| && !run[k].Alive(id)
    decreases k
  {
    if i < k {
      StaysGone(run, ops, i, k - 1, id);
      RunInvariant(run, ops, k - 1);
      assert StepAt(run, ops, k - 1);
      DeadStep(run[k - 1], ops[k - 1], id);
    }
  }

  lemma NoGrantOnDead(db: DB, id: Id)
    requires WellFormed(db) && !db.Alive(id)
    ensures forall c, m :: Open(db, c, m).1.Granted? ==> Open(db, c, m).1.node != id
  {
    forall c, m | Open(db, c, m).1.Granted? ensures Open(db, c, m).1.node != id {
      GrantedIsAlive(db, c, m);
    }
  }

  /** Over every run, a node that nothing leads to any more, by name or by connection, stays so, and no
      lease is granted on it. */
  lemma GoneForGood(run: seq<DB>, ops: seq<Op>, i: nat, k: nat, id: Id)
    requires IsRun(run, ops) && i <= k < |run| && id < |run[i].objects| && !run[i].Alive(id)
    ensures !run[k].Alive(id) && WellFormed(run[k])
    ensures forall c, m :: Open(run[k], c, m).1.Granted? ==> Open(run[k], c, m).1.node != id
  {
    StaysGone(run, ops, i, k, id);
    RunInvariant(run, ops, k);
    NoGrantOnDead(run[k], id);
  }

  /** A removed node is gone if and only if no other name and no other connection leads to it. */
  lemma RemovedIsGoneIff(db: DB, qp: nat)
    requires WellFormed(db) && qp in db.byConn
    ensures var id, db' := db.byConn[qp], Remove(db, qp).0;
            !db'.Alive(id) <==>
              && (forall other :: other in db.byConn && other != qp ==> db.byConn[other] != id)
              && (forall name :: name in db.byName && name != db.objects[id].name ==> db.byName[name] != id)
  {
    var id, db' := db.byConn[qp], Remove(db, qp).0;
    forall other | other in db.byConn && other != qp ensures db'.byConn[other] == db.byConn[other] { }
    forall name | name in db.byName && name != db.objects[id].name ensures db'.byName[name] == db.byName[name] { }
  }
}
