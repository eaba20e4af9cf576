/** Whether a node can be overdrawn: exactly which requests are to blame. */
module LeaseSolvency {
  import opened Leases
  import opened LeaseRuns
  import opened LeaseFreeList

  const MAX_CORES: int := 0x7FFF

  /** A request that cannot overdraw a node: it is not negative, or it asks for a negative amount of
      memory together with so many cores that it can only be granted on all cores of a node. */
  predicate Harmless(c: int, m: int) {
    0 <= c && (0 <= m || MAX_CORES <= c)
  }

  predicate Sound(op: Op) {
    match op
    case AddOp(_, cores, memory) => 0 <= Int16(cores) && 0 <= memory
    case LoadOp(_, cores, memory) => 0 <= Int16(cores) && 0 <= memory
    case OpenOp(c, m) => Harmless(c, m)
    case _ => true
  }

  // ---------------------------------------------------------------------------------------------
  // The invariant
  // ---------------------------------------------------------------------------------------------

  /** Leases take cores, and one of negative memory has taken all that were there. */
  predicate SaneLease(lease: Lease) {
    0 <= lease.cores && (lease.memory < 0 ==> lease.total)
  }

  ghost predicate SaneLeases(db: DB) {
    forall id :: id in db.leases ==> SaneLease(db.leases[id])
  }

  ghost predicate Small(db: DB) {
    forall id :: 0 <= id < |db.objects| ==> db.objects[id].cores <= MAX_CORES
  }

  /** Nothing is overdrawn, even if every lease of negative memory is closed. */
  predicate Backed(node: Node, use: Use) {
    0 <= node.freeCores && 0 <= node.freeMemory + use.negative
  }

  ghost predicate Solvent(db: DB) {
    && SaneLeases(db) && Small(db)
    && forall id: Id :: db.Alive(id) && id < |db.objects| ==> Backed(db.objects[id], InUse(db.open, id))
  }

  lemma {:induction false} SaneUse(open: seq<OpenLease>, id: Id)
    requires forall o :: o in open ==> SaneLease(o.lease)
    ensures var use := InUse(open, id);
            0 <= use.cores && use.negative <= 0 && 0 <= use.totals && (use.negative < 0 ==> 0 < use.totals)
  {
    if open != [] {
      assert open[0] in open;
      SaneUse(open[1..], id);
    }
  }

  lemma OpenIsSane(db: DB)
    requires WellFormed(db) && Records(db) && SaneLeases(db)
    ensures forall o :: o in db.open ==> SaneLease(o.lease)
  {
    forall o | o in db.open ensures SaneLease(o.lease) {
      assert db.leases[o.id] == o.lease;
    }
  }

  // ---------------------------------------------------------------------------------------------
  // Steps
  // ---------------------------------------------------------------------------------------------

  predicate Roomy(n: Node) {
    0 <= n.cores <= MAX_CORES && 0 <= n.memory
  }

  ghost predicate NewIsRoomy(db: DB, db': DB)
    requires |db.objects| <= |db'.objects|
  {
    forall id :: 0 <= id < |db'.objects| ==>
      (id < |db.objects| && SameCapacity(db.objects[id], db'.objects[id])) || Roomy(db'.objects[id])
  }

  lemma AdministrativeKeepsSolvent(db: DB, db': DB)
    requires Inv(db) && Solvent(db) && Administrative(db, db') && NewIsRoomy(db, db')
    ensures Solvent(db')
  {
    forall id: Id | db'.Alive(id) && id < |db'.objects|
      ensures Backed(db'.objects[id], InUse(db'.open, id))
    {
      if id < |db.objects| && SameCapacity(db.objects[id], db'.objects[id]) {
        assert db.Alive(id) && Backed(db.objects[id], InUse(db.open, id));
      } else {
        assert Roomy(db'.objects[id]) && Untouched(db'.objects[id]);
        NoLeases(db, id);
      }
    }
    SmallStays(db, db');
  }

  lemma SmallStays(db: DB, db': DB)
    requires Small(db) && |db.objects| <= |db'.objects| && NewIsRoomy(db, db')
    ensures Small(db')
  {
  }

  lemma AddIsRoomy(db: DB, name: string, cores: int, memory: int)
    requires WellFormed(db) && 0 <= Int16(cores) && 0 <= memory
    ensures |db.objects| <= |AddNode(db, name, cores, memory).0.objects|
    ensures NewIsRoomy(db, AddNode(db, name, cores, memory).0)
  {
  }

  /** A grant of negative memory takes all cores. */
  lemma GrantIsBacked(node: Node, use: Use, c: int, m: int)
    requires Capacity(node, use) && Backed(node, use) && node.cores <= MAX_CORES && node.Fits(c, m)
    requires 0 <= use.cores && use.negative == 0 && Harmless(c, m)
    ensures var after := node.Take(c, m);
            && 0 <= after.freeCores && 0 <= after.freeMemory + (if m < 0 then m else 0)
            && (m < 0 ==> after.freeCores == 0)
  {
  }

  lemma GrantKeepsBacked(db: DB, c: int, m: int, k: nat, id: Id)
    requires k < |db.freeNodes| && db.freeNodes[k] < |db.objects| && id < |db.objects|
    requires Backed(db.objects[id], InUse(db.open, id))
    requires id == db.freeNodes[k] ==>
      && InUse(db.open, id).negative == 0
      && 0 <= db.objects[id].freeCores - c && 0 <= db.objects[id].freeMemory - m + (if m < 0 then m else 0)
    ensures var db' := GrantAt(db, c, m, k).0;
            id < |db'.objects| && Backed(db'.objects[id], InUse(db'.open, id))
  {
    var db' := GrantAt(db, c, m, k).0;
    InUseAppend(db.open, db'.open[|db.open|], id);
  }

  lemma ListedHasNoTotal(db: DB, k: nat)
    requires k < |db.freeNodes| && ListedOnce(db, db.freeNodes[k]) && 0 <= InUse(db.open, db.freeNodes[k]).totals
    ensures InUse(db.open, db.freeNodes[k]).totals == 0
  {
    assert db.freeNodes[k] in multiset(db.freeNodes);
  }

  lemma GrantKeepsSane(db: DB, c: int, m: int, k: nat)
    requires SaneLeases(db) && Small(db) && k < |db.freeNodes| && db.freeNodes[k] < |db.objects|
    requires 0 <= c && (m < 0 ==> db.objects[db.freeNodes[k]].Take(c, m).freeCores == 0)
    ensures SaneLeases(GrantAt(db, c, m, k).0) && Small(GrantAt(db, c, m, k).0)
  {
  }

  lemma GrantKeepsSolvent(db: DB, c: int, m: int, k: nat)
    requires Inv(db) && Exact(db) && Solvent(db) && Harmless(c, m)
    requires k < |db.freeNodes| && Usable(db, db.freeNodes[k], c, m)
    ensures Solvent(GrantAt(db, c, m, k).0)
  {
    var db', node := GrantAt(db, c, m, k).0, db.freeNodes[k];
    OpenIsSane(db);
    SaneUse(db.open, node);
    ListedHasNoTotal(db, k);
    GrantIsBacked(db.objects[node], InUse(db.open, node), c, m);
    GrantKeepsSane(db, c, m, k);
    forall id: Id | db'.Alive(id) && id < |db'.objects|
      ensures Backed(db'.objects[id], InUse(db'.open, id))
    {
      assert db.Alive(id) && Backed(db.objects[id], InUse(db.open, id));
      GrantKeepsBacked(db, c, m, k, id);
    }
  }

  lemma OpenKeepsSolvent(db: DB, c: int, m: int)
    requires Inv(db) && Exact(db) && Solvent(db) && Harmless(c, m)
    ensures Solvent(Open(db, c, m).0)
  {
    var k := FirstFit(db, c, m, 0);
    FirstFitIsFirst(db, c, m, 0);
    if k < |db.freeNodes| {
      GrantKeepsSolvent(db, c, m, k);
    } else {
      var db' := Open(db, c, m).0;
      assert db' == db.(freeNodes := db'.freeNodes);
    }
  }

  lemma CloseKeepsBacked(db: DB, id: nat, k: nat, n: Id)
    requires WellFormed(db) && id in db.leases && k < |db.open| && db.open[k] == OpenLease(id, db.leases[id])
    requires DistinctIds(db.open) && SaneLease(db.leases[id])
    requires n < |db.objects| && db.Alive(n) && Backed(db.objects[n], InUse(db.open, n))
    ensures n < |Close(db, id).objects| && Backed(Close(db, id).objects[n], InUse(Close(db, id).open, n))
  {
    CloseObject(db, id, n);
    WithoutUse(db.open, k, n);
  }

  lemma CloseKeepsSolvent(db: DB, id: nat)
    requires Inv(db) && Solvent(db) && (id in db.leases ==> IsOpen(db, id))
    ensures Solvent(Close(db, id))
  {
    if id in db.leases {
      var k :| 0 <= k < |db.open| && db.open[k].id == id;
      assert db.open[k] in db.open;
      var db' := Close(db, id);
      forall n: Id | db'.Alive(n) && n < |db'.objects|
        ensures Backed(db'.objects[n], InUse(db'.open, n))
      {
        assert db.Alive(n);
        CloseKeepsBacked(db, id, k, n);
      }
    }
  }

  lemma ApplyKeepsSolvent(db: DB, op: Op)
    requires Inv(db) && Exact(db) && Solvent(db) && Legal(db, op) && Sound(op)
    ensures Solvent(Apply(db, op))
  {
    match op
    case AddOp(name, cores, memory) =>
      if NODE_NAME_LENGTH <= |name| { AddKeepsSolvent(db, name, cores, memory); }
    case LoadOp(name, cores, memory) => AddKeepsSolvent(db, name, cores, memory);
    case ConnectOp(qp) => ConnectKeepsSolvent(db, qp);
    case RegisterOp(qp, name) => RegisterKeepsSolvent(db, qp, name);
    case RemoveOp(qp) => RemoveKeepsSolvent(db, qp);
    case OpenOp(cores, memory) => OpenKeepsSolvent(db, cores, memory);
    case CloseOp(id) => CloseKeepsSolvent(db, id);
  }

  lemma ConnectKeepsSolvent(db: DB, qp: nat)
    requires Inv(db) && Solvent(db)
    ensures Solvent(Connect(db, qp))
  {
    ConnectIsAdministrative(db, qp);
    AdministrativeKeepsSolvent(db, Connect(db, qp));
  }

  lemma RegisterKeepsSolvent(db: DB, qp: nat, name: string)
    requires Inv(db) && Solvent(db)
    ensures Solvent(Register(db, qp, name).0)
  {
    RegisterIsAdministrative(db, qp, name);
    AdministrativeKeepsSolvent(db, Register(db, qp, name).0);
  }

  lemma RemoveKeepsSolvent(db: DB, qp: nat)
    requires Inv(db) && Solvent(db)
    ensures Solvent(Remove(db, qp).0)
  {
    RemoveIsAdministrative(db, qp);
    AdministrativeKeepsSolvent(db, Remove(db, qp).0);
  }

  lemma AddKeepsSolvent(db: DB, name: string, cores: int, memory: int)
    requires Inv(db) && Solvent(db) && 0 <= Int16(cores) && 0 <= memory
    ensures Solvent(AddNode(db, name, cores, memory).0)
  {
    AddIsAdministrative(db, name, cores, memory);
    AddIsRoomy(db, name, cores, memory);
    AdministrativeKeepsSolvent(db, AddNode(db, name, cores, memory).0);
  }

  // ---------------------------------------------------------------------------------------------
  // Runs
  // ---------------------------------------------------------------------------------------------

  ghost predicate AllSound(ops: seq<Op>) {
    forall i :: 0 <= i < |ops| ==> Sound(ops[i])
  }

  lemma EmptyIsSolvent()
    ensures Solvent(Empty)
  {
  }

  lemma {:induction false} RunIsSolvent(run: seq<DB>, ops: seq<Op>, i: nat)
    requires IsRun(run, ops) && AllSound(ops) && i < |run|
    ensures Solvent(run[i])
    decreases i
  {
    if i == 0 {
      EmptyIsSolvent();
    } else {
      assert StepAt(run, ops, i - 1) && Sound(ops[i - 1]);
      RunInvariant(run, ops, i - 1);
      RunIsExact(run, ops, i - 1);
      RunIsSolvent(run, ops, i - 1);
      ApplyKeepsSolvent(run[i - 1], ops[i - 1]);
    }
  }

  predicate Overdrawn(n: Node) { n.freeCores < 0 || n.freeMemory < 0 }

  /** Over every run with harmless requests and capacities that are not negative, no live node is
      overdrawn, and with requests that are not negative it never offers more than it has. */
  lemma NeverOverdrawn(run: seq<DB>, ops: seq<Op>, i: nat, id: Id)
    requires IsRun(run, ops) && AllSound(ops) && i < |run| && run[i].Alive(id)
    ensures id < |run[i].objects| && !Overdrawn(run[i].objects[id])
    ensures run[i].objects[id].freeCores <= run[i].objects[id].cores
    ensures InUse(run[i].open, id).negative == 0 ==> run[i].objects[id].freeMemory <= run[i].objects[id].memory
  {
    RunInvariant(run, ops, i);
    RunIsSolvent(run, ops, i);
    AliveIsObject(run[i], id);
    OpenIsSane(run[i]);
    SaneUse(run[i].open, id);
    MemoryUse(run[i].open, id);
    assert Capacity(run[i].objects[id], InUse(run[i].open, id)) && Backed(run[i].objects[id], InUse(run[i].open, id));
  }

  lemma {:induction false} MemoryUse(open: seq<OpenLease>, id: Id)
    ensures InUse(open, id).negative <= InUse(open, id).memory
  {
    if open != [] { MemoryUse(open[1..], id); }
  }
}
