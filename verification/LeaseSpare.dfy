/** A node on the free list has something to offer, when capacities are positive and requests are not
    negative. */
module LeaseSpare {
  import opened Leases
  import opened LeaseRuns
  import opened LeaseFreeList

  predicate Positive(op: Op) {
    match op
    case AddOp(_, cores, memory) => 0 < Int16(cores) && 0 < memory
    case LoadOp(_, cores, memory) => 0 < Int16(cores) && 0 < memory
    case OpenOp(c, m) => 0 <= c && 0 <= m
    case _ => true
  }

  predicate HasSpare(n: Node) { 0 < n.freeCores && 0 < n.freeMemory }

  /** On the list a node has spare capacity, and closing its total lease will give it some. */
  ghost predicate Spare(db: DB, id: Id)
    requires id < |db.objects|
  {
    var n := db.objects[id];
    && (id in db.freeNodes ==> HasSpare(n))
    && (forall o :: o in db.open && o.lease.total && o.lease.node == id ==>
          HasSpare(n.GiveBack(o.lease.cores, o.lease.memory)))
  }

  ghost predicate AllSpare(db: DB)
    requires WellFormed(db)
  {
    && (forall id: Id :: db.Alive(id) && id in db.added ==> Spare(db, id))
    && (forall id :: id in db.leases ==> 0 <= db.leases[id].cores && 0 <= db.leases[id].memory)
  }

  // ---------------------------------------------------------------------------------------------
  // Steps
  // ---------------------------------------------------------------------------------------------

  /** A node that `add` gave new data has spare capacity. */
  ghost predicate FreshIsSpare(db: DB, db': DB)
    requires WellFormed(db')
  {
    forall id :: id in db'.added && db'.Alive(id) ==>
      (id < |db.objects| && SameCapacity(db.objects[id], db'.objects[id])) || HasSpare(db'.objects[id])
  }

  lemma AdministrativeKeepsSpare(db: DB, db': DB)
    requires Inv(db) && AllSpare(db) && Administrative(db, db') && ListKept(db, db') && FreshIsSpare(db, db')
    ensures AllSpare(db')
  {
    forall id: Id | db'.Alive(id) && id in db'.added ensures Spare(db', id) {
      AliveIsObject(db', id);
      if id < |db.objects| && SameCapacity(db.objects[id], db'.objects[id]) {
        assert db.Alive(id) && Spare(db, id);
        SameIsSpare(db, db', id);
      } else {
        NoLeases(db, id);
      }
    }
  }

  lemma SameIsSpare(db: DB, db': DB, id: Id)
    requires id < |db.objects| <= |db'.objects| && Spare(db, id) && SameCapacity(db.objects[id], db'.objects[id])
    requires db'.open == db.open && ListKept(db, db')
    ensures Spare(db', id)
  {
  }

  lemma AddIsSpare(db: DB, name: string, cores: int, memory: int)
    requires WellFormed(db) && 0 < Int16(cores) && 0 < memory && WellFormed(AddNode(db, name, cores, memory).0)
    ensures ListKept(db, AddNode(db, name, cores, memory).0)
    ensures FreshIsSpare(db, AddNode(db, name, cores, memory).0)
  {
  }

  lemma AddKeepsSpare(db: DB, name: string, cores: int, memory: int)
    requires Inv(db) && AllSpare(db) && 0 < Int16(cores) && 0 < memory
    ensures WellFormed(AddNode(db, name, cores, memory).0) && AllSpare(AddNode(db, name, cores, memory).0)
  {
    AddIsAdministrative(db, name, cores, memory);
    AddIsSpare(db, name, cores, memory);
    AdministrativeKeepsSpare(db, AddNode(db, name, cores, memory).0);
  }

  lemma {:induction false} LiveOnlyIn(db: DB, ids: seq<Id>, id: Id)
    requires id in LiveOnly(db, ids)
    ensures id in ids
  {
    var n := |ids| - 1;
    if id in LiveOnly(db, ids[..n]) {
      LiveOnlyIn(db, ids[..n], id);
    }
  }

  lemma OpenListed(db: DB, c: int, m: int, id: Id)
    requires WellFormed(db) && id in Open(db, c, m).0.freeNodes
    ensures id in db.freeNodes
  {
    var k := FirstFit(db, c, m, 0);
    FirstFitIsFirst(db, c, m, 0);
    if id in LiveOnly(db, db.freeNodes) { LiveOnlyIn(db, db.freeNodes, id); }
    if id in LiveOnly(db, db.freeNodes[..k]) { LiveOnlyIn(db, db.freeNodes[..k], id); }
  }

  /** A full node leaves the list; it had no other total lease, and closing this one empties it again. */
  lemma GrantKeepsSpare(db: DB, c: int, m: int, k: nat, id: Id)
    requires WellFormed(db) && k < |db.freeNodes| && Open(db, c, m) == GrantAt(db, c, m, k)
    requires id < |db.objects| && db.Alive(id) && ListedOnce(db, id) && Spare(db, id) && 0 <= InUse(db.open, id).totals
    requires id == db.freeNodes[k] ==> db.objects[id].Fits(c, m)
    ensures id < |Open(db, c, m).0.objects| && Spare(Open(db, c, m).0, id)
  {
    var db' := Open(db, c, m).0;
    GrantEffect(db, c, m, k, id);
    if id in db'.freeNodes { OpenListed(db, c, m, id); }
    if id == db.freeNodes[k] {
      assert id in multiset(db.freeNodes);
      TotalsCount(db.open, id);
      assert !HasTotal(db.open, id);
    }
  }

  lemma OpenKeepsAmounts(db: DB, c: int, m: int)
    requires WellFormed(db) && 0 <= c && 0 <= m
    requires forall id :: id in db.leases ==> 0 <= db.leases[id].cores && 0 <= db.leases[id].memory
    ensures var leases := Open(db, c, m).0.leases;
            forall id :: id in leases ==> 0 <= leases[id].cores && 0 <= leases[id].memory
  {
  }

  lemma OpenKeepsSpareNode(db: DB, c: int, m: int, id: Id)
    requires Inv(db) && Exact(db) && AllSpare(db) && db.Alive(id) && id in db.added
    ensures id < |Open(db, c, m).0.objects| && Spare(Open(db, c, m).0, id)
  {
    var k := FirstFit(db, c, m, 0);
    FirstFitIsFirst(db, c, m, 0);
    assert Spare(db, id) && ListedOnce(db, id);
    AliveIsObject(db, id);
    TotalsCount(db.open, id);
    if k < |db.freeNodes| {
      GrantKeepsSpare(db, c, m, k, id);
    } else if id in Open(db, c, m).0.freeNodes {
      OpenListed(db, c, m, id);
    }
  }

  lemma OpenKeepsSpare(db: DB, c: int, m: int)
    requires Inv(db) && Exact(db) && AllSpare(db) && 0 <= c && 0 <= m && db.leaseCount < LEASE_IDS
    ensures WellFormed(Open(db, c, m).0) && AllSpare(Open(db, c, m).0)
  {
    OpenWellFormed(db, c, m);
    OpenKeepsAmounts(db, c, m);
    var db' := Open(db, c, m).0;
    forall id: Id | db'.Alive(id) && id in db'.added ensures Spare(db', id) {
      assert db.Alive(id) && id in db.added;
      OpenKeepsSpareNode(db, c, m, id);
    }
  }

  lemma CloseKeepsSpareNode(db: DB, id: nat, k: nat, n: Id)
    requires WellFormed(db) && id in db.leases && k < |db.open| && db.open[k] == OpenLease(id, db.leases[id])
    requires DistinctIds(db.open) && 0 <= db.leases[id].cores && 0 <= db.leases[id].memory
    requires n < |db.objects| && db.Alive(n) && Spare(db, n)
    ensures n < |Close(db, id).objects| && Spare(Close(db, id), n)
  {
    CloseObject(db, id, n);
    WithoutElements(db.open, id);
    assert db.open[k] in db.open;
  }

  lemma CloseKeepsSpare(db: DB, id: nat)
    requires Inv(db) && AllSpare(db) && (id in db.leases ==> IsOpen(db, id))
    ensures WellFormed(Close(db, id)) && AllSpare(Close(db, id))
  {
    CloseKeepsRecords(db, id);
    if id in db.leases {
      var k :| 0 <= k < |db.open| && db.open[k].id == id;
      assert db.open[k] in db.open;
      var db' := Close(db, id);
      forall n: Id | db'.Alive(n) && n in db'.added ensures Spare(db', n) {
        assert db.Alive(n) && Spare(db, n);
        CloseKeepsSpareNode(db, id, k, n);
      }
    }
  }

  lemma ConnectKeepsSpare(db: DB, qp: nat)
    requires Inv(db) && AllSpare(db)
    ensures WellFormed(Connect(db, qp)) && AllSpare(Connect(db, qp))
  {
    ConnectIsAdministrative(db, qp);
    AdministrativeKeepsSpare(db, Connect(db, qp));
  }

  lemma RegisterKeepsSpare(db: DB, qp: nat, name: string)
    requires Inv(db) && AllSpare(db)
    ensures WellFormed(Register(db, qp, name).0) && AllSpare(Register(db, qp, name).0)
  {
    RegisterIsAdministrative(db, qp, name);
    AdministrativeKeepsSpare(db, Register(db, qp, name).0);
  }

  lemma RemoveKeepsSpare(db: DB, qp: nat)
    requires Inv(db) && AllSpare(db)
    ensures WellFormed(Remove(db, qp).0) && AllSpare(Remove(db, qp).0)
  {
    RemoveIsAdministrative(db, qp);
    AdministrativeKeepsSpare(db, Remove(db, qp).0);
  }

  lemma ApplyKeepsSpare(db: DB, op: Op)
    requires Inv(db) && Exact(db) && AllSpare(db) && Legal(db, op) && Positive(op)
    ensures WellFormed(Apply(db, op)) && AllSpare(Apply(db, op))
  {
    match op
    case AddOp(name, cores, memory) =>
      if NODE_NAME_LENGTH <= |name| { AddKeepsSpare(db, name, cores, memory); }
    case LoadOp(name, cores, memory) => AddKeepsSpare(db, name, cores, memory);
    case ConnectOp(qp) => ConnectKeepsSpare(db, qp);
    case RegisterOp(qp, name) => RegisterKeepsSpare(db, qp, name);
    case RemoveOp(qp) => RemoveKeepsSpare(db, qp);
    case OpenOp(cores, memory) => OpenKeepsSpare(db, cores, memory);
    case CloseOp(id) => CloseKeepsSpare(db, id);
  }

  // ---------------------------------------------------------------------------------------------
  // Runs
  // ---------------------------------------------------------------------------------------------

  lemma {:induction false} RunIsSpare(run: seq<DB>, ops: seq<Op>, i: nat)
    requires IsRun(run, ops) && (forall j :: 0 <= j < |ops| ==> Positive(ops[j])) && i < |run|
    ensures WellFormed(run[i]) && AllSpare(run[i])
    decreases i
  {
    if 0 < i {
      assert StepAt(run, ops, i - 1) && Positive(ops[i - 1]);
      RunInvariant(run, ops, i - 1);
      RunIsExact(run, ops, i - 1);
      RunIsSpare(run, ops, i - 1);
      ApplyKeepsSpare(run[i - 1], ops[i - 1]);
    }
  }

  /** Over every run with positive capacities and requests that are not negative, a live node on the
      free list has spare cores and spare memory. */
  lemma ListedHasSpare(run: seq<DB>, ops: seq<Op>, i: nat, id: Id)
    requires IsRun(run, ops) && (forall j :: 0 <= j < |ops| ==> Positive(ops[j])) && i < |run|
    requires run[i].Alive(id) && id in run[i].freeNodes
    ensures id < |run[i].objects| && 0 < run[i].objects[id].freeCores && 0 < run[i].objects[id].freeMemory
  {
    RunIsExact(run, ops, i);
    RunIsSpare(run, ops, i);
    AliveIsObject(run[i], id);
    assert Spare(run[i], id);
  }
}
