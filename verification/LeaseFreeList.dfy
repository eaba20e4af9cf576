/** Which nodes are on the free list, over every run. */
module LeaseFreeList {
  import opened Leases
  import opened LeaseRuns

  ghost predicate HasTotal(open: seq<OpenLease>, id: Id) {
    exists o :: o in open && o.lease.total && o.lease.node == id
  }

  lemma {:induction false} TotalsCount(open: seq<OpenLease>, id: Id)
    ensures 0 <= InUse(open, id).totals
    ensures HasTotal(open, id) <==> 0 < InUse(open, id).totals
  {
    if open != [] {
      TotalsCount(open[1..], id);
      assert forall o :: o in open <==> o == open[0] || o in open[1..];
      if HasTotal(open[1..], id) {
        var o :| o in open[1..] && o.lease.total && o.lease.node == id;
        assert o in open;
      }
    }
  }

  /** A node is on the list once, or has one open "total" lease. */
  ghost predicate ListedOnce(db: DB, id: Id) {
    multiset(db.freeNodes)[id] + InUse(db.open, id).totals == 1
  }

  /** Only handles that `add` produced are listed or leased. */
  ghost predicate FromAdd(db: DB) {
    && (forall i :: 0 <= i < |db.freeNodes| ==> db.freeNodes[i] in db.added)
    && (forall id :: id in db.leases ==> db.leases[id].node in db.added)
  }

  ghost predicate Exact(db: DB) {
    FromAdd(db) && forall id: Id :: db.Alive(id) && id in db.added ==> ListedOnce(db, id)
  }

  // ---------------------------------------------------------------------------------------------
  // Administrative steps
  // ---------------------------------------------------------------------------------------------

  ghost predicate ListKept(db: DB, db': DB) {
    || (db'.freeNodes == db.freeNodes && db'.added == db.added)
    || (db'.freeNodes == db.freeNodes + [|db.objects|] && db'.added == db.added + {|db.objects|})
  }

  lemma NotListed(db: DB, id: Id)
    requires WellFormed(db) && |db.objects| <= id
    ensures multiset(db.freeNodes)[id] == 0
  {
    assert id !in db.freeNodes;
  }

  lemma NoLeases(db: DB, id: Id)
    requires WellFormed(db) && Records(db) && (|db.objects| <= id || !db.objects[id].IsInitialized())
    ensures InUse(db.open, id) == Nothing && forall o :: o in db.open ==> o.lease.node != id
  {
    forall o | o in db.open ensures o.lease.node != id {
      assert db.leases[o.id] == o.lease;
    }
    UnusedNode(db.open, id);
  }

  lemma AdministrativeKeepsExact(db: DB, db': DB)
    requires Inv(db) && Exact(db) && Administrative(db, db') && ListKept(db, db')
    ensures Exact(db')
  {
    forall id: Id | db'.Alive(id) && id in db'.added ensures ListedOnce(db', id) {
      if id < |db.objects| {
        assert db.Alive(id) && ListedOnce(db, id);
      } else {
        NotListed(db, id);
        NoLeases(db, id);
      }
    }
  }

  // ---------------------------------------------------------------------------------------------
  // Leases
  // ---------------------------------------------------------------------------------------------

  lemma GrantEffect(db: DB, c: int, m: int, k: nat, id: Id)
    requires WellFormed(db) && k < |db.freeNodes| && Open(db, c, m) == GrantAt(db, c, m, k)
    requires id < |db.objects| && db.Alive(id)
    ensures var db', node := Open(db, c, m).0, db.freeNodes[k];
            var total := db.objects[node].Take(c, m).IsFullyLeased();
            && |db'.objects| == |db.objects|
            && db'.objects[id] == (if id == node then db.objects[id].Take(c, m) else db.objects[id])
            && db'.open == db.open + [OpenLease(db.leaseCount % LEASE_IDS, Lease(c, m, total, node))]
            && multiset(db'.freeNodes)[id] + (if total && id == node then 1 else 0) == multiset(db.freeNodes)[id]
  {
    OpenCounts(db, c, m, id);
  }

  /** A grant drops its node from the list exactly when the lease is "total". */
  lemma GrantKeepsListed(db: DB, c: int, m: int, k: nat, id: Id)
    requires WellFormed(db) && k < |db.freeNodes| && Open(db, c, m) == GrantAt(db, c, m, k)
    requires id < |db.objects| && db.Alive(id) && ListedOnce(db, id)
    ensures ListedOnce(Open(db, c, m).0, id)
  {
    GrantEffect(db, c, m, k, id);
    var o := Open(db, c, m).0.open[|db.open|];
    InUseAppend(db.open, o, id);
  }

  lemma {:induction false} LiveOnlyFrom(db: DB, ids: seq<Id>, s: set<Id>)
    requires forall i :: 0 <= i < |ids| ==> ids[i] in s
    ensures forall i :: 0 <= i < |LiveOnly(db, ids)| ==> LiveOnly(db, ids)[i] in s
  {
    if ids != [] { LiveOnlyFrom(db, ids[..|ids| - 1], s); }
  }

  lemma OpenKeepsFromAdd(db: DB, c: int, m: int)
    requires WellFormed(db) && FromAdd(db)
    ensures FromAdd(Open(db, c, m).0)
  {
    var k := FirstFit(db, c, m, 0);
    FirstFitIsFirst(db, c, m, 0);
    LiveOnlyFrom(db, db.freeNodes, db.added);
    LiveOnlyFrom(db, db.freeNodes[..k], db.added);
  }

  lemma OpenKeepsExact(db: DB, c: int, m: int)
    requires Inv(db) && Exact(db)
    ensures Exact(Open(db, c, m).0)
  {
    var k := FirstFit(db, c, m, 0);
    FirstFitIsFirst(db, c, m, 0);
    OpenKeepsFromAdd(db, c, m);
    var db' := Open(db, c, m).0;
    forall id: Id | db'.Alive(id) && id in db'.added ensures ListedOnce(db', id) {
      assert db.Alive(id) && ListedOnce(db, id);
      AliveIsObject(db, id);
      if k < |db.freeNodes| {
        GrantKeepsListed(db, c, m, k, id);
      } else {
        OpenCounts(db, c, m, id);
      }
    }
  }

  lemma CloseLists(db: DB, id: nat, n: Id)
    requires WellFormed(db) && id in db.leases && db.Alive(n)
    ensures var db', lease := Close(db, id), db.leases[id];
            && db'.open == Without(db.open, id)
            && multiset(db'.freeNodes)[n] == multiset(db.freeNodes)[n] + if lease.total && n == lease.node then 1 else 0
  {
  }

  lemma CloseKeepsListed(db: DB, id: nat, k: nat, n: Id)
    requires WellFormed(db) && id in db.leases && k < |db.open| && db.open[k] == OpenLease(id, db.leases[id])
    requires DistinctIds(db.open) && n < |db.objects| && db.Alive(n) && ListedOnce(db, n)
    ensures ListedOnce(Close(db, id), n)
  {
    CloseLists(db, id, n);
    WithoutUse(db.open, k, n);
  }

  lemma CloseKeepsFromAdd(db: DB, id: nat)
    requires WellFormed(db) && FromAdd(db)
    ensures FromAdd(Close(db, id))
  {
  }

  lemma CloseKeepsExact(db: DB, id: nat)
    requires Inv(db) && Exact(db) && (id in db.leases ==> IsOpen(db, id))
    ensures Exact(Close(db, id))
  {
    if id in db.leases {
      var k :| 0 <= k < |db.open| && db.open[k].id == id;
      assert db.open[k] in db.open;
      CloseKeepsFromAdd(db, id);
      var db' := Close(db, id);
      forall n: Id | db'.Alive(n) && n in db'.added ensures ListedOnce(db', n) {
        assert db.Alive(n) && n in db.added && ListedOnce(db, n);
        AliveIsObject(db, n);
        CloseKeepsListed(db, id, k, n);
      }
    }
  }

  // ---------------------------------------------------------------------------------------------
  // Runs
  // ---------------------------------------------------------------------------------------------

  lemma AddKeepsExact(db: DB, name: string, cores: int, memory: int)
    requires Inv(db) && Exact(db)
    ensures Exact(AddNode(db, name, cores, memory).0)
  {
    AddIsAdministrative(db, name, cores, memory);
    AdministrativeKeepsExact(db, AddNode(db, name, cores, memory).0);
  }

  lemma ApplyKeepsExact(db: DB, op: Op)
    requires Inv(db) && Exact(db) && Legal(db, op)
    ensures Exact(Apply(db, op))
  {
    var db' := Apply(db, op);
    match op
    case AddOp(name, cores, memory) =>
      if NODE_NAME_LENGTH <= |name| { AddKeepsExact(db, name, cores, memory); }
    case LoadOp(name, cores, memory) => AddKeepsExact(db, name, cores, memory);
    case ConnectOp(qp) =>
      ConnectIsAdministrative(db, qp);
      AdministrativeKeepsExact(db, db');
    case RegisterOp(qp, name) =>
      RegisterIsAdministrative(db, qp, name);
      AdministrativeKeepsExact(db, db');
    case RemoveOp(qp) =>
      RemoveIsAdministrative(db, qp);
      AdministrativeKeepsExact(db, db');
    case OpenOp(cores, memory) => OpenKeepsExact(db, cores, memory);
    case CloseOp(id) => CloseKeepsExact(db, id);
  }

  lemma EmptyIsExact()
    ensures Exact(Empty)
  {
  }

  lemma {:induction false} RunIsExact(run: seq<DB>, ops: seq<Op>, i: nat)
    requires IsRun(run, ops) && i < |run|
    ensures Exact(run[i])
    decreases i
  {
    if i == 0 {
      EmptyIsExact();
    } else {
      assert StepAt(run, ops, i - 1);
      RunInvariant(run, ops, i - 1);
      RunIsExact(run, ops, i - 1);
      ApplyKeepsExact(run[i - 1], ops[i - 1]);
    }
  }

  /** The object was made for a connection: it is the one that an earlier `connect` appended. */
  ghost predicate MadeByConnect(run: seq<DB>, ops: seq<Op>, i: nat, id: Id)
    requires i <= |ops| <= |run|
  {
    exists j :: 0 <= j < i && ops[j].ConnectOp? && |run[j].objects| == id
  }

  /** Whatever an operation appends to the objects was added, unless it is a connection. */
  lemma OriginStep(db: DB, op: Op)
    requires WellFormed(db)
    ensures var db' := Apply(db, op);
            && |db.objects| <= |db'.objects| <= |db.objects| + 1
            && db.added <= db'.added <= db.added + {|db.objects|}
            && (|db.objects| < |db'.objects| ==> (|db.objects| in db'.added <==> !op.ConnectOp?))
  {
  }

  lemma {:induction false} OriginExact(run: seq<DB>, ops: seq<Op>, i: nat, id: Id)
    requires IsRun(run, ops) && i < |run| && id < |run[i].objects|
    ensures id in run[i].added <==> !MadeByConnect(run, ops, i, id)
    decreases i
  {
    if 0 < i {
      assert StepAt(run, ops, i - 1);
      OriginStep(run[i - 1], ops[i - 1]);
      if id < |run[i - 1].objects| {
        OriginExact(run, ops, i - 1, id);
      } else if MadeByConnect(run, ops, i, id) {
        var j :| 0 <= j < i && ops[j].ConnectOp? && |run[j].objects| == id;
        if j < i - 1 { ObjectsGrow(run, ops, j, i - 1); }
      }
    }
  }

  lemma {:induction false} ObjectsGrow(run: seq<DB>, ops: seq<Op>, j: nat, i: nat)
    requires IsRun(run, ops) && j < i < |run|
    ensures |run[j].objects| <= |run[i].objects|
    ensures ops[j].ConnectOp? ==> |run[j].objects| < |run[i].objects|
    decreases i
  {
    assert StepAt(run, ops, i - 1);
    OriginStep(run[i - 1], ops[i - 1]);
    if j + 1 < i { ObjectsGrow(run, ops, j, i - 1); }
  }

  /** The free list over every run, whatever the capacities and requests.  A live node that was made
      for a connection is never listed and never leased.  Every other live node is listed exactly once
      when it has no open "total" lease and not at all otherwise, and it never has more than one. */
  lemma FreeListExact(run: seq<DB>, ops: seq<Op>, i: nat, id: Id)
    requires IsRun(run, ops) && i < |run| && run[i].Alive(id)
    ensures MadeByConnect(run, ops, i, id) ==>
              id !in run[i].freeNodes && forall o :: o in run[i].open ==> o.lease.node != id
    ensures !MadeByConnect(run, ops, i, id) ==>
              && multiset(run[i].freeNodes)[id] == (if HasTotal(run[i].open, id) then 0 else 1)
              && InUse(run[i].open, id).totals <= 1
  {
    RunInvariant(run, ops, i);
    RunIsExact(run, ops, i);
    AliveIsObject(run[i], id);
    OriginExact(run, ops, i, id);
    if MadeByConnect(run, ops, i, id) {
      forall o | o in run[i].open ensures o.lease.node != id {
        assert run[i].leases[o.id] == o.lease;
      }
    } else {
      assert ListedOnce(run[i], id);
      TotalsCount(run[i].open, id);
    }
  }

  // ---------------------------------------------------------------------------------------------
  // Adding a node that is already there
  // ---------------------------------------------------------------------------------------------

  /** Adds `name`, by request or from the file. */
  predicate Adds(op: Op, name: string) {
    (op.AddOp? || op.LoadOp?) && op.name == name
  }

  function AddResult(db: DB, op: Op): ResultCode
    requires WellFormed(db) && (op.AddOp? || op.LoadOp?)
  {
    if op.AddOp? then Add(db, op.name, op.cores, op.memory).1 else AddNode(db, op.name, op.cores, op.memory).1
  }

  /** An add that reports success makes its node available for leases, that is, listed or under its one
      total lease, if and only if the node was not made for a connection that registered first. */
  lemma AddListsIff(run: seq<DB>, ops: seq<Op>, i: nat, name: string)
    requires IsRun(run, ops) && i < |ops| && Adds(ops[i], name)
    requires WellFormed(run[i]) && AddResult(run[i], ops[i]) == OK
    ensures name in run[i + 1].byName
    ensures var db, id := run[i + 1], run[i + 1].byName[name];
            (id in db.freeNodes || HasTotal(db.open, id)) <==> !MadeByConnect(run, ops, i, id)
  {
    assert StepAt(run, ops, i);
    var db := run[i + 1];
    var id := db.byName[name];
    assert id in db.byName.Values;
    FreeListExact(run, ops, i + 1, id);
    SameOrigin(run, ops, i, id);
  }

  lemma SameOrigin(run: seq<DB>, ops: seq<Op>, i: nat, id: Id)
    requires IsRun(run, ops) && i < |ops| && !ops[i].ConnectOp?
    ensures MadeByConnect(run, ops, i + 1, id) <==> MadeByConnect(run, ops, i, id)
  {
  }

  // ---------------------------------------------------------------------------------------------
  // The same condition, as the caller can see it before the call
  // ---------------------------------------------------------------------------------------------

  ghost predicate Named(ops: seq<Op>) {
    forall i :: 0 <= i < |ops| && (ops[i].AddOp? || ops[i].LoadOp?) ==> ops[i].name != ""
  }

  /** An added object has its name; one made for a connection has the connection. */
  ghost predicate Marked(db: DB) {
    && (forall id :: 0 <= id < |db.objects| && id in db.added ==> db.objects[id].name != "")
    && (forall id :: 0 <= id < |db.objects| && id !in db.added ==> db.objects[id].connected)
  }

  lemma MarkedStep(db: DB, op: Op)
    requires WellFormed(db) && Linked(db) && Marked(db) && ((op.AddOp? || op.LoadOp?) ==> op.name != "")
    ensures Marked(Apply(db, op))
  {
    if op.AddOp? || op.LoadOp? { AddIsMarked(db, op.name, op.cores, op.memory); }
    if op.RegisterOp? { RegisterIsMarked(db, op.qp, op.name); }
  }

  lemma AddIsMarked(db: DB, name: string, cores: int, memory: int)
    requires WellFormed(db) && Marked(db) && name != ""
    ensures Marked(AddNode(db, name, cores, memory).0)
  {
  }

  lemma RegisterIsMarked(db: DB, qp: nat, name: string)
    requires WellFormed(db) && Linked(db) && Marked(db)
    ensures Marked(Register(db, qp, name).0)
  {
  }

  lemma {:induction false} RunIsMarked(run: seq<DB>, ops: seq<Op>, i: nat)
    requires IsRun(run, ops) && Named(ops) && i < |run|
    ensures Marked(run[i])
    decreases i
  {
    if 0 < i {
      assert StepAt(run, ops, i - 1);
      RunInvariant(run, ops, i - 1);
      RunIsMarked(run, ops, i - 1);
      MarkedStep(run[i - 1], ops[i - 1]);
    }
  }

  /** When no node is given the empty name: an add that reports success makes its node available if and
      only if the name was new or the node of that name had no connection yet. */
  lemma AddListsIffUnconnected(run: seq<DB>, ops: seq<Op>, i: nat, name: string)
    requires IsRun(run, ops) && Named(ops) && i < |ops| && Adds(ops[i], name)
    requires WellFormed(run[i]) && AddResult(run[i], ops[i]) == OK
    ensures name in run[i + 1].byName
    ensures var db, id := run[i + 1], run[i + 1].byName[name];
            (id in db.freeNodes || HasTotal(db.open, id)) <==>
              name !in run[i].byName || !run[i].objects[run[i].byName[name]].connected
  {
    assert StepAt(run, ops, i);
    AddListsIff(run, ops, i, name);
    RunIsMarked(run, ops, i);
    var id := run[i + 1].byName[name];
    if name in run[i].byName {
      assert id == run[i].byName[name];
      OriginExact(run, ops, i, id);
    } else {
      assert id == |run[i].objects|;
      NotMadeYet(run, ops, i, id);
    }
  }

  lemma NotMadeYet(run: seq<DB>, ops: seq<Op>, i: nat, id: Id)
    requires IsRun(run, ops) && i < |run| && id == |run[i].objects|
    ensures !MadeByConnect(run, ops, i, id)
  {
    if MadeByConnect(run, ops, i, id) {
      var j :| 0 <= j < i && ops[j].ConnectOp? && |run[j].objects| == id;
      ObjectsGrow(run, ops, j, i);
      assert false;
    }
  }
}
