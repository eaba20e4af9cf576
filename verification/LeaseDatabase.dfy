/** `ExecutorDB` and `Executors` as the program keeps them: fields that the operations update, and the
    loop of `open_lease` that erases from the list it walks. */
module LeaseDatabase {
  import opened Leases
  import opened LeaseRuns

  /** The loop of `open_lease` has passed the first `k` entries of the original list: the dead ones
      are gone, none was usable, and the iterator stands at position `it` of the current list. */
  ghost predicate Walked(db: DB, c: int, m: int, k: nat, list: seq<Id>, it: nat) {
    && k <= |db.freeNodes|
    && list == LiveOnly(db, db.freeNodes[..k]) + db.freeNodes[k..]
    && it == |LiveOnly(db, db.freeNodes[..k])|
    && FirstFit(db, c, m, 0) == FirstFit(db, c, m, k)
  }

  lemma WalkAt(db: DB, c: int, m: int, k: nat, list: seq<Id>, it: nat)
    requires Walked(db, c, m, k, list, it) && it < |list|
    ensures k < |db.freeNodes| && list[it] == db.freeNodes[k]
    ensures Usable(db, list[it], c, m) ==> FirstFit(db, c, m, 0) == k
  {
  }

  lemma WalkStart(db: DB, c: int, m: int)
    ensures Walked(db, c, m, 0, db.freeNodes, 0)
  {
    assert db.freeNodes[..0] == [] && db.freeNodes == db.freeNodes[0..];
  }

  lemma WalkStep(db: DB, c: int, m: int, k: nat, list: seq<Id>, it: nat)
    requires Walked(db, c, m, k, list, it) && it < |list| && !Usable(db, list[it], c, m)
    ensures db.Alive(list[it]) ==> Walked(db, c, m, k + 1, list, it + 1)
    ensures !db.Alive(list[it]) ==> Walked(db, c, m, k + 1, list[..it] + list[it + 1..], it)
  {
    WalkAt(db, c, m, k, list, it);
    var id := list[it];
    LiveAppend(db, db.freeNodes[..k], id);
    assert db.freeNodes[..k] + [id] == db.freeNodes[..k + 1];
    assert db.freeNodes[k..] == [id] + db.freeNodes[k + 1..];
  }

  lemma WalkRefused(db: DB, c: int, m: int, k: nat, list: seq<Id>, it: nat)
    requires WellFormed(db) && Walked(db, c, m, k, list, it) && k == FirstFit(db, c, m, 0)
    requires it == |list|
    ensures Open(db, c, m) == (db.(freeNodes := list), Refused)
  {
    assert k == |db.freeNodes|;
    assert db.freeNodes[..k] == db.freeNodes && db.freeNodes[k..] == [];
    assert list == LiveOnly(db, db.freeNodes);
  }

  /** Granting on the node under the iterator. */
  function GrantHere(db: DB, c: int, m: int, it: nat): (DB, Grant)
    requires it < |db.freeNodes| && db.freeNodes[it] < |db.objects|
  {
    var id := db.freeNodes[it];
    var node := db.objects[id].Take(c, m);
    var total := node.IsFullyLeased();
    var leaseId := db.leaseCount % LEASE_IDS;
    var lease := Lease(c, m, total, id);
    (db.(objects := db.objects[id := node],
         freeNodes := if total then db.freeNodes[..it] + db.freeNodes[it + 1..] else db.freeNodes,
         leases := if leaseId in db.leases then db.leases else db.leases[leaseId := lease],
         leaseCount := db.leaseCount + 1,
         open := db.open + [OpenLease(leaseId, lease)]),
     Granted(leaseId, id))
  }

  lemma WalkedList(db: DB, c: int, m: int, k: nat, list: seq<Id>, it: nat)
    requires Walked(db, c, m, k, list, it) && it < |list|
    ensures k < |db.freeNodes| && list[it] == db.freeNodes[k]
    ensures list == LiveOnly(db, db.freeNodes[..k]) + [list[it]] + db.freeNodes[k + 1..]
    ensures list[..it] + list[it + 1..] == LiveOnly(db, db.freeNodes[..k]) + [] + db.freeNodes[k + 1..]
  {
    WalkAt(db, c, m, k, list, it);
    var live := LiveOnly(db, db.freeNodes[..k]);
    assert list[..it] == live && list[it + 1..] == db.freeNodes[k + 1..];
  }

  lemma GrantHereIsGrantAt(db: DB, c: int, m: int, k: nat, list: seq<Id>, it: nat)
    requires it < |list| && k < |db.freeNodes| && list[it] == db.freeNodes[k] < |db.objects|
    requires list == LiveOnly(db, db.freeNodes[..k]) + [list[it]] + db.freeNodes[k + 1..]
    requires list[..it] + list[it + 1..] == LiveOnly(db, db.freeNodes[..k]) + [] + db.freeNodes[k + 1..]
    ensures GrantAt(db, c, m, k) == GrantHere(db.(freeNodes := list), c, m, it)
  {
    assert GrantAt(db, c, m, k).0.freeNodes == GrantHere(db.(freeNodes := list), c, m, it).0.freeNodes;
  }

  lemma WalkGranted(db: DB, c: int, m: int, k: nat, list: seq<Id>, it: nat)
    requires WellFormed(db) && Walked(db, c, m, k, list, it) && k == FirstFit(db, c, m, 0)
    requires it < |list|
    ensures list[it] < |db.objects| && Open(db, c, m) == GrantHere(db.(freeNodes := list), c, m, it)
  {
    WalkedList(db, c, m, k, list, it);
    GrantHereIsGrantAt(db, c, m, k, list, it);
  }

  lemma CounterFollows(grants: nat)
    ensures (grants % LEASE_IDS + 1) % LEASE_IDS == (grants + 1) % LEASE_IDS
  {
  }

  class ExecutorDB {
    var objects: seq<Node>
    var byName: map<string, Id>
    var byConn: map<nat, Id>
    var freeNodes: seq<Id>
    var leases: map<nat, Lease>
    var leaseCount: nat
    ghost var grants: nat
    ghost var open: seq<OpenLease>
    ghost var added: set<Id>

    ghost function State(): DB
      reads this
    {
      DB(objects, byName, byConn, freeNodes, leases, grants, open, added)
    }

    /** The 32-bit counter follows the number of grants. */
    ghost predicate Valid()
      reads this
    {
      WellFormed(State()) && leaseCount == grants % LEASE_IDS
    }

    predicate IsAlive(id: Id)
      reads this
    {
      id in byName.Values || id in byConn.Values
    }

    constructor ()
      ensures Valid() && State() == Empty && Inv(State())
    {
      objects, byName, byConn, freeNodes, leases, leaseCount := [], map[], map[], [], map[], 0;
      grants, open, added := 0, [], {};
    }

    method Add(name: string, cores: int, memory: int) returns (code: ResultCode)
      requires Valid()
      modifies this
      ensures Valid() && (State(), code) == Leases.Add(old(State()), name, cores, memory)
      ensures old(Inv(State()) && Legal(State(), AddOp(name, cores, memory))) ==> Inv(State())
    {
      if Inv(State()) && Legal(State(), AddOp(name, cores, memory)) {
        ApplyKeeps(State(), AddOp(name, cores, memory));
      }
      if |name| < NODE_NAME_LENGTH {
        return MALFORMED_DATA;
      }
      code := AddExecutor(name, cores, memory);
    }

    /** `add_executor` and the push onto the free list. */
    method AddExecutor(name: string, cores: int, memory: int) returns (code: ResultCode)
      requires Valid()
      modifies this
      ensures Valid() && (State(), code) == AddNode(old(State()), name, cores, memory)
      ensures old(Inv(State()) && Legal(State(), LoadOp(name, cores, memory))) ==> Inv(State())
    {
      if Inv(State()) && Legal(State(), LoadOp(name, cores, memory)) {
        ApplyKeeps(State(), LoadOp(name, cores, memory));
      }
      var exec := |objects|;
      var node := FreshNode(name, cores, memory);
      if name in byName {
        var there := byName[name];
        if objects[there].IsInitialized() {
          return EXECUTOR_EXISTS;
        }
        objects := objects[there := node.(connected := objects[there].connected)];
      } else {
        byName := byName[name := exec];
      }
      objects := objects + [node];
      freeNodes := freeNodes + [exec];
      added := added + {exec};
      code := OK;
    }

    method ConnectExecutor(qp: nat)
      requires Valid()
      modifies this
      ensures Valid() && State() == Connect(old(State()), qp)
      ensures old(Inv(State()) && Legal(State(), ConnectOp(qp))) ==> Inv(State())
    {
      if Inv(State()) && Legal(State(), ConnectOp(qp)) {
        ApplyKeeps(State(), ConnectOp(qp));
      }
      byConn := byConn[qp := |objects|];
      objects := objects + [Node("", true, 0, 0, 0, 0)];
    }

    method RegisterExecutor(qp: nat, name: string) returns (success: bool)
      requires Valid()
      modifies this
      ensures Valid() && (State(), success) == Register(old(State()), qp, name)
      ensures old(Inv(State()) && Legal(State(), RegisterOp(qp, name))) ==> Inv(State())
    {
      if Inv(State()) && Legal(State(), RegisterOp(qp, name)) {
        ApplyKeeps(State(), RegisterOp(qp, name));
      }
      if qp !in byConn {
        return false;
      }
      if name !in byName {
        byName := byName[name := byConn[qp]];
      } else {
        var there := byName[name];
        objects := objects[there := objects[there].(connected := objects[byConn[qp]].connected)];
        byConn := byConn[qp := there];
      }
      success := true;
    }

    method RemoveExecutor(qp: nat) returns (success: bool)
      requires Valid()
      modifies this
      ensures Valid() && (State(), success) == Remove(old(State()), qp)
      ensures old(Inv(State()) && Legal(State(), RemoveOp(qp))) ==> Inv(State())
    {
      if Inv(State()) && Legal(State(), RemoveOp(qp)) {
        ApplyKeeps(State(), RemoveOp(qp));
      }
      if qp !in byConn {
        return false;
      }
      byName := byName - {objects[byConn[qp]].name};
      byConn := byConn - {qp};
      success := true;
    }

    /** The loop erases dead handles from the list it walks and stops at the first usable node. */
    method FindNode(c: int, m: int) returns (it: nat)
      requires Valid()
      modifies this`freeNodes
      ensures Walked(old(State()), c, m, FirstFit(old(State()), c, m, 0), freeNodes, it)
    {
      it := 0;
      ghost var db := State();
      ghost var k := 0;
      WalkStart(db, c, m);
      while it < |freeNodes|
        invariant Walked(db, c, m, k, freeNodes, it)
        decreases |freeNodes| - it
      {
        var id := freeNodes[it];
        WalkAt(db, c, m, k, freeNodes, it);
        assert db.Alive(id) == IsAlive(id) && id < |db.objects| && db.objects == objects;
        if IsAlive(id) && objects[id].IsInitialized() && objects[id].Fits(c, m) {
          return;
        }
        WalkStep(db, c, m, k, freeNodes, it);
        if !IsAlive(id) {
          freeNodes := freeNodes[..it] + freeNodes[it + 1..];
        } else {
          it := it + 1;
        }
        k := k + 1;
      }
    }

    method GrantLease(c: int, m: int, it: nat) returns (grant: Grant)
      requires leaseCount == grants % LEASE_IDS && it < |freeNodes| && freeNodes[it] < |objects|
      modifies this
      ensures (State(), grant) == GrantHere(old(State()), c, m, it)
      ensures leaseCount == grants % LEASE_IDS
    {
      var id := freeNodes[it];
      objects := objects[id := objects[id].Take(c, m)];
      var leaseId := leaseCount;
      leaseCount := (leaseCount + 1) % LEASE_IDS;
      var total := objects[id].IsFullyLeased();
      if total {
        freeNodes := freeNodes[..it] + freeNodes[it + 1..];
      }
      var lease := Lease(c, m, total, id);
      if leaseId !in leases {
        leases := leases[leaseId := lease];
      }
      CounterFollows(grants);
      open, grants := open + [Leases.OpenLease(leaseId, lease)], grants + 1;
      grant := Granted(leaseId, id);
    }

    method OpenLease(c: int, m: int) returns (grant: Grant)
      requires Valid()
      modifies this
      ensures Valid() && (State(), grant) == Open(old(State()), c, m)
      ensures old(Inv(State()) && Legal(State(), OpenOp(c, m))) ==> Inv(State())
    {
      if Inv(State()) && Legal(State(), OpenOp(c, m)) {
        ApplyKeeps(State(), OpenOp(c, m));
      }
      ghost var db := State();
      OpenWellFormed(db, c, m);
      if |freeNodes| == 0 {
        assert db == db.(freeNodes := LiveOnly(db, db.freeNodes));
        return Refused;
      }
      var it := FindNode(c, m);
      if it < |freeNodes| {
        WalkGranted(db, c, m, FirstFit(db, c, m, 0), freeNodes, it);
        grant := GrantLease(c, m, it);
      } else {
        WalkRefused(db, c, m, FirstFit(db, c, m, 0), freeNodes, it);
        grant := Refused;
      }
    }

    method CloseLease(id: nat)
      requires Valid()
      modifies this
      ensures Valid() && State() == Close(old(State()), id)
      ensures old(Inv(State()) && Legal(State(), CloseOp(id))) ==> Inv(State())
    {
      if Inv(State()) && Legal(State(), CloseOp(id)) {
        ApplyKeeps(State(), CloseOp(id));
      }
      if id !in leases {
        return;
      }
      open := Without(open, id);
      var lease := leases[id];
      if !IsAlive(lease.node) {
        return;
      }
      objects := objects[lease.node := objects[lease.node].GiveBack(lease.cores, lease.memory)];
      if lease.total {
        freeNodes := freeNodes + [lease.node];
      }
    }
  }
}
