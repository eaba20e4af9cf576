/** The resource manager's executor database: `Executors` (nodes by name and by connection) and
    `ExecutorDB` (the free list and the leases). */
module Leases {

  /** An `Executor` object is addressed by a handle: its position in `objects`, never reused. */
  type Id = nat

  datatype Node = Node(name: string, connected: bool, cores: int, memory: int, freeCores: int, freeMemory: int) {
    predicate IsInitialized() { name != "" && connected }

    predicate Fits(c: int, m: int) { m <= freeMemory && c <= freeCores }

    predicate IsFullyLeased() { freeCores == 0 || freeMemory == 0 }

    function Take(c: int, m: int): Node { this.(freeCores := freeCores - c, freeMemory := freeMemory - m) }

    function GiveBack(c: int, m: int): Node { this.(freeCores := freeCores + c, freeMemory := freeMemory + m) }
  }

  datatype Lease = Lease(cores: int, memory: int, total: bool, node: Id)

  /** A granted lease that has not been closed. */
  datatype OpenLease = OpenLease(id: nat, lease: Lease)

  /** `leaseCount` is the number of leases granted; the program keeps it modulo 2^32.  `open` and
      `added` are not stored by the program: the leases granted and not closed, in order, and the
      handles that `add` has put on the free list. */
  datatype DB = DB(objects: seq<Node>, byName: map<string, Id>, byConn: map<nat, Id>,
                   freeNodes: seq<Id>, leases: map<nat, Lease>, leaseCount: nat,
                   open: seq<OpenLease>, added: set<Id>) {

    /** Some `shared_ptr` still owns the object, so that a `weak_ptr` to it can be locked. */
    predicate Alive(id: Id) { id in byName.Values || id in byConn.Values }
  }

  const Empty: DB := DB([], map[], map[], [], map[], 0, [], {})

  /** Every handle refers to an object. */
  ghost predicate WellFormed(db: DB) {
    && (forall name :: name in db.byName ==> db.byName[name] < |db.objects|)
    && (forall qp :: qp in db.byConn ==> db.byConn[qp] < |db.objects|)
    && (forall i :: 0 <= i < |db.freeNodes| ==> db.freeNodes[i] < |db.objects|)
    && (forall id :: id in db.leases ==> db.leases[id].node < |db.objects|)
    && (forall id :: id in db.added ==> id < |db.objects|)
  }

  lemma AliveIsObject(db: DB, id: Id)
    requires WellFormed(db) && db.Alive(id)
    ensures id < |db.objects|
  {
    if id in db.byName.Values {
      var name :| name in db.byName && db.byName[name] == id;
    } else {
      var qp :| qp in db.byConn && db.byConn[qp] == id;
    }
  }

  // ---------------------------------------------------------------------------------------------
  // Nodes
  // ---------------------------------------------------------------------------------------------

  /** Conversion of an `int` to the `int16_t` parameter of `add_executor`. */
  function Int16(x: int): int {
    var r := x % 0x1_0000;
    if r < 0x8000 then r else r - 0x1_0000
  }

  function FreshNode(name: string, cores: int, memory: int): Node {
    Node(name, false, Int16(cores), memory, Int16(cores), memory)
  }

  datatype ResultCode = OK | EXECUTOR_EXISTS | MALFORMED_DATA

  const NODE_NAME_LENGTH: nat := 32

  /** `add_executor` followed by the push onto the free list.  For a name that is already there but
      not in use, the existing object takes the data while the pushed handle is the temporary one,
      which nothing owns. */
  function AddNode(db: DB, name: string, cores: int, memory: int): (DB, ResultCode)
    requires WellFormed(db)
  {
    var handle := |db.objects|;
    var node := FreshNode(name, cores, memory);
    if name !in db.byName then
      (db.(objects := db.objects + [node], byName := db.byName[name := handle],
           freeNodes := db.freeNodes + [handle], added := db.added + {handle}), OK)
    else
      var there := db.byName[name];
      if db.objects[there].IsInitialized() then (db, EXECUTOR_EXISTS)
      else
        (db.(objects := db.objects[there := node.(connected := db.objects[there].connected)] + [node],
             freeNodes := db.freeNodes + [handle], added := db.added + {handle}), OK)
  }

  function Add(db: DB, name: string, cores: int, memory: int): (DB, ResultCode)
    requires WellFormed(db)
  {
    if |name| < NODE_NAME_LENGTH then (db, MALFORMED_DATA) else AddNode(db, name, cores, memory)
  }

  /** A node connects: a nameless object with a connection. */
  function Connect(db: DB, qp: nat): DB {
    db.(objects := db.objects + [Node("", true, 0, 0, 0, 0)], byConn := db.byConn[qp := |db.objects|])
  }

  function Register(db: DB, qp: nat, name: string): (DB, bool)
    requires WellFormed(db)
  {
    if qp !in db.byConn then (db, false)
    else if name !in db.byName then (db.(byName := db.byName[name := db.byConn[qp]]), true)
    else
      var there := db.byName[name];
      var merged := db.objects[there].(connected := db.objects[db.byConn[qp]].connected);
      (db.(objects := db.objects[there := merged], byConn := db.byConn[qp := there]), true)
  }

  function Remove(db: DB, qp: nat): (DB, bool)
    requires WellFormed(db)
  {
    if qp !in db.byConn then (db, false)
    else (db.(byName := db.byName - {db.objects[db.byConn[qp]].name}, byConn := db.byConn - {qp}), true)
  }

  // ---------------------------------------------------------------------------------------------
  // Leases
  // ---------------------------------------------------------------------------------------------

  const LEASE_IDS: nat := 0x1_0000_0000

  datatype Grant = Refused | Granted(leaseId: nat, node: Id)

  /** The node can serve the request. */
  predicate Usable(db: DB, id: Id, c: int, m: int) {
    id < |db.objects| && db.Alive(id) && db.objects[id].IsInitialized() && db.objects[id].Fits(c, m)
  }

  /** The first position at or after `from` with a usable node, or the length of the list. */
  function FirstFit(db: DB, c: int, m: int, from: nat): nat
    decreases |db.freeNodes| - from
  {
    if |db.freeNodes| <= from then |db.freeNodes|
    else if Usable(db, db.freeNodes[from], c, m) then from
    else FirstFit(db, c, m, from + 1)
  }

  /** The handles whose objects are still owned. */
  function LiveOnly(db: DB, ids: seq<Id>): seq<Id> {
    if ids == [] then []
    else
      var rest := LiveOnly(db, ids[..|ids| - 1]);
      if db.Alive(ids[|ids| - 1]) then rest + [ids[|ids| - 1]] else rest
  }

  /** Grant `c` cores and `m` memory on the node at position `k` of the free list. */
  function GrantAt(db: DB, c: int, m: int, k: nat): (DB, Grant)
    requires k < |db.freeNodes| && db.freeNodes[k] < |db.objects|
  {
    var id := db.freeNodes[k];
    var node := db.objects[id].Take(c, m);
    var total := node.IsFullyLeased();
    var leaseId := db.leaseCount % LEASE_IDS;
    var lease := Lease(c, m, total, id);
    var kept := if total then [] else [id];
    (db.(objects := db.objects[id := node],
         freeNodes := LiveOnly(db, db.freeNodes[..k]) + kept + db.freeNodes[k + 1..],
         leases := if leaseId in db.leases then db.leases else db.leases[leaseId := lease],
         leaseCount := db.leaseCount + 1,
         open := db.open + [OpenLease(leaseId, lease)]),
     Granted(leaseId, id))
  }

  function Open(db: DB, c: int, m: int): (DB, Grant)
    requires WellFormed(db)
  {
    var k := FirstFit(db, c, m, 0);
    if k < |db.freeNodes| then GrantAt(db, c, m, k)
    else (db.(freeNodes := LiveOnly(db, db.freeNodes)), Refused)
  }

  /** The open leases without the one called `id`. */
  function Without(open: seq<OpenLease>, id: nat): seq<OpenLease> {
    if open == [] then []
    else if open[0].id == id then open[1..]
    else [open[0]] + Without(open[1..], id)
  }

  /** The record of the lease stays in `leases`. */
  function Close(db: DB, id: nat): DB
    requires WellFormed(db)
  {
    if id !in db.leases then db
    else
      var lease := db.leases[id];
      var closed := db.(open := Without(db.open, id));
      if !db.Alive(lease.node) then closed
      else
        closed.(objects := db.objects[lease.node := db.objects[lease.node].GiveBack(lease.cores, lease.memory)],
                freeNodes := if lease.total then db.freeNodes + [lease.node] else db.freeNodes)
  }

  // ---------------------------------------------------------------------------------------------
  // First fit
  // ---------------------------------------------------------------------------------------------

  /** `FirstFit` is the first usable position, both ways. */
  lemma {:induction false} FirstFitIsFirst(db: DB, c: int, m: int, from: nat)
    requires from <= |db.freeNodes|
    ensures var k := FirstFit(db, c, m, from);
            && from <= k <= |db.freeNodes|
            && (k < |db.freeNodes| ==> Usable(db, db.freeNodes[k], c, m))
            && (forall j :: from <= j < k ==> !Usable(db, db.freeNodes[j], c, m))
    decreases |db.freeNodes| - from
  {
    if from < |db.freeNodes| {
      FirstFitIsFirst(db, c, m, from + 1);
    }
  }

  lemma LiveAppend(db: DB, ids: seq<Id>, id: Id)
    ensures LiveOnly(db, ids + [id]) == LiveOnly(db, ids) + if db.Alive(id) then [id] else []
  {
    assert (ids + [id])[..|ids|] == ids;
  }

  /** Dropping dead handles keeps every live one as often as it was there. */
  lemma {:induction false} LiveOnlyCounts(db: DB, ids: seq<Id>, id: Id)
    ensures multiset(LiveOnly(db, ids))[id] == if db.Alive(id) then multiset(ids)[id] else 0
  {
    if ids != [] {
      var n := |ids| - 1;
      LiveOnlyCounts(db, ids[..n], id);
      assert ids == ids[..n] + [ids[n]];
    }
  }

  /** What makes a node fit for a request: something owns it, it has a name and a connection, and it has
      that many cores and that much memory free. */
  predicate CanServe(db: DB, id: Id, c: int, m: int) {
    && id < |db.objects| && (id in db.byName.Values || id in db.byConn.Values)
    && db.objects[id].name != "" && db.objects[id].connected
    && c <= db.objects[id].freeCores && m <= db.objects[id].freeMemory
  }

  /** Soundness and completeness of `open_lease`: it grants exactly when some listed node can serve the
      request, on the first such node (at position `k`), under the next id.  That node alone loses what was
      asked for; the lease is "total" exactly when no cores or no memory are left; and the list loses only
      dead handles, and the node itself when the lease is total. */
  lemma OpenIsFirstFit(db: DB, c: int, m: int) returns (k: nat)
    requires WellFormed(db)
    ensures k <= |db.freeNodes| && forall j :: 0 <= j < k ==> !CanServe(db, db.freeNodes[j], c, m)
    ensures Open(db, c, m).1.Granted? <==> k < |db.freeNodes|
    ensures k < |db.freeNodes| ==>
              var (db', grant) := Open(db, c, m);
              && CanServe(db, db.freeNodes[k], c, m)
              && grant == Granted(db.leaseCount % 0x1_0000_0000, db.freeNodes[k])
              && var n := db.objects[grant.node];
                 && db'.objects
                      == db.objects[grant.node := n.(freeCores := n.freeCores - c, freeMemory := n.freeMemory - m)]
                 && db'.leaseCount == db.leaseCount + 1 && grant.leaseId in db'.leases
                 && (grant.leaseId !in db.leases ==>
                       db'.leases[grant.leaseId] == Lease(c, m, n.freeCores == c || n.freeMemory == m, grant.node))
    ensures k == |db.freeNodes| ==> Open(db, c, m).0 == db.(freeNodes := Open(db, c, m).0.freeNodes)
    ensures forall id :: db.Alive(id) ==>
              multiset(Open(db, c, m).0.freeNodes)[id] + Dropped(db, c, m, id) == multiset(db.freeNodes)[id]
  {
    k := FirstFit(db, c, m, 0);
    FirstFitCanServe(db, c, m);
    if k < |db.freeNodes| { GrantInParts(db, c, m, k); }
    OpenCountsAll(db, c, m);
  }

  lemma FirstFitCanServe(db: DB, c: int, m: int)
    ensures var k := FirstFit(db, c, m, 0);
            && k <= |db.freeNodes| && (k < |db.freeNodes| ==> CanServe(db, db.freeNodes[k], c, m))
            && forall j :: 0 <= j < k ==> !CanServe(db, db.freeNodes[j], c, m)
  {
    var k := FirstFit(db, c, m, 0);
    FirstFitIsFirst(db, c, m, 0);
    forall j | 0 <= j < k ensures !CanServe(db, db.freeNodes[j], c, m) {
      UsableCanServe(db, db.freeNodes[j], c, m);
    }
    if k < |db.freeNodes| { UsableCanServe(db, db.freeNodes[k], c, m); }
  }

  lemma OpenCountsAll(db: DB, c: int, m: int)
    requires WellFormed(db)
    ensures forall id :: db.Alive(id) ==>
              multiset(Open(db, c, m).0.freeNodes)[id] + Dropped(db, c, m, id) == multiset(db.freeNodes)[id]
  {
    forall id | db.Alive(id)
      ensures multiset(Open(db, c, m).0.freeNodes)[id] + Dropped(db, c, m, id) == multiset(db.freeNodes)[id]
    {
      OpenCounts(db, c, m, id);
    }
  }

  lemma UsableCanServe(db: DB, id: Id, c: int, m: int)
    ensures Usable(db, id, c, m) <==> CanServe(db, id, c, m)
  {
  }

  lemma GrantInParts(db: DB, c: int, m: int, k: nat)
    requires k < |db.freeNodes| && db.freeNodes[k] < |db.objects|
    ensures var (db', grant) := GrantAt(db, c, m, k);
            && grant == Granted(db.leaseCount % 0x1_0000_0000, db.freeNodes[k])
            && var n := db.objects[grant.node];
               && db'.objects
                    == db.objects[grant.node := n.(freeCores := n.freeCores - c, freeMemory := n.freeMemory - m)]
               && db'.leaseCount == db.leaseCount + 1 && grant.leaseId in db'.leases
               && (grant.leaseId !in db.leases ==>
                     db'.leases[grant.leaseId] == Lease(c, m, n.freeCores == c || n.freeMemory == m, grant.node))
  {
  }

  /** One for the node that this request fills up. */
  function Dropped(db: DB, c: int, m: int, id: Id): nat
    requires WellFormed(db)
  {
    var (db', grant) := Open(db, c, m);
    if grant.Granted? && id == grant.node && id < |db'.objects|
       && (db'.objects[id].freeCores == 0 || db'.objects[id].freeMemory == 0) then 1 else 0
  }

  lemma OpenCounts(db: DB, c: int, m: int, id: Id)
    requires WellFormed(db) && db.Alive(id)
    ensures multiset(Open(db, c, m).0.freeNodes)[id] + Dropped(db, c, m, id) == multiset(db.freeNodes)[id]
  {
    var k := FirstFit(db, c, m, 0);
    FirstFitIsFirst(db, c, m, 0);
    if k < |db.freeNodes| {
      GrantCounts(db, c, m, k, id);
    } else {
      LiveOnlyCounts(db, db.freeNodes, id);
    }
  }

  lemma GrantCounts(db: DB, c: int, m: int, k: nat, id: Id)
    requires WellFormed(db) && db.Alive(id) && k < |db.freeNodes|
    ensures var node := db.objects[db.freeNodes[k]].Take(c, m);
            multiset(GrantAt(db, c, m, k).0.freeNodes)[id]
              + (if id == db.freeNodes[k] && (node.freeCores == 0 || node.freeMemory == 0) then 1 else 0)
              == multiset(db.freeNodes)[id]
  {
    LiveOnlyCounts(db, db.freeNodes[..k], id);
    assert db.freeNodes == db.freeNodes[..k] + [db.freeNodes[k]] + db.freeNodes[k + 1..];
  }

  // ---------------------------------------------------------------------------------------------
  // The other operations, in their parts
  // ---------------------------------------------------------------------------------------------

  /** The 16-bit number that a count of cores turns into. */
  lemma Int16Cuts(x: int)
    ensures -0x8000 <= Int16(x) < 0x8000 && (x - Int16(x)) % 0x1_0000 == 0
    ensures -0x8000 <= x < 0x8000 ==> Int16(x) == x
  {
  }

  /** `add` is refused, and changes nothing, if and only if the name is shorter than 32, or belongs to a node
      that has a name and a connection.  Otherwise the node of that name has the given capacity, all of it
      free, and the connection it had, if any. */
  lemma AddInParts(db: DB, name: string, cores: int, memory: int)
    requires WellFormed(db)
    ensures |name| < 32 ==> Add(db, name, cores, memory) == (db, MALFORMED_DATA)
    ensures 32 <= |name| ==> Add(db, name, cores, memory) == AddNode(db, name, cores, memory)
    ensures var (db', code) := AddNode(db, name, cores, memory);
            && (code == OK || (code == EXECUTOR_EXISTS && db' == db))
            && (code == EXECUTOR_EXISTS <==>
                  name in db.byName && db.objects[db.byName[name]].name != "" && db.objects[db.byName[name]].connected)
            && (code == OK ==>
                  && name in db'.byName && db'.byName[name] < |db'.objects|
                  && db'.byName.Keys == db.byName.Keys + {name} && db'.byConn == db.byConn
                  && (forall other :: other in db.byName ==> db'.byName[other] == db.byName[other])
                  && var had := name in db.byName && db.objects[db.byName[name]].connected;
                     db'.objects[db'.byName[name]] == Node(name, had, Int16(cores), memory, Int16(cores), memory))
  {
  }

  /** `connect` makes the connection reach a new object that has nothing but the connection. */
  lemma ConnectInParts(db: DB, qp: nat)
    ensures var db' := Connect(db, qp);
            && qp in db'.byConn && db'.byConn[qp] == |db.objects| && db'.objects[..|db.objects|] == db.objects
            && db'.objects[|db.objects|..] == [Node("", true, 0, 0, 0, 0)]
            && db'.byName == db.byName && db'.byConn - {qp} == db.byConn - {qp}
  {
  }

  /** `register` fails, and changes nothing, if and only if the connection is unknown.  Otherwise name and
      connection lead to the same object, which was the named one if there was one, with its capacity, and
      has the connection. */
  lemma RegisterInParts(db: DB, qp: nat, name: string)
    requires WellFormed(db)
    ensures var (db', success) := Register(db, qp, name);
            && (success <==> qp in db.byConn) && (!success ==> db' == db)
            && (success ==>
                  && qp in db'.byConn && name in db'.byName && db'.byConn[qp] == db'.byName[name]
                  && db'.byName[name] == (if name in db.byName then db.byName[name] else db.byConn[qp])
                  && |db'.objects| == |db.objects|
                  && db'.objects[db'.byName[name]]
                       == db.objects[db'.byName[name]].(connected := db.objects[db.byConn[qp]].connected)
                  && db'.byName - {name} == db.byName - {name} && db'.byConn - {qp} == db.byConn - {qp})
  {
  }

  /** `remove` fails, and changes nothing, if and only if the connection is unknown.  Otherwise the
      connection and the name of its node lead nowhere any more, and all others lead where they did. */
  lemma RemoveInParts(db: DB, qp: nat)
    requires WellFormed(db)
    ensures var (db', success) := Remove(db, qp);
            && (success <==> qp in db.byConn) && (!success ==> db' == db)
            && (success ==>
                  var name := db.objects[db.byConn[qp]].name;
                  && qp !in db'.byConn && name !in db'.byName && db'.objects == db.objects
                  && (forall other :: other in db.byConn && other != qp ==>
                        other in db'.byConn && db'.byConn[other] == db.byConn[other])
                  && (forall other :: other in db.byName && other != name ==>
                        other in db'.byName && db'.byName[other] == db.byName[other]))
  {
  }
}
