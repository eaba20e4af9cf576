/** Where the lease theorems end: closing a lease twice, asking for a negative amount, repeating an id,
    and registering a node before it is added. */
module LeaseMisuse {
  import opened Leases
  import opened LeaseRuns
  import opened LeaseFreeList
  import opened LeaseSolvency

  /** Exactly when closing a recorded lease keeps the accounts of every live node: it is still open,
      or its node is gone, or it is empty. */
  lemma CloseConservesIff(db: DB, id: nat)
    requires Inv(db) && id in db.leases
    ensures var lease := db.leases[id];
            Conserved(Close(db, id)) <==>
              IsOpen(db, id) || !db.Alive(lease.node) || (lease.cores == 0 && lease.memory == 0)
  {
    var lease, db' := db.leases[id], Close(db, id);
    if IsOpen(db, id) {
      CloseKeeps(db, id);
    } else {
      NotThere(db.open, id);
      forall n: Id | db'.Alive(n) && n < |db'.objects| && n != lease.node
        ensures Capacity(db'.objects[n], InUse(db'.open, n))
      {
        assert db.Alive(n);
      }
      if db.Alive(lease.node) {
        assert Capacity(db.objects[lease.node], InUse(db.open, lease.node));
        assert db'.Alive(lease.node);
      }
    }
  }

  lemma {:induction false} NotThere(open: seq<OpenLease>, id: nat)
    requires forall i :: 0 <= i < |open| ==> open[i].id != id
    ensures Without(open, id) == open
  {
    if open != [] { NotThere(open[1..], id); }
  }

  /** Every operation, legal or not, leaves handles that refer to objects. */
  lemma ApplyWellFormed(db: DB, op: Op)
    requires WellFormed(db)
    ensures WellFormed(Apply(db, op))
  {
    if op.OpenOp? {
      OpenWellFormed(db, op.cores, op.memory);
    }
  }

  /** The database after a sequence of operations, none of them checked. */
  ghost function Replay(ops: seq<Op>): (db: DB)
    ensures WellFormed(db)
  {
    if ops == [] then Empty
    else
      var before := Replay(ops[..|ops| - 1]);
      ApplyWellFormed(before, ops[|ops| - 1]);
      Apply(before, ops[|ops| - 1])
  }

  lemma ReplayAppend(ops: seq<Op>, op: Op)
    ensures Replay(ops + [op]) == Apply(Replay(ops), op)
  {
    assert (ops + [op])[..|ops|] == ops;
  }

  ghost predicate Reaches(ops: seq<Op>) {
    exists run: seq<DB> :: IsRun(run, ops) && run[|ops|] == Replay(ops)
  }

  lemma ReachesNothing()
    ensures Reaches([])
  {
    assert IsRun([Empty], []);
  }

  /** A legal operation continues a run. */
  lemma ReachesMore(ops: seq<Op>, op: Op)
    requires Reaches(ops) && Legal(Replay(ops), op)
    ensures Reaches(ops + [op]) && Replay(ops + [op]) == Apply(Replay(ops), op)
  {
    var run: seq<DB> :| IsRun(run, ops) && run[|ops|] == Replay(ops);
    ReplayAppend(ops, op);
    RunAppend(run, ops, op);
    assert (run + [Replay(ops + [op])])[|ops| + 1] == Replay(ops + [op]);
  }

  lemma RunAppend(run: seq<DB>, ops: seq<Op>, op: Op)
    requires IsRun(run, ops) && WellFormed(run[|ops|]) && Legal(run[|ops|], op)
    ensures IsRun(run + [Apply(run[|ops|], op)], ops + [op])
  {
    var run', ops' := run + [Apply(run[|ops|], op)], ops + [op];
    forall i | 0 <= i < |ops'| ensures StepAt(run', ops', i) {
      if i < |ops| {
        assert StepAt(run, ops, i);
        assert run'[i] == run[i] && run'[i + 1] == run[i + 1] && ops'[i] == ops[i];
      } else {
        assert run'[i] == run[|ops|] && ops'[i] == op;
      }
    }
  }

  // ---------------------------------------------------------------------------------------------
  // One node
  // ---------------------------------------------------------------------------------------------

  /** A database with one connected node of the given free capacity. */
  ghost predicate OneNode(db: DB, cores: int, memory: int, freeCores: int, freeMemory: int, listed: bool) {
    && |db.objects| == 2 && db.objects[0] == Node("n", true, cores, memory, freeCores, freeMemory)
    && db.byName == map["n" := 0] && db.byConn == map[7 := 0]
    && db.freeNodes == if listed then [0] else []
  }

  function SetUp(cores: int, memory: int): seq<Op> {
    [LoadOp("n", cores, memory)] + [ConnectOp(7)] + [RegisterOp(7, "n")]
  }

  lemma Connected(cores: int, memory: int)
    requires 0 < cores < 0x8000
    ensures var ops := [LoadOp("n", cores, memory)] + [ConnectOp(7)];
            && Reaches(ops)
            && Replay(ops) == Empty.(objects := [Node("n", false, cores, memory, cores, memory),
                                                 Node("", true, 0, 0, 0, 0)],
                                     byName := map["n" := 0], byConn := map[7 := 1], freeNodes := [0], added := {0})
  {
    var load, connect := LoadOp("n", cores, memory), ConnectOp(7);
    assert [] + [load] == [load];
    ReachesNothing();
    ReachesMore([], load);
    assert Replay([load]).objects == [Node("n", false, cores, memory, cores, memory)];
    ReachesMore([load], connect);
  }

  /** A node is loaded, connects and registers. */
  lemma OneNodeReady(cores: int, memory: int)
    requires 0 < cores < 0x8000
    ensures var db := Replay(SetUp(cores, memory));
            && OneNode(db, cores, memory, cores, memory, true)
            && db.leases == map[] && db.leaseCount == 0 && db.open == []
    ensures Reaches(SetUp(cores, memory))
  {
    Connected(cores, memory);
    ReachesMore([LoadOp("n", cores, memory)] + [ConnectOp(7)], RegisterOp(7, "n"));
  }

  lemma OpenOnOneNode(db: DB, cores: int, memory: int, fc: int, fm: int, c: int, m: int)
    requires OneNode(db, cores, memory, fc, fm, true) && WellFormed(db) && c <= fc && m <= fm
    requires db.leaseCount < LEASE_IDS && db.leaseCount !in db.leases
    ensures var db', total := Open(db, c, m).0, fc == c || fm == m;
            && OneNode(db', cores, memory, fc - c, fm - m, !total)
            && db'.leases == db.leases[db.leaseCount := Lease(c, m, total, 0)]
            && db'.leaseCount == db.leaseCount + 1
            && db'.open == db.open + [OpenLease(db.leaseCount, Lease(c, m, total, 0))]
  {
    assert "n" in db.byName && db.byName["n"] == 0 && db.Alive(0);
    assert Usable(db, 0, c, m);
    assert FirstFit(db, c, m, 0) == 0;
    assert LiveOnly(db, []) == [];
    assert db.freeNodes[..0] == [] && db.freeNodes[1..] == [];
  }

  lemma CloseOnOneNode(db: DB, cores: int, memory: int, fc: int, fm: int, listed: bool, id: nat)
    requires OneNode(db, cores, memory, fc, fm, listed) && WellFormed(db)
    requires id in db.leases && !db.leases[id].total && db.leases[id].node == 0
    ensures var db' := Close(db, id);
            && OneNode(db', cores, memory, fc + db.leases[id].cores, fm + db.leases[id].memory, listed)
            && db'.leases == db.leases && db'.leaseCount == db.leaseCount && db'.open == Without(db.open, id)
  {
    assert "n" in db.byName && db.byName["n"] == 0 && db.Alive(0);
  }

  lemma OpenStep(ops: seq<Op>, cores: int, memory: int, fc: int, fm: int, c: int, m: int)
    requires OneNode(Replay(ops), cores, memory, fc, fm, true) && c <= fc && m <= fm
    requires Replay(ops).leaseCount < LEASE_IDS && Replay(ops).leaseCount !in Replay(ops).leases
    ensures var db, db', total := Replay(ops), Replay(ops + [OpenOp(c, m)]), fc == c || fm == m;
            && OneNode(db', cores, memory, fc - c, fm - m, !total)
            && db'.leases == db.leases[db.leaseCount := Lease(c, m, total, 0)]
            && db'.leaseCount == db.leaseCount + 1
            && db'.open == db.open + [OpenLease(db.leaseCount, Lease(c, m, total, 0))]
    ensures Reaches(ops) ==> Reaches(ops + [OpenOp(c, m)])
  {
    ReplayAppend(ops, OpenOp(c, m));
    OpenOnOneNode(Replay(ops), cores, memory, fc, fm, c, m);
    if Reaches(ops) { ReachesMore(ops, OpenOp(c, m)); }
  }

  lemma CloseStep(ops: seq<Op>, cores: int, memory: int, fc: int, fm: int, listed: bool, id: nat, lease: Lease)
    requires OneNode(Replay(ops), cores, memory, fc, fm, listed)
    requires id in Replay(ops).leases && Replay(ops).leases[id] == lease && !lease.total && lease.node == 0
    ensures var db, db' := Replay(ops), Replay(ops + [CloseOp(id)]);
            && OneNode(db', cores, memory, fc + lease.cores, fm + lease.memory, listed)
            && db'.leases == db.leases && db'.leaseCount == db.leaseCount && db'.open == Without(db.open, id)
    ensures Reaches(ops) && IsOpen(Replay(ops), id) ==> Reaches(ops + [CloseOp(id)])
  {
    CloseOnOneNode(Replay(ops), cores, memory, fc, fm, listed, id);
    ReplayAppend(ops, CloseOp(id));
    if Reaches(ops) && IsOpen(Replay(ops), id) {
      assert Legal(Replay(ops), CloseOp(id));
      ReachesMore(ops, CloseOp(id));
    }
  }

  /** Closing one lease twice makes a node of two cores offer three. */
  lemma DoubleCloseOverdraws()
    ensures OneNode(Replay(SetUp(2, 2) + [OpenOp(1, 1)] + [CloseOp(0)] + [CloseOp(0)]), 2, 2, 3, 3, true)
  {
    var ops, lease := SetUp(2, 2), Lease(1, 1, false, 0);
    OneNodeReady(2, 2);
    OpenStep(ops, 2, 2, 2, 2, 1, 1);
    CloseStep(ops + [OpenOp(1, 1)], 2, 2, 1, 1, true, 0, lease);
    CloseStep(ops + [OpenOp(1, 1)] + [CloseOp(0)], 2, 2, 2, 2, true, 0, lease);
  }

  // ---------------------------------------------------------------------------------------------
  // Negative requests
  // ---------------------------------------------------------------------------------------------

  /** Two requests on one node; both leases are open then. */
  lemma TwoLeases(cores: int, memory: int, c: int, m: int, c2: int, m2: int)
    requires 0 < cores < 0x8000 && c < cores && m < memory && c2 <= cores - c && m2 <= memory - m
    ensures var ops := SetUp(cores, memory) + [OpenOp(c, m)] + [OpenOp(c2, m2)];
            && Reaches(ops) && IsOpen(Replay(ops), 0)
            && 0 in Replay(ops).leases && Replay(ops).leases[0] == Lease(c, m, false, 0)
            && OneNode(Replay(ops), cores, memory, cores - c - c2, memory - m - m2, cores - c != c2 && memory - m != m2)
  {
    var ops := SetUp(cores, memory);
    OneNodeReady(cores, memory);
    OpenStep(ops, cores, memory, cores, memory, c, m);
    OpenStep(ops + [OpenOp(c, m)], cores, memory, cores - c, memory - m, c2, m2);
    assert Replay(ops + [OpenOp(c, m)] + [OpenOp(c2, m2)]).open[0].id == 0;
  }

  /** A request of a negative amount leaves more free than there is; leasing all of that and closing
      the first lease leaves less than nothing. */
  lemma OverdrawnBy(cores: int, memory: int, c: int, m: int, c2: int, m2: int) returns (ops: seq<Op>)
    requires 0 < cores < 0x8000 && c < cores && m < memory && c2 <= cores - c && m2 <= memory - m
    ensures ops == SetUp(cores, memory) + [OpenOp(c, m)] + [OpenOp(c2, m2)] + [CloseOp(0)] && Reaches(ops)
    ensures OneNode(Replay(ops), cores, memory, cores - c2, memory - m2, cores - c != c2 && memory - m != m2)
  {
    TwoLeases(cores, memory, c, m, c2, m2);
    ops := SetUp(cores, memory) + [OpenOp(c, m)] + [OpenOp(c2, m2)];
    CloseStep(ops, cores, memory, cores - c - c2, memory - m - m2, cores - c != c2 && memory - m != m2, 0,
              Lease(c, m, false, 0));
    ops := ops + [CloseOp(0)];
  }

  /** All operations are sound, except for requests of `c` cores and `m` memory. */
  ghost predicate SoundBut(ops: seq<Op>, c: int, m: int) {
    forall i :: 0 <= i < |ops| ==> Sound(ops[i]) || ops[i] == OpenOp(c, m)
  }

  ghost predicate OverdrawnAt(run: seq<DB>, i: nat, id: Id) {
    i < |run| && run[i].Alive(id) && id < |run[i].objects| && Overdrawn(run[i].objects[id])
  }

  ghost predicate CanOverdraw(c: int, m: int) {
    exists run: seq<DB>, ops: seq<Op>, i: nat, id: Id ::
      IsRun(run, ops) && SoundBut(ops, c, m) && OverdrawnAt(run, i, id)
  }

  lemma EndsOverdrawn(ops: seq<Op>, c: int, m: int, cores: int, memory: int, fc: int, fm: int, listed: bool)
    requires Reaches(ops) && SoundBut(ops, c, m) && OneNode(Replay(ops), cores, memory, fc, fm, listed)
    requires fc < 0 || fm < 0
    ensures CanOverdraw(c, m)
  {
    var run: seq<DB> :| IsRun(run, ops) && run[|ops|] == Replay(ops);
    var db := Replay(ops);
    assert "n" in db.byName && db.byName["n"] == 0 && db.Alive(0);
    assert IsRun(run, ops) && SoundBut(ops, c, m) && OverdrawnAt(run, |ops|, 0);
  }

  lemma HarmfulOverdraws(c: int, m: int)
    requires !Harmless(c, m)
    ensures CanOverdraw(c, m)
  {
    if c < 0 {
      NegativeCoresOverdraw(c, m);
    } else {
      NegativeMemoryOverdraws(c, m);
    }
  }

  lemma NegativeCoresOverdraw(c: int, m: int)
    requires c < 0
    ensures CanOverdraw(c, m)
  {
    var memory := if m < 0 then 1 else m + 1;
    var ops := OverdrawnBy(1, memory, c, m, 1 - c, 0);
    EndsOverdrawn(ops, c, m, 1, memory, c, memory, false);
  }

  lemma NegativeMemoryOverdraws(c: int, m: int)
    requires 0 <= c < MAX_CORES && m < 0
    ensures CanOverdraw(c, m)
  {
    var ops := OverdrawnBy(c + 1, 1, c, m, 0, 1 - m);
    EndsOverdrawn(ops, c, m, c + 1, 1, c + 1, m, false);
  }

  /** A request can overdraw a node, in a run that is otherwise sound, if and only if it asks for a
      negative number of cores, or for negative memory and fewer cores than the largest node has. */
  lemma OverdraftIff(c: int, m: int)
    ensures CanOverdraw(c, m) <==> c < 0 || (m < 0 && c < MAX_CORES)
  {
    if Harmless(c, m) {
      if CanOverdraw(c, m) {
        var run: seq<DB>, ops: seq<Op>, i: nat, id: Id :|
          IsRun(run, ops) && SoundBut(ops, c, m) && OverdrawnAt(run, i, id);
        NeverOverdrawn(run, ops, i, id);
        assert false;
      }
    } else {
      HarmfulOverdraws(c, m);
    }
  }

  // ---------------------------------------------------------------------------------------------
  // Repeated ids
  // ---------------------------------------------------------------------------------------------

  /** All ids below `k` were given to leases of one core, which are closed. */
  ghost predicate Cycled(db: DB, k: nat) {
    && OneNode(db, 4, 4, 4, 4, true) && db.leaseCount == k && db.open == []
    && (forall id :: id in db.leases <==> 0 <= id < k)
    && (forall id :: 0 <= id < k ==> db.leases[id] == Lease(1, 1, false, 0))
  }

  /** One more lease is opened and closed. */
  lemma CycleOnce(ops: seq<Op>, k: nat)
    requires Reaches(ops) && Cycled(Replay(ops), k) && k < LEASE_IDS
    ensures Reaches(ops + [OpenOp(1, 1)] + [CloseOp(k)]) && Cycled(Replay(ops + [OpenOp(1, 1)] + [CloseOp(k)]), k + 1)
  {
    var once, lease := ops + [OpenOp(1, 1)], Lease(1, 1, false, 0);
    OpenStep(ops, 4, 4, 4, 4, 1, 1);
    assert Replay(once).open == [OpenLease(k, lease)] && Replay(once).open[0].id == k;
    CloseStep(once, 4, 4, 3, 3, true, k, lease);
  }

  lemma {:induction false} Cycles(k: nat) returns (ops: seq<Op>)
    requires k <= LEASE_IDS
    ensures Reaches(ops) && Cycled(Replay(ops), k)
  {
    if k == 0 {
      ops := SetUp(4, 4);
      NotCycledYet();
    } else {
      var before := Cycles(k - 1);
      CycleOnce(before, k - 1);
      ops := before + [OpenOp(1, 1)] + [CloseOp(k - 1)];
    }
  }

  lemma NotCycledYet()
    ensures Reaches(SetUp(4, 4)) && Cycled(Replay(SetUp(4, 4)), 0)
  {
    OneNodeReady(4, 4);
  }

  /** The grant number 2^32 takes id 0 again, whose record stays. */
  lemma SharedRecord(db: DB)
    requires Cycled(db, LEASE_IDS) && WellFormed(db)
    ensures var db' := Open(db, 2, 2).0;
            && Open(db, 2, 2).1 == Granted(0, 0) && OneNode(db', 4, 4, 2, 2, true)
            && db'.leases == db.leases && db'.open == [OpenLease(0, Lease(2, 2, false, 0))]
  {
    assert "n" in db.byName && db.byName["n"] == 0 && db.Alive(0);
    assert Usable(db, 0, 2, 2);
    assert FirstFit(db, 2, 2, 0) == 0;
    assert LiveOnly(db, []) == [];
    assert db.freeNodes[..0] == [] && db.freeNodes[1..] == [];
  }

  /** After 2^32 leases, each closed once, one of two cores shares the record of the first, which had one.
      Closing it, once, gives back one core of two: nothing is leased, and the node offers three of four. */
  lemma RepeatedIdBreaksConservation() returns (ops: seq<Op>)
    ensures Reaches(ops) && Replay(ops).leaseCount == LEASE_IDS && Conserved(Replay(ops))
    ensures var granted := Replay(ops + [OpenOp(2, 2)]);
            && Open(Replay(ops), 2, 2).1 == Granted(0, 0) && IsOpen(granted, 0) && !Recorded(granted)
    ensures var closed := Replay(ops + [OpenOp(2, 2)] + [CloseOp(0)]);
            && closed.open == [] && OneNode(closed, 4, 4, 3, 3, true) && !Conserved(closed)
  {
    ops := Cycles(LEASE_IDS);
    ReachesConserves(ops);
    RepeatedGrant(ops);
    RepeatedClose(ops + [OpenOp(2, 2)]);
  }

  lemma RepeatedGrant(ops: seq<Op>)
    requires Cycled(Replay(ops), LEASE_IDS)
    ensures Open(Replay(ops), 2, 2).1 == Granted(0, 0)
    ensures var db := Replay(ops + [OpenOp(2, 2)]);
            && OneNode(db, 4, 4, 2, 2, true) && db.open == [OpenLease(0, Lease(2, 2, false, 0))]
            && 0 in db.leases && db.leases[0] == Lease(1, 1, false, 0) && IsOpen(db, 0) && !Recorded(db)
  {
    SharedRecord(Replay(ops));
    ReplayAppend(ops, OpenOp(2, 2));
    SharedIsNotOwn(Replay(ops + [OpenOp(2, 2)]));
  }

  lemma SharedIsNotOwn(db: DB)
    requires db.open == [OpenLease(0, Lease(2, 2, false, 0))] && 0 in db.leases && db.leases[0] == Lease(1, 1, false, 0)
    ensures IsOpen(db, 0) && !Recorded(db)
  {
    assert db.open[0] in db.open;
  }

  lemma RepeatedClose(ops: seq<Op>)
    requires OneNode(Replay(ops), 4, 4, 2, 2, true) && Replay(ops).open == [OpenLease(0, Lease(2, 2, false, 0))]
    requires 0 in Replay(ops).leases && Replay(ops).leases[0] == Lease(1, 1, false, 0)
    ensures var db := Replay(ops + [CloseOp(0)]);
            db.open == [] && OneNode(db, 4, 4, 3, 3, true) && !Conserved(db)
  {
    CloseStep(ops, 4, 4, 2, 2, true, 0, Lease(1, 1, false, 0));
    NothingLeased(Replay(ops + [CloseOp(0)]));
  }

  lemma ReachesConserves(ops: seq<Op>)
    requires Reaches(ops)
    ensures Conserved(Replay(ops))
  {
    var run: seq<DB> :| IsRun(run, ops) && run[|ops|] == Replay(ops);
    RunInvariant(run, ops, |ops|);
  }

  lemma NothingLeased(db: DB)
    requires OneNode(db, 4, 4, 3, 3, true) && db.open == []
    ensures !Conserved(db)
  {
    assert "n" in db.byName && db.byName["n"] == 0 && db.Alive(0);
    assert !Capacity(db.objects[0], InUse(db.open, 0));
  }

  // ---------------------------------------------------------------------------------------------
  // Registering first
  // ---------------------------------------------------------------------------------------------

  function RegisteredFirst(cores: int, memory: int): seq<Op> {
    [ConnectOp(7)] + [RegisterOp(7, "n")] + [LoadOp("n", cores, memory)]
  }

  lemma Registered()
    ensures var ops := [ConnectOp(7)] + [RegisterOp(7, "n")];
            && Reaches(ops)
            && Replay(ops) == Empty.(objects := [Node("", true, 0, 0, 0, 0)],
                                     byConn := map[7 := 0], byName := map["n" := 0])
  {
    assert [] + [ConnectOp(7)] == [ConnectOp(7)];
    ReachesNothing();
    ReachesMore([], ConnectOp(7));
    assert Replay([ConnectOp(7)]).objects == [Node("", true, 0, 0, 0, 0)];
    ReachesMore([ConnectOp(7)], RegisterOp(7, "n"));
  }

  lemma OnlyDeadIsRefused(db: DB, c: int, m: int)
    requires WellFormed(db) && db.freeNodes == [1] && !db.Alive(1)
    ensures Open(db, c, m).1 == Refused
  {
    assert !Usable(db, 1, c, m);
    assert FirstFit(db, c, m, 1) == 1;
  }

  /** A node that connects and registers before it is added: the add succeeds, the node is live,
      initialized and wholly free, and yet no request at all is granted. */
  lemma RegisteredFirstIsNeverLeased(cores: int, memory: int)
    requires 0 < cores < 0x8000 && 0 < memory
    ensures Reaches(RegisteredFirst(cores, memory))
    ensures AddResult(Replay([ConnectOp(7)] + [RegisterOp(7, "n")]), LoadOp("n", cores, memory)) == OK
    ensures var db := Replay(RegisteredFirst(cores, memory));
            && db.byName == map["n" := 0] && db.Alive(0) && |db.objects| == 2
            && db.objects[0] == Node("n", true, cores, memory, cores, memory)
            && db.open == [] && db.freeNodes == [1]
            && forall c, m :: Open(db, c, m).1 == Refused
  {
    Registered();
    ReachesMore([ConnectOp(7)] + [RegisterOp(7, "n")], LoadOp("n", cores, memory));
    var db := Replay(RegisteredFirst(cores, memory));
    assert db.byName["n"] == 0 && !db.Alive(1);
    forall c, m ensures Open(db, c, m).1 == Refused {
      OnlyDeadIsRefused(db, c, m);
    }
  }
}
