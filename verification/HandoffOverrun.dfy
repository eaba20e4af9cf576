/** When a lease can lead to more connections than the executor has room for. */
module HandoffOverrun {
  import opened Handoff
  import opened HandoffTheorems
  import opened HandoffCapacity

  // ---------------------------------------------------------------------------------------------
  // Continuations
  // ---------------------------------------------------------------------------------------------

  predicate LeasesAgain(a: Action, q: nat) {
    a.Serve? && a.qp == q && a.request.Lease?
  }

  predicate GoesOnAt(run: seq<State>, actions: seq<Action>, q: nat, i: nat)
    requires i < |actions| && |run| == |actions| + 1
  {
    !LeasesAgain(actions[i], q) && StepAt(run, actions, i)
  }

  /** A run from `s` in which client `q` gets no further lease. */
  predicate GoesOn(run: seq<State>, actions: seq<Action>, s: State, q: nat) {
    && |run| == |actions| + 1 && run[0] == s
    && forall i :: 0 <= i < |actions| ==> GoesOnAt(run, actions, q, i)
  }

  /** The executor of `q`, if any, has no more connections than cores. */
  predicate Fits(s: State, q: nat) {
    q in s.clients && s.clients[q].Some? ==> |s.clients[q].value.connections| <= s.clients[q].value.cores
  }

  ghost predicate AlwaysFits(s: State, q: nat) {
    forall run: seq<State>, actions: seq<Action> :: GoesOn(run, actions, s, q) ==> Fits(run[|actions|], q)
  }

  ghost predicate CanReach(s: State, t: State, q: nat) {
    exists run: seq<State>, actions: seq<Action> :: GoesOn(run, actions, s, q) && run[|actions|] == t
  }

  lemma CanStay(s: State, q: nat)
    ensures CanReach(s, s, q)
  {
    assert GoesOn([s], [], s, q);
  }

  lemma CanStep(s: State, t: State, q: nat, a: Action)
    requires CanReach(s, t, q) && Inv(t) && Enabled(t, a) && !LeasesAgain(a, q)
    ensures Safe(t, a) && Inv(Do(t, a)) && CanReach(s, Do(t, a), q)
  {
    StepKeeps(t, a);
    var run: seq<State>, actions: seq<Action> :| GoesOn(run, actions, s, q) && run[|actions|] == t;
    GoesOnAppend(run, actions, s, q, a);
    assert (run + [Do(t, a)])[|actions| + 1] == Do(t, a);
  }

  lemma GoesOnAppend(run: seq<State>, actions: seq<Action>, s: State, q: nat, a: Action)
    requires GoesOn(run, actions, s, q) && Enabled(run[|actions|], a) && Safe(run[|actions|], a) && !LeasesAgain(a, q)
    ensures GoesOn(run + [Do(run[|actions|], a)], actions + [a], s, q)
  {
    var run', actions' := run + [Do(run[|actions|], a)], actions + [a];
    forall i | 0 <= i < |actions'| ensures GoesOnAt(run', actions', q, i) {
      if i < |actions| {
        assert GoesOnAt(run, actions, q, i);
        assert run'[i] == run[i] && run'[i + 1] == run[i + 1] && actions'[i] == actions[i];
      } else {
        assert run'[i] == run[|actions|] && actions'[i] == a;
      }
    }
  }

  // ---------------------------------------------------------------------------------------------
  // Messages for one client
  // ---------------------------------------------------------------------------------------------

  predicate IsFor(m: Message, q: nat) { m.ExecutorConnect? && m.client == q }

  /** Executor connections for client `q` among the messages. */
  function Coming(t: seq<Message>, q: nat): nat {
    if t == [] then 0 else Coming(t[1..], q) + if IsFor(t[0], q) then 1 else 0
  }

  lemma {:induction false} ComingAppend(t: seq<Message>, m: Message, q: nat)
    ensures Coming(t + [m], q) == Coming(t, q) + if IsFor(m, q) then 1 else 0
  {
    if t == [] {
      assert [m][1..] == [];
      assert [] + [m] == [m];
    } else {
      assert (t + [m])[1..] == t[1..] + [m];
      ComingAppend(t[1..], m, q);
    }
  }

  /** Messages of two processes of a client are messages for that client. */
  lemma {:induction false} ComingCovers(s: State, t: seq<Message>, q: nat, p: nat, n: nat)
    requires AllMeant(s, t) && p != n && p < |s.processes| && n < |s.processes|
    requires s.processes[p].client == q && s.processes[n].client == q
    ensures Arriving(t, p) + Arriving(t, n) <= Coming(t, q)
  {
    if t != [] {
      assert Meant(s, t[0]);
      forall i | 0 <= i < |t[1..]| ensures Meant(s, t[1..][i]) { assert t[1..][i] == t[i + 1]; }
      ComingCovers(s, t[1..], q, p, n);
    }
  }

  /** Something for `q` is coming only if some process of it sent it. */
  lemma {:induction false} ComingHasSender(s: State, t: seq<Message>, q: nat)
    requires AllMeant(s, t) && forall p :: 0 <= p < |s.processes| && s.processes[p].client == q ==> Arriving(t, p) == 0
    ensures Coming(t, q) == 0
  {
    if t != [] {
      assert Meant(s, t[0]);
      forall i | 0 <= i < |t[1..]| ensures Meant(s, t[1..][i]) { assert t[1..][i] == t[i + 1]; }
      ComingHasSender(s, t[1..], q);
    }
  }

  lemma ComingStep(s: State, a: Action, q: nat)
    requires Enabled(s, a)
    ensures Coming(TransitAfter(s, a), q) <=
              Coming(Transit(s), q)
                + if a.RequestExecutor? && s.processes[a.process].client == q && q in s.connect then 1 else 0
    ensures a.Handle? && IsFor(s.queue[0], q) ==> Coming(TransitAfter(s, a), q) + 1 == Coming(Transit(s), q)
  {
    var t := Transit(s);
    match a
    case RequestClient(qp) => ComingAppend(t, ClientConnect(qp), q);
    case RequestExecutor(own, r) => ComingAppend(t, ExecutorConnect(own, s.processes[r].client, r), q);
    case Hangup(qp) => ComingAppend(t, Disconnect(qp), q);
    case Handle => assert t[0] == s.queue[0];
    case Lose => ComingAppend(s.queue, s.listener.message, q);
    case _ =>
  }

  // ---------------------------------------------------------------------------------------------
  // When everything fits
  // ---------------------------------------------------------------------------------------------

  /** Process `p` has connected as often as it may, and all of that has been handled. */
  predicate Spent(s: State, p: nat)
    requires p < |s.processes|
  {
    s.processes[p].connected == s.processes[p].cores && Arriving(Transit(s), p) == 0
  }

  ghost predicate AllSpent(s: State, q: nat) {
    forall p :: 0 <= p < |s.processes| && s.processes[p].client == q ==> Spent(s, p)
  }

  /** `n` is the last process of `q`, and the others will not be heard of again. */
  ghost predicate OnlyLast(s: State, q: nat, n: nat) {
    && n < |s.processes| && s.processes[n].client == q
    && forall p :: 0 <= p < |s.processes| && s.processes[p].client == q && p != n ==>
         p < n && Spent(s, p) && p !in Connections(s, q)
  }

  lemma NewProcess(s: State, a: Action)
    requires Enabled(s, a) && Safe(s, a) && |s.processes| < |Do(s, a).processes|
    ensures LeasesAgain(a, Do(s, a).processes[|s.processes|].client)
  {
  }

  lemma OnlyLastStep(s: State, a: Action, q: nat, n: nat)
    requires Enabled(s, a) && Safe(s, a) && !LeasesAgain(a, q) && OnlyLast(s, q, n)
    ensures OnlyLast(Do(s, a), q, n)
  {
    var s' := Do(s, a);
    ProcessesStep(s, a);
    TransitStep(s, a);
    ConnectionsStep(s, a, q);
    if |s.processes| < |s'.processes| { NewProcess(s, a); }
    forall p | 0 <= p < |s'.processes| && s'.processes[p].client == q && p != n
      ensures p < n && Spent(s', p) && p !in Connections(s', q)
    {
      assert p < |s.processes| && Spent(s, p);
      ArrivingStep(s, a, p);
    }
  }

  lemma OnlyLastFits(s: State, q: nat, n: nat)
    requires Inv(s) && CInv(s) && OnlyLast(s, q, n)
    ensures Fits(s, q)
  {
    if q in s.clients && s.clients[q].Some? {
      var e, c := s.clients[q].value, Connections(s, q);
      assert q in s.clients.Keys && GoodEntry(s, q, s.clients[q]) && OwnOnly(s, q);
      assert e.process == n;
      assert Counted(s, Transit(s), n);
      forall k | 0 <= k < |c| ensures c[k] == n {
        assert c[k] in c;
      }
      AllTheSame(c, n);
    }
  }

  lemma ReachableKeeps(s: State)
    requires Reachable(s)
    ensures Inv(s) && CInv(s)
  {
    var run: seq<State>, actions: seq<Action> :| IsRun(run, actions) && run[|actions|] == s;
    RunInvariant(run, actions, |actions|);
    CapacityInvariant(run, actions, |actions|);
  }

  lemma {:induction false} OnlyLastStays(run: seq<State>, actions: seq<Action>, s: State, q: nat, n: nat, i: nat)
    requires GoesOn(run, actions, s, q) && Reachable(s) && OnlyLast(s, q, n) && i < |run|
    ensures Reachable(run[i]) && OnlyLast(run[i], q, n)
    decreases i
  {
    if 0 < i {
      OnlyLastStays(run, actions, s, q, n, i - 1);
      assert GoesOnAt(run, actions, q, i - 1);
      Reach(run[i - 1], actions[i - 1]);
      OnlyLastStep(run[i - 1], actions[i - 1], q, n);
    }
  }

  lemma SpentFits(s: State, q: nat, cores: nat)
    requires Reachable(s) && s.poller.Serving? && q in s.clients && q in s.accepted && AllSpent(s, q)
    ensures AlwaysFits(Do(s, Serve(q, Lease(cores))), q)
  {
    var a := Serve(q, Lease(cores));
    Reach(s, a);
    var s1, n := Do(s, a), |s.processes|;
    TransitStep(s, a);
    assert OnlyLast(s1, q, n) by {
      forall p | 0 <= p < |s1.processes| && s1.processes[p].client == q && p != n
        ensures p < n && Spent(s1, p) && p !in Connections(s1, q)
      {
        assert Spent(s, p);
      }
    }
    forall run: seq<State>, actions: seq<Action> | GoesOn(run, actions, s1, q) ensures Fits(run[|actions|], q) {
      OnlyLastStays(run, actions, s1, q, n, |actions|);
      ReachableKeeps(run[|actions|]);
      OnlyLastFits(run[|actions|], q, n);
    }
  }

  /** The client has hung up, and what is attached or coming fits. */
  ghost predicate HungUpFits(s: State, q: nat, cores: nat) {
    && q in s.used && q !in s.live
    && |Connections(s, q)| + Coming(Transit(s), q) <= cores
    && (q in s.clients && s.clients[q].Some? ==> s.clients[q].value.cores == cores)
  }

  lemma CoresStep(s: State, a: Action, q: nat, cores: nat)
    requires Enabled(s, a) && Safe(s, a) && !LeasesAgain(a, q)
    requires q in s.clients && s.clients[q].Some? ==> s.clients[q].value.cores == cores
    ensures q in Do(s, a).clients && Do(s, a).clients[q].Some? ==> Do(s, a).clients[q].value.cores == cores
  {
  }

  lemma StaysHungUp(s: State, a: Action, q: nat)
    requires Enabled(s, a) && Safe(s, a) && Tables(s) && Remembered(s) && q in s.accepted && q !in s.live
    ensures q in Do(s, a).accepted && q !in Do(s, a).live
    ensures a.RequestExecutor? ==> q !in s.connect
  {
  }

  lemma HungUpStep(s: State, a: Action, q: nat, cores: nat)
    requires Inv(s) && Enabled(s, a) && Safe(s, a) && !LeasesAgain(a, q) && q in s.accepted && HungUpFits(s, q, cores)
    ensures HungUpFits(Do(s, a), q, cores) && q in Do(s, a).accepted
  {
    TransitStep(s, a);
    TablesStep(s, a);
    StaysHungUp(s, a, q);
    ComingStep(s, a, q);
    ConnectionsStep(s, a, q);
    CoresStep(s, a, q, cores);
  }

  lemma {:induction false} HungUpStays(run: seq<State>, actions: seq<Action>, s: State, q: nat, cores: nat, i: nat)
    requires GoesOn(run, actions, s, q) && Inv(s) && q in s.accepted && HungUpFits(s, q, cores) && i < |run|
    ensures Inv(run[i]) && q in run[i].accepted && HungUpFits(run[i], q, cores)
    decreases i
  {
    if 0 < i {
      HungUpStays(run, actions, s, q, cores, i - 1);
      assert GoesOnAt(run, actions, q, i - 1);
      StepKeeps(run[i - 1], actions[i - 1]);
      HungUpStep(run[i - 1], actions[i - 1], q, cores);
    }
  }

  lemma FewFit(s: State, q: nat, cores: nat)
    requires Inv(s) && s.poller.Serving? && q in s.clients && q in s.accepted && q !in s.live
    requires Coming(Transit(s), q) <= cores
    ensures AlwaysFits(Do(s, Serve(q, Lease(cores))), q)
  {
    var a := Serve(q, Lease(cores));
    StepKeeps(s, a);
    TransitStep(s, a);
    var s1 := Do(s, a);
    assert HungUpFits(s1, q, cores);
    forall run: seq<State>, actions: seq<Action> | GoesOn(run, actions, s1, q) ensures Fits(run[|actions|], q) {
      HungUpStays(run, actions, s1, q, cores, |actions|);
    }
  }

  // ---------------------------------------------------------------------------------------------
  // When something does not fit
  // ---------------------------------------------------------------------------------------------

  lemma {:induction false} Bounded(s: set<nat>) returns (b: nat)
    ensures forall x <- s :: x < b
  {
    b := 0;
    if s != {} {
      var y :| y in s;
      b := Bounded(s - {y});
      b := if b <= y then y + 1 else b;
      forall x | x in s ensures x < b { assert x != y ==> x in s - {y}; }
    }
  }

  /** The executor of `q` is there, with the given connections. */
  predicate Holds(s: State, q: nat, cores: nat, connections: seq<nat>) {
    && q in s.clients && s.clients[q].Some?
    && s.clients[q].value.cores == cores && s.clients[q].value.connections == connections
  }

  lemma {:induction false} NoneComing(t: seq<Message>, q: nat)
    requires forall i :: 0 <= i < |t| ==> !IsFor(t[i], q)
    ensures Coming(t, q) == 0
  {
    if t != [] { NoneComing(t[1..], q); }
  }

  /** Nothing for `q` is queued behind its disconnection. */
  lemma NothingBehind(s: State, q: nat)
    requires InTime(s, Transit(s)) && s.queue != [] && s.queue[0] == Disconnect(q)
    ensures Coming(s.queue, q) == 0
  {
    var t := Transit(s);
    assert t[0] == s.queue[0];
    forall i | 0 <= i < |s.queue| ensures !IsFor(s.queue[i], q) {
      assert t[i] == s.queue[i];
    }
    NoneComing(s.queue, q);
  }

  lemma HandleEffect(s: State, q: nat, cores: nat, connections: seq<nat>)
    requires Enabled(s, Handle) && Safe(s, Handle) && Holds(s, q, cores, connections) && s.queue[0] != Disconnect(q)
    ensures var s' := Do(s, Handle);
            && s'.listener == s.listener && s'.poller == s.poller && s'.queue == s.queue[1..]
            && Holds(s', q, cores, if IsFor(s.queue[0], q) then connections + [s.queue[0].process] else connections)
  {
  }

  /** Draining a queue that holds too much for `q`. */
  lemma {:induction false} DrainsTooMuch(s: State, t: State, q: nat, cores: nat, connections: seq<nat>)
    returns (t': State)
    requires CanReach(s, t, q) && Inv(t) && t.listener.Listening? && t.poller.Draining?
    requires Holds(t, q, cores, connections) && cores < |connections| + Coming(t.queue, q)
    ensures CanReach(s, t', q) && !Fits(t', q)
    decreases |t.queue|
  {
    t' := t;
    if |connections| <= cores {
      if t.queue[0] == Disconnect(q) { NothingBehind(t, q); }
      CanStep(s, t, q, Handle);
      HandleEffect(t, q, cores, connections);
      var next := if IsFor(t.queue[0], q) then connections + [t.queue[0].process] else connections;
      t' := DrainsTooMuch(s, Do(t, Handle), q, cores, next);
    }
  }

  lemma Enqueues(s: State, t: State, q: nat) returns (t': State)
    requires CanReach(s, t, q) && Inv(t)
    ensures CanReach(s, t', q) && Inv(t') && t'.listener.Listening? && Transit(t') == Transit(t)
    ensures t'.poller == t.poller && t'.clients == t.clients && t'.processes == t.processes
    ensures t'.live == t.live && t'.accepted == t.accepted
  {
    t' := t;
    if t.listener.Emplacing? {
      CanStep(s, t, q, Enqueue);
      TransitStep(t, Enqueue);
      t' := Do(t, Enqueue);
    }
  }

  lemma StartsDraining(s: State, t: State, q: nat) returns (t': State)
    requires CanReach(s, t, q) && Inv(t) && t.poller.Serving?
    ensures CanReach(s, t', q) && Inv(t') && t'.poller.Draining?
    ensures t'.listener == t.listener && t'.clients == t.clients && t'.queue == t.queue
  {
    CanStep(s, t, q, StopServing);
    t' := Do(t, StopServing);
    CanStep(s, t', q, Check({}));
    t' := Do(t', Check({}));
    assert t'.clients == t.clients;
    CanStep(s, t', q, Remove);
    t' := Do(t', Remove);
    assert t'.clients == t.clients;
  }

  lemma TooMuch(s: State, t: State, q: nat, cores: nat) returns (t': State)
    requires CanReach(s, t, q) && Inv(t) && t.poller.Serving?
    requires Holds(t, q, cores, []) && cores < Coming(Transit(t), q)
    ensures CanReach(s, t', q) && !Fits(t', q)
  {
    t' := Enqueues(s, t, q);
    assert t'.queue == Transit(t');
    t' := StartsDraining(s, t', q);
    t' := DrainsTooMuch(s, t', q, cores, []);
  }

  /** A live client whose new executor is there, with the listener ready. */
  ghost predicate Ready(s: State, t: State, q: nat, cores: nat) {
    && CanReach(s, t, q) && Inv(t) && t.poller.Serving? && t.listener.Listening?
    && Holds(t, q, cores, []) && q in t.live && q in t.accepted
  }

  predicate MayConnect(s: State, q: nat, p: nat, times: nat) {
    p < |s.processes| && s.processes[p].client == q && s.processes[p].connected + times <= s.processes[p].cores
  }

  lemma RequestEffect(t: State, q: nat, x: nat, p: nat)
    requires Inv(t) && t.listener.Listening? && q in t.live && q in t.accepted && MayConnect(t, q, p, 1) && x !in t.used
    ensures Enabled(t, RequestExecutor(x, p))
    ensures var t' := Do(t, RequestExecutor(x, p));
            && t'.listener == Emplacing(ExecutorConnect(x, q, p)) && t'.queue == t.queue
            && t'.processes == t.processes[p := t.processes[p].(connected := t.processes[p].connected + 1)]
            && t'.poller == t.poller && t'.clients == t.clients && t.live <= t'.live && t'.accepted == t.accepted
  {
    assert q in t.connect;
  }

  /** Process `p` connects once more. */
  lemma Connects(s: State, t: State, q: nat, cores: nat, p: nat) returns (t': State)
    requires Ready(s, t, q, cores) && MayConnect(t, q, p, 1)
    ensures Ready(s, t', q, cores)
    ensures exists x :: Transit(t') == Transit(t) + [ExecutorConnect(x, q, p)]
    ensures t'.processes == t.processes[p := t.processes[p].(connected := t.processes[p].connected + 1)]
  {
    var x := Bounded(t.used);
    assert x !in t.used;
    RequestEffect(t, q, x, p);
    CanStep(s, t, q, RequestExecutor(x, p));
    TransitStep(t, RequestExecutor(x, p));
    var t1 := Do(t, RequestExecutor(x, p));
    assert Transit(t1) == Transit(t) + [ExecutorConnect(x, q, p)];
    t' := Enqueues(s, t1, q);
  }

  lemma {:induction false} ConnectsOften(s: State, t: State, q: nat, cores: nat, n: nat, times: nat) returns (t': State)
    requires Ready(s, t, q, cores) && MayConnect(t, q, n, times)
    ensures Ready(s, t', q, cores) && |t'.processes| == |t.processes|
    ensures Arriving(Transit(t'), n) == Arriving(Transit(t), n) + times
    ensures forall p :: p != n ==> Arriving(Transit(t'), p) == Arriving(Transit(t), p)
    ensures forall p :: 0 <= p < |t.processes| ==> t'.processes[p].client == t.processes[p].client
    decreases times
  {
    t' := t;
    if 0 < times {
      var t1 := Connects(s, t, q, cores, n);
      var x :| Transit(t1) == Transit(t) + [ExecutorConnect(x, q, n)];
      forall p ensures Arriving(Transit(t1), p) == Arriving(Transit(t), p) + if p == n then 1 else 0 {
        ArrivingAppend(Transit(t), ExecutorConnect(x, q, n), p);
      }
      t' := ConnectsOften(s, t1, q, cores, n, times - 1);
    }
  }

  /** A process that has something on its way, or still can. */
  lemma StrayComes(s: State, t: State, q: nat, cores: nat, p: nat) returns (t': State)
    requires Ready(s, t, q, cores) && MayConnect(t, q, p, 0) && !Spent(t, p)
    ensures Ready(s, t', q, cores) && |t'.processes| == |t.processes| && 0 < Arriving(Transit(t'), p)
    ensures forall r :: 0 <= r < |t.processes| && r != p ==> t'.processes[r] == t.processes[r]
    ensures t'.processes[p].client == q
  {
    t' := t;
    if Arriving(Transit(t), p) == 0 {
      t' := Connects(s, t, q, cores, p);
      var x :| Transit(t') == Transit(t) + [ExecutorConnect(x, q, p)];
      ArrivingAppend(Transit(t), ExecutorConnect(x, q, p), p);
    }
  }

  lemma StrayOverruns(s: State, q: nat, cores: nat, p: nat) returns (t: State)
    requires Reachable(s) && s.poller.Serving? && q in s.clients && q in s.accepted && q in s.live
    requires p < |s.processes| && s.processes[p].client == q && !Spent(s, p)
    ensures CanReach(Do(s, Serve(q, Lease(cores))), t, q) && !Fits(t, q)
  {
    var a, n := Serve(q, Lease(cores)), |s.processes|;
    ReachableKeeps(s);
    assert Counted(s, Transit(s), p);
    StepKeeps(s, a);
    TransitStep(s, a);
    var s1 := Do(s, a);
    CanStay(s1, q);
    t := Enqueues(s1, s1, q);
    t := StrayComes(s1, t, q, cores, p);
    t := ConnectsOften(s1, t, q, cores, n, cores);
    ComingCovers(t, Transit(t), q, p, n);
    t := TooMuch(s1, t, q, cores);
  }

  // ---------------------------------------------------------------------------------------------
  // The condition
  // ---------------------------------------------------------------------------------------------

  /** A lease for client `q` never leads to more connections than cores, whatever happens before its
      next lease, if and only if, while the client is live, all its earlier processes have opened all
      their connections and had them handled; and once it has hung up, no more connections for it are on
      their way than the new executor has cores. */
  lemma LeaseFitsIff(s: State, q: nat, cores: nat)
    requires Reachable(s) && s.poller.Serving? && q in s.clients
    ensures Enabled(s, Serve(q, Lease(cores)))
    ensures AlwaysFits(Do(s, Serve(q, Lease(cores))), q) <==>
              if q in s.live then AllSpent(s, q) else Coming(Transit(s), q) <= cores
  {
    ReachableKeeps(s);
    assert q in s.clients.Keys;
    var s1 := Do(s, Serve(q, Lease(cores)));
    if q in s.live {
      if AllSpent(s, q) {
        SpentFits(s, q, cores);
      } else {
        var p :| 0 <= p < |s.processes| && s.processes[p].client == q && !Spent(s, p);
        var t := StrayOverruns(s, q, cores, p);
        NotAlways(s1, t, q);
      }
    } else if Coming(Transit(s), q) <= cores {
      FewFit(s, q, cores);
    } else {
      StepKeeps(s, Serve(q, Lease(cores)));
      TransitStep(s, Serve(q, Lease(cores)));
      CanStay(s1, q);
      var t := TooMuch(s1, s1, q, cores);
      NotAlways(s1, t, q);
    }
  }

  lemma NotAlways(s: State, t: State, q: nat)
    requires CanReach(s, t, q) && !Fits(t, q)
    ensures !AlwaysFits(s, q)
  {
    var run: seq<State>, actions: seq<Action> :| GoesOn(run, actions, s, q) && run[|actions|] == t;
    assert !Fits(run[|actions|], q);
  }
}
