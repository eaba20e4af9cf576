/** What holds in every run of the executor manager's two threads. */
module HandoffTheorems {
  import opened Handoff

  // ---------------------------------------------------------------------------------------------
  // The messages on their way
  // ---------------------------------------------------------------------------------------------

  function TransitAfter(s: State, a: Action): seq<Message>
    requires Enabled(s, a)
  {
    var t := Transit(s);
    match a
    case RequestClient(qp) => t + [ClientConnect(qp)]
    case RequestExecutor(own, p) =>
      if s.processes[p].client in s.connect then t + [ExecutorConnect(own, s.processes[p].client, p)] else t
    case Hangup(qp) => t + [Disconnect(qp)]
    case Handle => t[1..]
    case Lose => s.queue
    case _ => t
  }

  lemma TransitStep(s: State, a: Action)
    requires Enabled(s, a) && Safe(s, a)
    ensures Transit(Do(s, a)) == TransitAfter(s, a)
  {
    if a.Enqueue? {
      assert s.queue + [s.listener.message] + [] == s.queue + [s.listener.message];
    }
  }

  lemma OrderedStep(s: State, a: Action)
    requires Enabled(s, a) && Tables(s) && AllMeant(s, Transit(s)) && Ordered(Transit(s))
    ensures Ordered(TransitAfter(s, a))
  {
    var t, t' := Transit(s), TransitAfter(s, a);
    if a.Lose? {
      assert forall i :: 0 <= i < |t'| ==> t'[i] == t[i];
    } else if a.RequestClient? {
      forall i | 0 <= i < |t| ensures t'[i] != ClientConnect(a.qp) && t'[i] != Disconnect(a.qp) {
        assert Meant(s, t[i]);
      }
    }
  }

  /** What a message says stays true until it is handled. */
  lemma MeantStep(s: State, a: Action, m: Message)
    requires Enabled(s, a) && Safe(s, a) && Tables(s) && Meant(s, m)
    requires a.Handle? && m.ClientConnect? ==> s.queue[0] != m
    ensures Meant(Do(s, a), m)
  {
  }

  lemma AllMeantStep(s: State, a: Action)
    requires Enabled(s, a) && Safe(s, a) && Tables(s) && AllMeant(s, Transit(s)) && Ordered(Transit(s))
    ensures AllMeant(Do(s, a), TransitAfter(s, a))
  {
    var t, t' := Transit(s), TransitAfter(s, a);
    forall i | 0 <= i < |t'| ensures Meant(Do(s, a), t'[i]) {
      if a.Handle? {
        assert t'[i] == t[i + 1] && t[0] == s.queue[0];
        MeantStep(s, a, t[i + 1]);
      } else if i < |t| {
        assert t'[i] == t[i];
        MeantStep(s, a, t[i]);
      }
    }
  }

  lemma TablesStep(s: State, a: Action)
    requires Enabled(s, a) && Safe(s, a) && Tables(s) && AllMeant(s, Transit(s))
    ensures Tables(Do(s, a))
  {
    if a.Handle? {
      assert Transit(s)[0] == s.queue[0];
      assert Meant(s, s.queue[0]);
    }
  }

  lemma HeadIsDue(s: State, q: nat)
    requires s.queue != [] && s.queue[0] == Disconnect(q) && q in s.accepted
    requires Ordered(Transit(s)) && Announced(s, Transit(s))
    ensures q in s.inserted || ClientConnect(q) in s.lost
  {
    var t := Transit(s);
    assert t[0] == Disconnect(q);
    assert forall j :: 0 <= j < |t| ==> t[j] != ClientConnect(q);
  }

  lemma StillIn(t: seq<Message>, m: Message)
    requires m in t && t[0] != m
    ensures m in t[1..]
  {
    var j :| 0 <= j < |t| && t[j] == m;
    assert t[1..][j - 1] == m;
  }

  lemma AnnouncedStep(s: State, a: Action)
    requires Enabled(s, a) && Safe(s, a) && Tables(s) && Announced(s, Transit(s))
    ensures Announced(Do(s, a), TransitAfter(s, a))
  {
    var s', t, t' := Do(s, a), Transit(s), TransitAfter(s, a);
    forall q | q in s'.accepted ensures q in s'.inserted || ClientConnect(q) in t' || ClientConnect(q) in s'.lost {
      if q in s.accepted && q !in s'.inserted && ClientConnect(q) !in s.lost {
        assert ClientConnect(q) in t;
        if a.Handle? {
          assert t[0] == s.queue[0];
          StillIn(t, ClientConnect(q));
        }
      } else if q !in s.accepted {
        assert t'[|t|] == ClientConnect(q);
      }
    }
  }

  lemma AttendedStep(s: State, a: Action)
    requires Enabled(s, a) && Safe(s, a) && Tables(s)
    requires Ordered(Transit(s)) && Announced(s, Transit(s)) && Attended(s, Transit(s))
    ensures Attended(Do(s, a), TransitAfter(s, a))
  {
    var s', t, t' := Do(s, a), Transit(s), TransitAfter(s, a);
    forall q | q in s'.accepted
      ensures || q in s'.removed || q in s'.live || Disconnect(q) in t'
              || Disconnect(q) in s'.lost || ClientConnect(q) in s'.lost
    {
      if q in s.accepted && Disconnect(q) in t {
        if a.Handle? && t[0] == Disconnect(q) {
          assert s.queue[0] == t[0];
          HeadIsDue(s, q);
          assert q in s'.removed || ClientConnect(q) in s'.lost;
        } else if a.Handle? {
          StillIn(t, Disconnect(q));
        }
      } else if a.Hangup? && a.qp == q {
        assert t'[|t|] == Disconnect(q);
      }
    }
  }

  lemma LostStep(s: State, a: Action)
    requires Enabled(s, a) && Safe(s, a) && Tables(s) && AllMeant(s, Transit(s)) && Ordered(Transit(s))
    requires LostForGood(s, Transit(s))
    ensures LostForGood(Do(s, a), TransitAfter(s, a))
  {
    var s', t, t' := Do(s, a), Transit(s), TransitAfter(s, a);
    forall m | m in s'.lost && m.ClientConnect? ensures m.qp in s'.accepted && m.qp !in s'.inserted && m !in t' {
      if a.Lose? && m == s.listener.message {
        assert t[|s.queue|] == m && Meant(s, m);
        assert forall i :: 0 <= i < |s.queue| ==> t[i] == s.queue[i];
      } else {
        assert m in s.lost;
        if a.Handle? {
          assert s.queue[0] == t[0] && s.queue[0] != m;
        }
      }
    }
    if a.Lose? { assert t[|s.queue|] == s.listener.message && Meant(s, s.listener.message); }
  }

  lemma RememberedStep(s: State, a: Action)
    requires Enabled(s, a) && Safe(s, a) && Tables(s) && Remembered(s)
    ensures Remembered(Do(s, a))
  {
  }

  /** The listener accepts an executor only while its client is live. */
  lemma AcceptedInTime(s: State, q: nat)
    requires Tables(s) && Remembered(s) && AllMeant(s, Transit(s)) && s.listener.Listening? && q in s.connect
    ensures q !in s.hungUp && Disconnect(q) !in Transit(s)
  {
    var t := Transit(s);
    assert q in s.live;
    forall i | 0 <= i < |t| ensures t[i] != Disconnect(q) {
      assert Meant(s, t[i]);
    }
  }

  lemma InTimeStep(s: State, a: Action)
    requires Enabled(s, a) && Safe(s, a) && Tables(s) && Remembered(s)
    requires AllMeant(s, Transit(s)) && InTime(s, Transit(s))
    ensures InTime(Do(s, a), TransitAfter(s, a))
  {
    var s', t, t' := Do(s, a), Transit(s), TransitAfter(s, a);
    if a.Lose? {
      assert forall i :: 0 <= i < |t'| ==> t'[i] == t[i];
    } else if a.Handle? {
      assert t[0] == s.queue[0];
      forall j | 0 <= j < |t'| ensures t'[j] == t[j + 1] { }
    } else if a.RequestExecutor? && s.processes[a.process].client in s.connect {
      AcceptedInTime(s, s.processes[a.process].client);
    }
  }

  // ---------------------------------------------------------------------------------------------
  // Clients and their executors
  // ---------------------------------------------------------------------------------------------

  lemma SpawnedHandle(s: State, m: Message)
    requires Tables(s) && Spawned(s) && Meant(s, m) && SafeToHandle(s, m)
    requires s.poller.Draining?
    ensures Spawned(HandleMessage(s, m))
  {
  }

  lemma SpawnedServe(s: State, q: nat, request: Request)
    requires Tables(s) && Spawned(s) && s.poller.Serving?
    ensures Spawned(ServeRequest(s, q, request))
  {
    var s' := ServeRequest(s, q, request);
    forall r | r in s'.clients ensures GoodEntry(s', r, s'.clients[r]) {
      assert r in s.clients.Keys && GoodEntry(s, r, s.clients[r]);
    }
  }

  lemma SpawnedStep(s: State, a: Action)
    requires Enabled(s, a) && Safe(s, a) && Tables(s) && Spawned(s) && AllMeant(s, Transit(s))
    ensures Spawned(Do(s, a))
  {
    var s' := Do(s, a);
    match a
    case Handle =>
      assert Transit(s)[0] == s.queue[0];
      assert Meant(s, s.queue[0]);
      SpawnedHandle(s, s.queue[0]);
      SpawnedAlike(HandleMessage(s, s.queue[0]), s');
    case Serve(qp, request) => SpawnedServe(s, qp, request);
    case RequestExecutor(_, _) => SpawnedAlike(s, s');
    case _ =>
      forall r | r in s'.clients ensures GoodEntry(s', r, s'.clients[r]) {
        assert r in s.clients.Keys && GoodEntry(s, r, s.clients[r]);
      }
  }

  /** What a process has connected so far is no concern of the table. */
  lemma SpawnedAlike(s: State, s': State)
    requires Spawned(s) && s'.clients == s.clients && s'.inserted == s.inserted && s'.poller == s.poller
    requires |s'.processes| == |s.processes|
    requires forall p :: 0 <= p < |s.processes| ==>
      s'.processes[p].client == s.processes[p].client && s'.processes[p].cores == s.processes[p].cores
    ensures Spawned(s')
  {
    forall r | r in s'.clients ensures GoodEntry(s', r, s'.clients[r]) {
      assert r in s.clients.Keys && GoodEntry(s, r, s.clients[r]);
    }
  }

  lemma AttachesSafely(s: State, a: Action)
    requires Spawned(s) && Tables(s) && AllMeant(s, Transit(s)) && Enabled(s, a)
    ensures Safe(s, a)
  {
    if a.Handle? {
      var m := s.queue[0];
      assert Transit(s)[0] == m;
      assert Meant(s, m);
      if m.ExecutorConnect? && m.client in s.clients {
        assert m.client in s.clients.Keys && GoodEntry(s, m.client, s.clients[m.client]);
      }
    }
  }

  // ---------------------------------------------------------------------------------------------
  // Whole runs
  // ---------------------------------------------------------------------------------------------

  lemma StepKeeps(s: State, a: Action)
    requires Inv(s) && Enabled(s, a)
    ensures Safe(s, a) && Inv(Do(s, a))
  {
    AttachesSafely(s, a);
    TransitStep(s, a);
    TablesStep(s, a);
    SpawnedStep(s, a);
    RememberedStep(s, a);
    AllMeantStep(s, a);
    OrderedStep(s, a);
    AnnouncedStep(s, a);
    AttendedStep(s, a);
    InTimeStep(s, a);
    LostStep(s, a);
  }

  lemma {:induction false} RunInvariant(run: seq<State>, actions: seq<Action>, i: nat)
    requires IsRun(run, actions) && i < |run|
    ensures Inv(run[i])
    decreases i
  {
    if 0 < i {
      assert StepAt(run, actions, i - 1);
      RunInvariant(run, actions, i - 1);
      StepKeeps(run[i - 1], actions[i - 1]);
    }
  }

  /** No step of any run follows a null executor. */
  lemma AlwaysSafe(run: seq<State>, actions: seq<Action>, i: nat, a: Action)
    requires IsRun(run, actions) && i < |run| && Enabled(run[i], a)
    ensures Safe(run[i], a)
  {
    RunInvariant(run, actions, i);
    StepKeeps(run[i], a);
  }

  /** When the poller comes to handle the connection of an executor, its client has been inserted.  It
      is still there with an executor, or it was removed by the poller itself, not for having hung up.
      The executor it is attached to is that of its own process if and only if the client has not been
      given another since. */
  lemma ExecutorFindsClient(run: seq<State>, actions: seq<Action>, i: nat)
    requires IsRun(run, actions) && i < |run|
    requires run[i].poller.Draining? && run[i].queue != [] && run[i].queue[0].ExecutorConnect?
    ensures var s, m := run[i], run[i].queue[0];
            && m.client in s.inserted
            && (m.client !in s.clients <==> m.client in s.removed)
            && m.client !in s.hungUp
            && m.process < |s.processes|
            && (m.client in s.clients ==>
                  && s.clients[m.client].Some?
                  && (s.clients[m.client].value.process == m.process <==> Latest(s.processes, m.process)))
  {
    var s, m := run[i], run[i].queue[0];
    RunInvariant(run, actions, i);
    assert Transit(s)[0] == m;
    assert Meant(s, m);
    if m.client in s.clients {
      assert m.client in s.clients.Keys && GoodEntry(s, m.client, s.clients[m.client]);
    }
  }

  /** When the poller comes to handle the disconnection of a client, it has handled its connection,
      unless that message was lost, and afterwards the client is not in the table. */
  lemma DisconnectFindsClient(run: seq<State>, actions: seq<Action>, i: nat)
    requires IsRun(run, actions) && i < |actions| && actions[i].Handle?
    requires run[i].queue != [] && run[i].queue[0].Disconnect? && run[i].queue[0].qp in run[i].accepted
    ensures var q := run[i].queue[0].qp;
            && (q in run[i].inserted <==> ClientConnect(q) !in run[i].lost)
            && q !in run[i + 1].clients && (q in run[i + 1].removed <==> q in run[i].inserted)
  {
    var q := run[i].queue[0].qp;
    assert StepAt(run, actions, i);
    RunInvariant(run, actions, i);
    HeadIsDue(run[i], q);
  }

  /** The table keeps a client whose connection is gone exactly when its disconnection was lost: once no
      message is on its way, every other client of the table is live, a live client that is not there was
      removed or its announcement was lost, and the listener's set is exactly the live clients. */
  lemma NoClientOutlivesConnection(run: seq<State>, actions: seq<Action>, i: nat)
    requires IsRun(run, actions) && i < |run| && Transit(run[i]) == []
    ensures run[i].connect == run[i].live * run[i].accepted
    ensures forall q <- run[i].clients :: q in run[i].live <==> Disconnect(q) !in run[i].lost
    ensures forall q <- run[i].connect ::
      q in run[i].clients <==> q !in run[i].removed && ClientConnect(q) !in run[i].lost
  {
    var s := run[i];
    RunInvariant(run, actions, i);
    forall q | q in s.live * s.accepted ensures q in s.connect { }
    forall q | q in s.connect ensures q in s.live * s.accepted { }
  }

  // ---------------------------------------------------------------------------------------------
  // Who is in the table
  // ---------------------------------------------------------------------------------------------

  /** Over every run, a client enters the table exactly when its announcement is handled, and leaves it
      exactly when its disconnection is handled, when it asks to leave, or when it is removed because its
      executor has finished. */
  lemma TableChangesIff(run: seq<State>, actions: seq<Action>, i: nat, q: nat)
    requires IsRun(run, actions) && i < |actions|
    ensures var s, s', a := run[i], run[i + 1], actions[i];
            && (q !in s.clients ==> (q in s'.clients <==> a.Handle? && s.queue != [] && s.queue[0] == ClientConnect(q)))
            && (q in s.clients ==>
                  (q !in s'.clients <==>
                     || (a.Handle? && s.queue != [] && s.queue[0] == Disconnect(q))
                     || a == Serve(q, Leave)
                     || (a.Remove? && s.poller.Removing? && q in s.poller.finished)))
  {
    assert StepAt(run, actions, i);
    TableStep(run[i], actions[i], q);
  }

  lemma TableStep(s: State, a: Action, q: nat)
    requires Enabled(s, a) && Safe(s, a)
    ensures var s' := Do(s, a);
            && (q !in s.clients ==> (q in s'.clients <==> a.Handle? && s.queue != [] && s.queue[0] == ClientConnect(q)))
            && (q in s.clients ==>
                  (q !in s'.clients <==>
                     || (a.Handle? && s.queue != [] && s.queue[0] == Disconnect(q))
                     || a == Serve(q, Leave)
                     || (a.Remove? && s.poller.Removing? && q in s.poller.finished)))
  {
  }

  /** Over every run, a client loses its executor exactly when a check finds that it has finished, and then
      it is removed before any message is handled; it gets one, without connections, exactly by a lease. */
  lemma ExecutorChangesIff(run: seq<State>, actions: seq<Action>, i: nat, q: nat)
    requires IsRun(run, actions) && i < |actions| && q in run[i].clients && q in run[i + 1].clients
    ensures var e, e', a := run[i].clients[q], run[i + 1].clients[q], actions[i];
            && (e'.None? && e.Some? <==> e.Some? && a.Check? && q in a.finished)
            && (a.Check? ==> run[i + 1].poller == Removing(a.finished))
            && (a.Serve? && a.qp == q && a.request.Lease? ==>
                  && e' == Some(Executor(|run[i].processes|, a.request.cores, []))
                  && run[i + 1].processes == run[i].processes + [Process(q, a.request.cores, 0)])
            && (e.None? && e'.Some? ==> a.Serve? && a.qp == q && a.request.Lease?)
  {
    assert StepAt(run, actions, i);
    ExecutorStep(run[i], actions[i], q);
  }

  lemma ExecutorStep(s: State, a: Action, q: nat)
    requires Enabled(s, a) && Safe(s, a) && q in s.clients && q in Do(s, a).clients
    ensures var e, e', s' := s.clients[q], Do(s, a).clients[q], Do(s, a);
            && (e'.None? && e.Some? <==> e.Some? && a.Check? && q in a.finished)
            && (a.Check? ==> s'.poller == Removing(a.finished))
            && (a.Serve? && a.qp == q && a.request.Lease? ==>
                  && e' == Some(Executor(|s.processes|, a.request.cores, []))
                  && s'.processes == s.processes + [Process(q, a.request.cores, 0)])
            && (e.None? && e'.Some? ==> a.Serve? && a.qp == q && a.request.Lease?)
  {
  }

  /** Over every run, the listener takes the connection of an executor exactly while its client is live. */
  lemma ExecutorAcceptedIff(run: seq<State>, actions: seq<Action>, i: nat)
    requires IsRun(run, actions) && i < |actions| && actions[i].RequestExecutor?
    ensures actions[i].process < |run[i].processes|
    ensures var q := run[i].processes[actions[i].process].client;
            if q in run[i].live
            then run[i + 1].listener == Emplacing(ExecutorConnect(actions[i].own, q, actions[i].process))
            else run[i + 1].listener == Listening && run[i + 1].live == run[i].live
  {
    RunInvariant(run, actions, i);
    assert StepAt(run, actions, i);
  }

  // ---------------------------------------------------------------------------------------------
  // Reachable states
  // ---------------------------------------------------------------------------------------------

  ghost predicate Reachable(s: State) {
    exists run: seq<State>, actions: seq<Action> :: IsRun(run, actions) && run[|actions|] == s
  }

  lemma StartReachable()
    ensures Reachable(Start)
  {
    assert IsRun([Start], []);
  }

  lemma Reach(s: State, a: Action)
    requires Reachable(s) && Enabled(s, a)
    ensures Safe(s, a) && Reachable(Do(s, a))
  {
    var run: seq<State>, actions: seq<Action> :| IsRun(run, actions) && run[|actions|] == s;
    AlwaysSafe(run, actions, |actions|, a);
    var run', actions' := run + [Do(s, a)], actions + [a];
    forall i | 0 <= i < |actions'| ensures StepAt(run', actions', i) {
      if i < |actions| { assert StepAt(run, actions, i); }
    }
    assert IsRun(run', actions') && run'[|actions'|] == Do(s, a);
  }

  lemma HeadFinds(s: State)
    requires Reachable(s) && s.poller.Draining? && s.queue != []
    ensures var m := s.queue[0];
            && SafeToHandle(s, m)
            && (m.ExecutorConnect? ==>
                  && m.client in s.inserted
                  && (m.client in s.clients ==> s.clients[m.client].Some?)
                  && (m.client !in s.clients <==> m.client in s.removed) && m.client !in s.hungUp)
            && (m.Disconnect? && m.qp in s.accepted ==> (m.qp in s.inserted <==> ClientConnect(m.qp) !in s.lost))
  {
    var run: seq<State>, actions: seq<Action> :| IsRun(run, actions) && run[|actions|] == s;
    AlwaysSafe(run, actions, |actions|, Handle);
    if s.queue[0].ExecutorConnect? {
      ExecutorFindsClient(run, actions, |actions|);
    } else if s.queue[0].Disconnect? && s.queue[0].qp in s.accepted {
      RunInvariant(run, actions, |actions|);
      HeadIsDue(s, s.queue[0].qp);
    }
  }
}
