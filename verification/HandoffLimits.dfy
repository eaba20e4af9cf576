/** What the hand-off does not promise, and exactly when it does. */
module HandoffLimits {
  import opened Handoff
  import opened HandoffTheorems

  /** A lease request is heard if and only if the connection of its client is no longer on its way to
      the poller, and was not lost on it, and the client has not been removed. */
  lemma RequestHeardIff(run: seq<State>, actions: seq<Action>, i: nat)
    requires IsRun(run, actions) && i < |actions| && actions[i].Serve? && actions[i].request.Lease?
    ensures var q := actions[i].qp;
            |run[i + 1].processes| == |run[i].processes| + 1 <==>
              ClientConnect(q) !in Transit(run[i]) && ClientConnect(q) !in run[i].lost && q !in run[i].removed
    ensures |run[i + 1].processes| != |run[i].processes| + 1 ==> run[i + 1] == run[i]
  {
    var s, q := run[i], actions[i].qp;
    assert StepAt(run, actions, i);
    RunInvariant(run, actions, i);
    if ClientConnect(q) in Transit(s) {
      var j :| 0 <= j < |Transit(s)| && Transit(s)[j] == ClientConnect(q);
      assert Meant(s, Transit(s)[j]);
    }
  }

  // ---------------------------------------------------------------------------------------------
  // Two runs
  // ---------------------------------------------------------------------------------------------

  /** A client that has been accepted can send its request before the poller knows of it.  The request
      is dropped. */
  lemma EarlyRequestDropped() returns (s: State)
    ensures Reachable(s) && 0 in s.accepted && 0 in s.live && 0 !in s.removed
    ensures Enabled(s, Serve(0, Lease(1))) && Do(s, Serve(0, Lease(1))) == s
  {
    StartReachable();
    s := Start;
    Reach(s, RequestClient(0));
    s := Do(s, RequestClient(0));
    Reach(s, StopDraining);
    s := Do(s, StopDraining);
  }

  /** A client is inserted. */
  lemma OneClient() returns (s: State)
    ensures Reachable(s) && s.listener == Listening && s.poller == Serving && s.queue == [] && s.processes == []
    ensures s.connect == {0} && s.used == {0} && 0 in s.accepted && s.clients == map[0 := None]
  {
    StartReachable();
    Reach(Start, RequestClient(0));
    s := Do(Start, RequestClient(0));
    Reach(s, Enqueue);
    s := Do(s, Enqueue);
    Reach(s, Handle);
    s := Do(s, Handle);
    Reach(s, StopDraining);
    s := Do(s, StopDraining);
  }

  /** It asks for a lease of one core, and its process connects. */
  lemma OneLease() returns (s: State)
    ensures Reachable(s) && s.listener == Listening && s.poller == Serving && s.connect == {0} && s.used == {0, 1}
    ensures s.queue == [ExecutorConnect(1, 0, 0)] && s.processes == [Process(0, 1, 1)] && 0 in s.accepted
    ensures s.clients == map[0 := Some(Executor(0, 1, []))]
  {
    s := OneClient();
    Reach(s, Serve(0, Lease(1)));
    s := Do(s, Serve(0, Lease(1)));
    Reach(s, RequestExecutor(1, 0));
    s := Do(s, RequestExecutor(1, 0));
    Reach(s, Enqueue);
    s := Do(s, Enqueue);
  }

  /** It asks again before that connection is handled, and the second process connects too. */
  lemma TwoLeases() returns (s: State)
    ensures Reachable(s) && s.poller == Serving
    ensures s.queue == [ExecutorConnect(1, 0, 0), ExecutorConnect(2, 0, 1)]
    ensures s.clients == map[0 := Some(Executor(1, 1, []))]
  {
    s := OneLease();
    Reach(s, Serve(0, Lease(1)));
    s := Do(s, Serve(0, Lease(1)));
    Reach(s, RequestExecutor(2, 1));
    s := Do(s, RequestExecutor(2, 1));
    Reach(s, Enqueue);
    s := Do(s, Enqueue);
  }

  lemma DrainAgain(s: State) returns (s': State)
    requires Reachable(s) && s.poller == Serving
    ensures Reachable(s') && s'.poller == Draining && s'.queue == s.queue && s'.clients == s.clients
  {
    Reach(s, StopServing);
    s' := Do(s, StopServing);
    Reach(s', Check({}));
    s' := Do(s', Check({}));
    Reach(s', Remove);
    s' := Do(s', Remove);
    assert s'.clients == s.clients - {};
  }

  /** A client that asks twice can end with an executor of one core and two connections, the first of
      which comes from the process before. */
  lemma StrayConnection() returns (s: State)
    ensures Reachable(s) && s.clients == map[0 := Some(Executor(1, 1, [0, 1]))]
  {
    s := TwoLeases();
    s := DrainAgain(s);
    Reach(s, Handle);
    s := Do(s, Handle);
    assert Attach(Executor(1, 1, []), 0) == Executor(1, 1, [0]);
    assert s.clients == map[0 := Some(Executor(1, 1, [0]))];
    Reach(s, Handle);
    s := Do(s, Handle);
    assert Attach(Executor(1, 1, [0]), 1) == Executor(1, 1, [0, 1]);
  }
}
