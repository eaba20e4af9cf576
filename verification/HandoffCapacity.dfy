/** The connections attached to an executor: whose they are, and how many. */
module HandoffCapacity {
  import opened Handoff
  import opened HandoffTheorems

  function Connections(s: State, q: nat): seq<nat> {
    if q in s.clients && s.clients[q].Some? then s.clients[q].value.connections else []
  }

  /** How many of the connections, or of the messages, come from process `p`. */
  function From(connections: seq<nat>, p: nat): nat {
    multiset(connections)[p]
  }

  function Arriving(t: seq<Message>, p: nat): nat {
    if t == [] then 0
    else Arriving(t[1..], p) + if t[0].ExecutorConnect? && t[0].process == p then 1 else 0
  }

  lemma {:induction false} ArrivingAppend(t: seq<Message>, m: Message, p: nat)
    ensures Arriving(t + [m], p) == Arriving(t, p) + if m.ExecutorConnect? && m.process == p then 1 else 0
  {
    if t == [] {
      assert [m][1..] == [];
      assert [] + [m] == [m];
    } else {
      assert (t + [m])[1..] == t[1..] + [m];
      ArrivingAppend(t[1..], m, p);
    }
  }

  /** What is attached or on its way from a process is no more than it has opened. */
  ghost predicate Counted(s: State, t: seq<Message>, p: nat)
    requires p < |s.processes|
  {
    && s.processes[p].connected <= s.processes[p].cores
    && From(Connections(s, s.processes[p].client), p) + Arriving(t, p) <= s.processes[p].connected
  }

  /** Only processes of the client itself are attached to its executor. */
  ghost predicate OwnOnly(s: State, q: nat) {
    forall p <- Connections(s, q) :: p < |s.processes| && s.processes[p].client == q
  }

  ghost predicate CInv(s: State) {
    && (forall p :: 0 <= p < |s.processes| ==> Counted(s, Transit(s), p))
    && (forall q <- s.clients.Keys :: OwnOnly(s, q))
  }

  lemma {:induction false} ArrivingMeant(s: State, t: seq<Message>, p: nat)
    requires AllMeant(s, t) && |s.processes| <= p
    ensures Arriving(t, p) == 0
  {
    if t != [] {
      assert Meant(s, t[0]);
      forall i | 0 <= i < |t[1..]| ensures Meant(s, t[1..][i]) { assert t[1..][i] == t[i + 1]; }
      ArrivingMeant(s, t[1..], p);
    }
  }

  /** The message that a step attaches to the executor of client `q`. */
  predicate Attaches(s: State, a: Action, q: nat) {
    a.Handle? && s.queue != [] && s.queue[0].ExecutorConnect? && s.queue[0].client == q
  }

  lemma ConnectionsStep(s: State, a: Action, q: nat)
    requires Enabled(s, a) && Safe(s, a)
    ensures var c, c' := Connections(s, q), Connections(Do(s, a), q);
            c' == [] || c' == c || (Attaches(s, a, q) && c' == c + [s.queue[0].process])
  {
  }

  /** Processes keep their clients, and only a new connection changes their count. */
  lemma ProcessesStep(s: State, a: Action)
    requires Enabled(s, a) && Safe(s, a)
    ensures var ps, ps' := s.processes, Do(s, a).processes;
            && |ps| <= |ps'| <= |ps| + 1
            && (|ps| < |ps'| ==> a.Serve? && ps'[|ps|].connected == 0)
            && forall p :: 0 <= p < |ps| ==>
                 && ps'[p].client == ps[p].client && ps'[p].cores == ps[p].cores
                 && (if a.RequestExecutor? && a.process == p
                     then ps'[p].connected == ps[p].connected + 1 <= ps[p].cores
                     else ps'[p].connected == ps[p].connected)
  {
  }

  /** A new process starts with an executor that nothing is attached to. */
  lemma SpawnIsEmpty(s: State, a: Action)
    requires Enabled(s, a) && Safe(s, a) && |s.processes| < |Do(s, a).processes|
    ensures Connections(Do(s, a), Do(s, a).processes[|s.processes|].client) == []
  {
  }

  lemma HeadMeant(s: State)
    requires AllMeant(s, Transit(s)) && s.queue != []
    ensures Meant(s, s.queue[0]) && Transit(s)[0] == s.queue[0]
  {
    assert Transit(s)[0] == s.queue[0];
  }

  lemma OwnOnlyStep(s: State, a: Action, q: nat)
    requires AllMeant(s, Transit(s)) && Enabled(s, a) && Safe(s, a) && OwnOnly(s, q)
    ensures OwnOnly(Do(s, a), q)
  {
    ConnectionsStep(s, a, q);
    ProcessesStep(s, a);
    if Attaches(s, a, q) { HeadMeant(s); }
  }

  /** The messages from process `p` that are on their way after a step. */
  lemma ArrivingStep(s: State, a: Action, p: nat)
    requires Enabled(s, a)
    ensures Arriving(TransitAfter(s, a), p) <=
              Arriving(Transit(s), p) + (if a.RequestExecutor? && a.process == p then 1 else 0)
    ensures a.Handle? && s.queue[0].ExecutorConnect? && s.queue[0].process == p ==>
              Arriving(TransitAfter(s, a), p) + 1 == Arriving(Transit(s), p)
  {
    var t := Transit(s);
    match a
    case RequestClient(qp) => ArrivingAppend(t, ClientConnect(qp), p);
    case RequestExecutor(own, r) => ArrivingAppend(t, ExecutorConnect(own, s.processes[r].client, r), p);
    case Hangup(qp) => ArrivingAppend(t, Disconnect(qp), p);
    case Handle => assert t[0] == s.queue[0];
    case Lose => ArrivingAppend(s.queue, s.listener.message, p);
    case _ =>
  }

  lemma CountedStep(s: State, a: Action, p: nat)
    requires AllMeant(s, Transit(s)) && Enabled(s, a) && Safe(s, a) && p < |Do(s, a).processes|
    requires p < |s.processes| ==> Counted(s, Transit(s), p)
    ensures Counted(Do(s, a), TransitAfter(s, a), p)
  {
    ProcessesStep(s, a);
    ArrivingStep(s, a, p);
    if p == |s.processes| {
      ArrivingMeant(s, Transit(s), p);
      SpawnIsEmpty(s, a);
    } else {
      ConnectionsStep(s, a, s.processes[p].client);
    }
  }

  lemma {:induction false} CapacityInvariant(run: seq<State>, actions: seq<Action>, i: nat)
    requires IsRun(run, actions) && i < |run|
    ensures CInv(run[i])
    decreases i
  {
    if 0 < i {
      assert StepAt(run, actions, i - 1);
      var s, a := run[i - 1], actions[i - 1];
      RunInvariant(run, actions, i - 1);
      CapacityInvariant(run, actions, i - 1);
      TransitStep(s, a);
      forall p | 0 <= p < |run[i].processes| ensures Counted(run[i], Transit(run[i]), p) {
        CountedStep(s, a, p);
      }
      forall q | q in run[i].clients.Keys ensures OwnOnly(run[i], q) {
        assert q !in s.clients.Keys ==> Connections(s, q) == [];
        OwnOnlyStep(s, a, q);
      }
    }
  }

  // ---------------------------------------------------------------------------------------------
  // The array of connections
  // ---------------------------------------------------------------------------------------------

  lemma {:induction false} AllTheSame(c: seq<nat>, p: nat)
    requires forall k :: 0 <= k < |c| ==> c[k] == p
    ensures From(c, p) == |c|
  {
    if c != [] {
      var rest := c[..|c| - 1];
      assert c == rest + [p];
      AllTheSame(rest, p);
    }
  }

  ghost predicate SpawnedOnce(processes: seq<Process>, q: nat) {
    forall p, r :: 0 <= p < |processes| && 0 <= r < |processes| ==>
      (processes[p].client == processes[r].client == q ==> p == r)
  }

  /** As long as a client has asked for one lease only, its executor's array of as many entries as
      cores is never overrun, and every connection in it comes from the executor's own process. */
  lemma ConnectionsFit(run: seq<State>, actions: seq<Action>, i: nat, q: nat)
    requires IsRun(run, actions) && i < |run|
    requires q in run[i].clients && run[i].clients[q].Some? && SpawnedOnce(run[i].processes, q)
    ensures var e := run[i].clients[q].value;
            |e.connections| <= e.cores && forall p <- e.connections :: p == e.process
  {
    var s, e := run[i], run[i].clients[q].value;
    RunInvariant(run, actions, i);
    CapacityInvariant(run, actions, i);
    assert q in s.clients.Keys && GoodEntry(s, q, s.clients[q]) && OwnOnly(s, q);
    assert Counted(s, Transit(s), e.process);
    var c := Connections(s, q);
    forall k | 0 <= k < |c| ensures c[k] == e.process {
      assert c[k] in c;
      assert s.processes[c[k]].client == s.processes[e.process].client == q;
    }
    AllTheSame(c, e.process);
  }
}
