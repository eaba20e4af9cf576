/** The executor manager's two threads.  The listener accepts connections and hands them over through
    a first-in-first-out queue; the poller owns the table of clients and attaches executors to them.
    Queue-pair numbers are never reused, and executor connections come only from spawned processes. */
module Handoff {

  datatype Option<T> = None | Some(value: T)

  /** What travels from the listener to the poller.  An executor's connection names its client; the
      process it comes from is known to the model only. */
  datatype Message =
    | ClientConnect(qp: nat)
    | ExecutorConnect(own: nat, client: nat, process: nat)
    | Disconnect(qp: nat)

  datatype Listener = Listening | Emplacing(message: Message)

  datatype Poller = Draining | Serving | Checking | Removing(finished: set<nat>)

  /** `ActiveExecutor`: the process it was made for, and the processes of the attached connections. */
  datatype Executor = Executor(process: nat, cores: nat, connections: seq<nat>)

  /** A spawned process: its client, how many connections it may open, how many it has opened. */
  datatype Process = Process(client: nat, cores: nat, connected: nat)

  datatype Request = Lease(cores: nat) | Leave | Failed

  /** The threads' own data, and what has happened so far, which the program does not store: numbers
      used, clients accepted, connections live, processes spawned, clients inserted into the table and
      removed from it, connections whose end the poller has handled, and messages that were lost. */
  datatype State = State(
    listener: Listener,
    connect: set<nat>,
    queue: seq<Message>,
    poller: Poller,
    clients: map<nat, Option<Executor>>,
    used: set<nat>,
    accepted: set<nat>,
    live: set<nat>,
    processes: seq<Process>,
    inserted: set<nat>,
    removed: set<nat>,
    hungUp: set<nat>,
    lost: set<Message>
  )

  datatype Action =
    | RequestClient(qp: nat)
    | RequestExecutor(own: nat, process: nat)
    | Hangup(qp: nat)
    | Enqueue
    | Lose
    | Handle
    | StopDraining
    | Serve(qp: nat, request: Request)
    | StopServing
    | Check(finished: set<nat>)
    | Remove

  // ---------------------------------------------------------------------------------------------
  // Steps
  // ---------------------------------------------------------------------------------------------

  predicate Enabled(s: State, a: Action) {
    match a
    case RequestClient(qp) => s.listener.Listening? && qp !in s.used
    case RequestExecutor(own, p) =>
      && s.listener.Listening? && own !in s.used
      && p < |s.processes| && s.processes[p].connected < s.processes[p].cores
    case Hangup(qp) => s.listener.Listening? && qp in s.live
    case Enqueue => s.listener.Emplacing?
    case Lose => s.listener.Emplacing?
    case Handle => s.poller.Draining? && s.queue != []
    case StopDraining => s.poller.Draining?
    case Serve(qp, _) => s.poller.Serving? && qp in s.accepted
    case StopServing => s.poller.Serving?
    case Check(finished) => s.poller.Checking? && forall q <- finished :: q in s.clients && s.clients[q].Some?
    case Remove => s.poller.Removing?
  }

  /** The executor that a message is attached to is there: no null pointer is followed. */
  predicate SafeToHandle(s: State, m: Message) {
    m.ExecutorConnect? && m.client in s.clients ==> s.clients[m.client].Some?
  }

  predicate Safe(s: State, a: Action) {
    a.Handle? && s.queue != [] ==> SafeToHandle(s, s.queue[0])
  }

  function Attach(e: Executor, process: nat): Executor {
    e.(connections := e.connections + [process])
  }

  /** `_handle_connections` and `_handle_disconnections`. */
  function HandleMessage(s: State, m: Message): State
    requires SafeToHandle(s, m)
  {
    match m
    case ClientConnect(q) =>
      s.(clients := if q in s.clients then s.clients else s.clients[q := None], inserted := s.inserted + {q})
    case ExecutorConnect(_, q, p) =>
      if q in s.clients then s.(clients := s.clients[q := Some(Attach(s.clients[q].value, p))]) else s
    case Disconnect(q) =>
      var s1 := s.(hungUp := s.hungUp + {q});
      if q in s.clients then s1.(clients := s.clients - {q}, removed := s.removed + {q}) else s1
  }

  /** `_handle_client_message` and `_process_client`; a message for an unknown client is dropped. */
  function ServeRequest(s: State, q: nat, request: Request): State {
    if q !in s.clients then s else
    match request
    case Lease(cores) =>
      s.(processes := s.processes + [Process(q, cores, 0)],
         clients := s.clients[q := Some(Executor(|s.processes|, cores, []))])
    case Leave => s.(clients := s.clients - {q}, removed := s.removed + {q})
    case Failed => s
  }

  /** What the listener does after `emplace`, of which it does not look at the result: when no block can
      be allocated, the message is lost. */
  function Emplaced(s: State): State
    requires s.listener.Emplacing?
  {
    var m := s.listener.message;
    s.(listener := Listening, connect := if m.Disconnect? then s.connect - {m.qp} else s.connect)
  }

  function Do(s: State, a: Action): State
    requires Enabled(s, a) && Safe(s, a)
  {
    match a
    case RequestClient(qp) =>
      s.(connect := s.connect + {qp}, used := s.used + {qp}, accepted := s.accepted + {qp}, live := s.live + {qp},
         listener := Emplacing(ClientConnect(qp)))
    case RequestExecutor(own, p) =>
      var process := s.processes[p];
      var s1 := s.(used := s.used + {own}, processes := s.processes[p := process.(connected := process.connected + 1)]);
      if process.client !in s.connect then s1
      else s1.(live := s.live + {own}, listener := Emplacing(ExecutorConnect(own, process.client, p)))
    case Hangup(qp) => s.(live := s.live - {qp}, listener := Emplacing(Disconnect(qp)))
    case Enqueue => Emplaced(s).(queue := s.queue + [s.listener.message])
    case Lose => Emplaced(s).(lost := s.lost + {s.listener.message})
    case Handle => HandleMessage(s, s.queue[0]).(queue := s.queue[1..])
    case StopDraining => s.(poller := Serving)
    case Serve(qp, request) => ServeRequest(s, qp, request)
    case StopServing => s.(poller := Checking)
    case Check(finished) =>
      s.(poller := Removing(finished),
         clients := map q | q in s.clients :: if q in finished then None else s.clients[q])
    case Remove =>
      s.(poller := Draining, clients := s.clients - s.poller.finished, removed := s.removed + s.poller.finished)
  }

  const Start: State := State(Listening, {}, [], Draining, map[], {}, {}, {}, [], {}, {}, {}, {})

  predicate StepAt(run: seq<State>, actions: seq<Action>, i: nat)
    requires i < |actions| && |run| == |actions| + 1
  {
    Enabled(run[i], actions[i]) && Safe(run[i], actions[i]) && run[i + 1] == Do(run[i], actions[i])
  }

  predicate IsRun(run: seq<State>, actions: seq<Action>) {
    && |run| == |actions| + 1 && run[0] == Start
    && forall i :: 0 <= i < |actions| ==> StepAt(run, actions, i)
  }

  // ---------------------------------------------------------------------------------------------
  // The invariant
  // ---------------------------------------------------------------------------------------------

  function Pending(l: Listener): seq<Message> {
    if l.Emplacing? then [l.message] else []
  }

  /** The messages on their way: those queued and the one the listener is about to queue. */
  function Transit(s: State): seq<Message> {
    s.queue + Pending(s.listener)
  }

  /** The table holds the clients that were inserted and not removed. */
  ghost predicate Tables(s: State) {
    && s.connect <= s.accepted <= s.used && s.live <= s.used && s.hungUp <= s.used && s.hungUp !! s.live
    && s.removed <= s.inserted <= s.accepted
    && s.clients.Keys == s.inserted - s.removed
    && (s.poller.Removing? ==> s.poller.finished <= s.clients.Keys)
  }

  /** What a message on its way says about the state. */
  ghost predicate Meant(s: State, m: Message) {
    match m
    case ClientConnect(q) => q in s.accepted && q !in s.inserted
    case ExecutorConnect(x, q, p) => x in s.used && p < |s.processes| && s.processes[p].client == q
    case Disconnect(x) => x in s.used && x !in s.live
  }

  ghost predicate AllMeant(s: State, t: seq<Message>) {
    forall i :: 0 <= i < |t| ==> Meant(s, t[i])
  }

  /** A client is announced at most once, and before its disconnection. */
  ghost predicate Ordered(t: seq<Message>) {
    forall i, j :: 0 <= i < j < |t| && t[j].ClientConnect? ==> t[i] != t[j] && t[i] != Disconnect(t[j].qp)
  }

  /** Nobody is forgotten: an accepted client is in the table, or has been, or is announced, unless the
      announcement was lost. */
  ghost predicate Announced(s: State, t: seq<Message>) {
    forall q <- s.accepted :: q in s.inserted || ClientConnect(q) in t || ClientConnect(q) in s.lost
  }

  /** A client that has not been removed has a live connection, or its disconnection is on its way,
      unless either message was lost. */
  ghost predicate Attended(s: State, t: seq<Message>) {
    forall q <- s.accepted ::
      q in s.removed || q in s.live || Disconnect(q) in t || Disconnect(q) in s.lost || ClientConnect(q) in s.lost
  }

  /** An announcement that was lost will not come. */
  ghost predicate LostForGood(s: State, t: seq<Message>) {
    && (forall m <- s.lost :: m.ClientConnect? ==> m.qp in s.accepted && m.qp !in s.inserted && m !in t)
    && (forall m <- s.lost :: m.Disconnect? ==> m.qp in s.used && m.qp !in s.live)
  }

  /** Between events the listener knows exactly the live clients. */
  ghost predicate Remembered(s: State) {
    forall q <- s.accepted :: q in s.live <==> q in s.connect && s.listener != Emplacing(Disconnect(q))
  }

  /** No executor is announced behind the disconnection of its client. */
  ghost predicate InTime(s: State, t: seq<Message>) {
    forall j :: 0 <= j < |t| && t[j].ExecutorConnect? ==>
      t[j].client !in s.hungUp && forall i :: 0 <= i < j ==> t[i] != Disconnect(t[j].client)
  }

  /** Process `p` is the latest that was spawned for its client. */
  ghost predicate Latest(processes: seq<Process>, p: nat)
    requires p < |processes|
  {
    forall r :: p < r < |processes| ==> processes[r].client != processes[p].client
  }

  ghost predicate NoProcess(processes: seq<Process>, q: nat) {
    forall p :: 0 <= p < |processes| ==> processes[p].client != q
  }

  ghost predicate GoodEntry(s: State, q: nat, e: Option<Executor>) {
    match e
    case Some(x) =>
      && x.process < |s.processes| && s.processes[x.process].client == q && s.processes[x.process].cores == x.cores
      && Latest(s.processes, x.process)
      && !(s.poller.Removing? && q in s.poller.finished)
    case None => (s.poller.Removing? && q in s.poller.finished) || NoProcess(s.processes, q)
  }

  /** Processes are spawned for clients of the table, and a client has an executor if and only if one
      was spawned for it, except while it is being removed. */
  ghost predicate Spawned(s: State) {
    && (forall p :: 0 <= p < |s.processes| ==> s.processes[p].client in s.inserted)
    && (forall q <- s.clients.Keys :: GoodEntry(s, q, s.clients[q]))
  }

  ghost predicate Inv(s: State) {
    && Tables(s) && Spawned(s) && Remembered(s)
    && AllMeant(s, Transit(s)) && Ordered(Transit(s)) && Announced(s, Transit(s)) && Attended(s, Transit(s))
    && InTime(s, Transit(s)) && LostForGood(s, Transit(s))
  }
}
