/** The hand-off on the real queue: the listener's `emplace` is the producer of the blocking
    lock-free queue, step by step, and the poller's `_check_queue` its consumer. */
module HandoffQueue {
  import opened Handoff
  import opened HandoffTheorems
  import opened BlockingQueue
  import Spsc
  import SpscTheorems
  import Semaphore

  /** The queue object and the two threads.  `h.queue` only records what has been handed over; no step
      looks at it. */
  datatype Manager = Manager(b: Blocking<Message>, h: State)

  predicate ListenerIdle(m: Manager) {
    m.b.prod == Enqueuing && m.b.q.prod.PReady?
  }

  predicate PollerIdle(m: Manager) {
    m.b.cons == Waiting && m.b.sem.waiter.WIdle?
  }

  predicate IsListenerAction(a: Action) {
    a.RequestClient? || a.RequestExecutor? || a.Hangup?
  }

  predicate IsPollerAction(a: Action) {
    a.StopDraining? || a.Serve? || a.StopServing? || a.Check? || a.Remove?
  }

  /** One access of `emplace`.  It gives up when no block can be allocated, and the message is lost. */
  predicate EmplaceStep(m: Manager, c: Spsc.Choice<Message>, m': Manager) {
    && m.b.prod == Enqueuing && Spsc.ProducerSafe(m.b.q)
    && m.h.listener == Emplacing(c.x) && c.alloc
    && m'.b == ProducerMove(m.b, c)
    && m'.h == if m'.b.prod == Signalling then Do(m.h, Enqueue) else if m'.b.q.prod.PReady? then Do(m.h, Lose) else m.h
  }

  predicate SignalStep(m: Manager, c: Spsc.Choice<Message>, m': Manager) {
    m.b.prod == Signalling && m'.b == ProducerMove(m.b, c) && m'.h == m.h
  }

  /** The poller takes what the queue delivered, whatever that is. */
  predicate Delivers(m: Manager, b': Blocking<Message>) {
    |m.b.q.received| < |b'.q.received|
  }

  function Delivered(m: Manager, b': Blocking<Message>): Message
    requires Delivers(m, b')
  {
    b'.q.received[|m.b.q.received|]
  }

  predicate DequeueStep(m: Manager, w: Semaphore.WaitChoice, m': Manager) {
    && m.h.poller.Draining? && ConsumerReady(m.b, w)
    && m'.b == ConsumerMove(m.b, w)
    && (if Delivers(m, m'.b) then
          && SafeToHandle(m.h, Delivered(m, m'.b))
          && m'.h == HandleMessage(m.h, Delivered(m, m'.b)).(queue := if m.h.queue == [] then [] else m.h.queue[1..])
        else m'.h == m.h)
  }

  predicate LocalStep(m: Manager, a: Action, m': Manager) {
    && ((IsListenerAction(a) && ListenerIdle(m)) || (IsPollerAction(a) && PollerIdle(m)))
    && Enabled(m.h, a) && Safe(m.h, a) && m' == m.(h := Do(m.h, a))
  }

  ghost predicate Next(m: Manager, m': Manager) {
    || (exists c :: EmplaceStep(m, c, m'))
    || (exists c :: SignalStep(m, c, m'))
    || (exists w :: DequeueStep(m, w, m'))
    || (exists a :: LocalStep(m, a, m'))
  }

  ghost predicate NextAt(run: seq<Manager>, i: nat)
    requires 0 < i < |run|
  {
    Next(run[i - 1], run[i])
  }

  ghost predicate IsManagerRun(run: seq<Manager>, blockSize: nat, count: nat) {
    && 0 < |run|
    && BlockingQueue.Start(run[0].b, blockSize, count) && run[0].h == Handoff.Start
    && forall i :: 0 < i < |run| ==> NextAt(run, i)
  }

  // ---------------------------------------------------------------------------------------------
  // The invariant
  // ---------------------------------------------------------------------------------------------

  /** The producer is enqueuing the message the listener holds. */
  predicate Carries(m: Manager) {
    !m.b.q.prod.PReady? ==> m.h.listener == Emplacing(m.b.q.prod.x)
  }

  ghost predicate Linked(m: Manager) {
    Carries(m) && Reachable(m.h) && m.b.q.received + m.h.queue == m.b.q.sent
  }

  ghost predicate MInv(m: Manager, ring: seq<nat>, t: nat) {
    BInv(m.b, ring, t) && Linked(m)
  }

  /** What one access of the producer does to the element it carries and to the logs. */
  lemma ProducerEffect(q: Spsc.State<Message>, c: Spsc.Choice<Message>)
    requires Spsc.ProducerSafe(q)
    ensures var q' := Spsc.ProducerStep(q, c);
            var x := if q.prod.PReady? then c.x else q.prod.x;
            && q'.received == q.received
            && (q'.sent == q.sent || (q'.sent == q.sent + [x] && q'.prod.PReady?))
            && (!q'.prod.PReady? ==> q'.prod.x == x)
  {
  }

  lemma EmplaceKeeps(m: Manager, c: Spsc.Choice<Message>, m': Manager)
    requires Linked(m) && EmplaceStep(m, c, m')
    ensures Linked(m')
  {
    ProducerEffect(m.b.q, c);
    if m'.b.prod == Signalling {
      Reach(m.h, Enqueue);
    } else if m'.b.q.prod.PReady? {
      Reach(m.h, Lose);
    }
  }

  lemma SignalKeeps(m: Manager, c: Spsc.Choice<Message>, m': Manager)
    requires Linked(m) && SignalStep(m, c, m')
    ensures Linked(m')
  {
  }

  /** What one access of the consumer does to the logs. */
  lemma ConsumerEffect(b: Blocking<Message>, w: Semaphore.WaitChoice)
    requires ConsumerReady(b, w)
    ensures var b' := ConsumerMove(b, w);
            && b'.q.sent == b.q.sent && b'.q.prod == b.q.prod
            && b.q.received <= b'.q.received && |b'.q.received| <= |b.q.received| + 1
  {
  }

  /** What is delivered is the head of what has been handed over. */
  lemma DeliveredIsHead(m: Manager, b': Blocking<Message>)
    requires m.b.q.received + m.h.queue == m.b.q.sent == b'.q.sent
    requires b'.q.received <= b'.q.sent && m.b.q.received <= b'.q.received && |b'.q.received| == |m.b.q.received| + 1
    ensures m.h.queue != [] && Delivered(m, b') == m.h.queue[0] && b'.q.received + m.h.queue[1..] == b'.q.sent
  {
    var n := |m.b.q.received|;
    assert b'.q.sent[n] == b'.q.received[n];
    assert b'.q.received == m.b.q.received + [m.h.queue[0]];
  }

  lemma DequeueKeeps(m: Manager, w: Semaphore.WaitChoice, m': Manager)
    requires Linked(m) && DequeueStep(m, w, m') && m'.b.q.received <= m'.b.q.sent
    ensures Linked(m')
  {
    ConsumerEffect(m.b, w);
    if Delivers(m, m'.b) {
      DeliveredIsHead(m, m'.b);
      Reach(m.h, Handle);
      assert m'.h == Do(m.h, Handle);
    }
  }

  lemma LocalKeeps(m: Manager, a: Action, m': Manager)
    requires Linked(m) && LocalStep(m, a, m')
    ensures Linked(m')
  {
    Reach(m.h, a);
  }

  /** Every step of the manager is a step of the blocking queue, or leaves it alone. */
  lemma NextMoves(m: Manager, m': Manager)
    requires Next(m, m')
    ensures m'.b == m.b || Moves(m.b, m'.b)
  {
    if c :| EmplaceStep(m, c, m') {
      assert ProducerReady(m.b) && m'.b == ProducerMove(m.b, c);
    } else if c :| SignalStep(m, c, m') {
      assert ProducerReady(m.b) && m'.b == ProducerMove(m.b, c);
    } else if w :| DequeueStep(m, w, m') {
      assert ConsumerReady(m.b, w) && m'.b == ConsumerMove(m.b, w);
    }
  }

  lemma NextKeepsLinked(m: Manager, m': Manager)
    requires Linked(m) && Next(m, m') && m'.b.q.received <= m'.b.q.sent
    ensures Linked(m')
  {
    if c :| EmplaceStep(m, c, m') {
      EmplaceKeeps(m, c, m');
    } else if c :| SignalStep(m, c, m') {
      SignalKeeps(m, c, m');
    } else if w :| DequeueStep(m, w, m') {
      DequeueKeeps(m, w, m');
    } else {
      var a :| LocalStep(m, a, m');
      LocalKeeps(m, a, m');
    }
  }

  lemma StartLinked(m: Manager)
    requires m.b.q.sent == [] && m.b.q.received == [] && m.b.q.prod.PReady? && m.h == Handoff.Start
    ensures Linked(m)
  {
    StartReachable();
    assert m.b.q.received + m.h.queue == [];
  }

  lemma StartHolds(m: Manager, blockSize: nat, count: nat) returns (ring: seq<nat>)
    requires BlockingQueue.Start(m.b, blockSize, count) && m.h == Handoff.Start && 2 <= blockSize
    ensures MInv(m, ring, 0)
  {
    StartLinked(m);
    ring := BlockingQueue.StartHolds(m.b, blockSize, count);
  }

  lemma QueueKeeps(b: Blocking<Message>, b': Blocking<Message>, ring: seq<nat>, t: nat)
    returns (ring': seq<nat>, t': nat)
    requires BInv(b, ring, t) && (b' == b || Moves(b, b'))
    ensures BInv(b', ring', t') && b'.q.received <= b'.q.sent
  {
    ring', t' := ring, t;
    if b' != b {
      ring', t' := MovesKeep(b, b', ring, t);
    }
    SpscTheorems.QueuedIsFlat(b'.q, ring', t');
  }

  lemma NextKeeps(m: Manager, m': Manager, ring: seq<nat>, t: nat) returns (ring': seq<nat>, t': nat)
    requires MInv(m, ring, t) && Next(m, m')
    ensures MInv(m', ring', t')
  {
    NextMoves(m, m');
    ring', t' := QueueKeeps(m.b, m'.b, ring, t);
    NextKeepsLinked(m, m');
  }

  lemma {:induction false} ManagerInvariant(run: seq<Manager>, blockSize: nat, count: nat, i: nat)
    returns (ring: seq<nat>, t: nat)
    requires IsManagerRun(run, blockSize, count) && 2 <= blockSize && i < |run|
    ensures MInv(run[i], ring, t)
    decreases i
  {
    if i == 0 {
      ring := StartHolds(run[0], blockSize, count);
      t := 0;
    } else {
      assert NextAt(run, i);
      ring, t := ManagerInvariant(run, blockSize, count, i - 1);
      ring, t := NextKeeps(run[i - 1], run[i], ring, t);
    }
  }

  // ---------------------------------------------------------------------------------------------
  // The theorems
  // ---------------------------------------------------------------------------------------------

  /** The manager on the lock-free queue refines the manager on an atomic one: the state of its two
      threads is one that the hand-off on a first-in-first-out queue reaches, and the elements found by
      walking over the blocks are the messages of that queue. */
  lemma ManagerRefines(run: seq<Manager>, blockSize: nat, count: nat, i: nat)
    requires IsManagerRun(run, blockSize, count) && 2 <= blockSize && i < |run|
    ensures Reachable(run[i].h) && Spsc.Queued(run[i].b.q.mem) == run[i].h.queue
  {
    var b := run[i].b;
    var ring, t := ManagerInvariant(run, blockSize, count, i);
    SpscTheorems.QueuedIsFlat(b.q, ring, t);
    assert Spsc.Queued(b.q.mem) == b.q.sent[|b.q.received|..] == run[i].h.queue;
  }

  /** Whatever the lock-free queue delivers to the poller can be handled: if it is the connection of an
      executor, its client has been inserted, and is in the table with an executor or was removed, and not
      for having hung up. */
  lemma DeliveryFindsClient(run: seq<Manager>, blockSize: nat, count: nat, i: nat, w: Semaphore.WaitChoice)
    requires IsManagerRun(run, blockSize, count) && 2 <= blockSize && i < |run|
    requires run[i].h.poller.Draining? && ConsumerReady(run[i].b, w) && Delivers(run[i], ConsumerMove(run[i].b, w))
    ensures var h, v := run[i].h, Delivered(run[i], ConsumerMove(run[i].b, w));
            && SafeToHandle(h, v)
            && (v.ExecutorConnect? ==>
                  && v.client in h.inserted
                  && (v.client in h.clients ==> h.clients[v.client].Some?)
                  && (v.client !in h.clients <==> v.client in h.removed) && v.client !in h.hungUp)
            && (v.Disconnect? && v.qp in h.accepted ==> (v.qp in h.inserted <==> ClientConnect(v.qp) !in h.lost))
  {
    var m, b' := run[i], ConsumerMove(run[i].b, w);
    var ring, t := ManagerInvariant(run, blockSize, count, i);
    assert ConsumerReady(m.b, w) && b' == ConsumerMove(m.b, w);
    assert Moves(m.b, b');
    ring, t := QueueKeeps(m.b, b', ring, t);
    ConsumerEffect(m.b, w);
    DeliveredIsHead(m, b');
    HeadFinds(m.h);
  }
}
