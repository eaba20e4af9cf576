/** `BlockingReaderWriterQueue`: the lock-free queue and the semaphore together.  The producer
    signals after every successful enqueue; the consumer dequeues after every successful wait. */
module BlockingQueue {
  import opened Spsc
  import opened SpscInvariant
  import opened SpscTheorems
  import SpscConsumer
  import SpscProducer
  import Semaphore

  datatype ProducerPhase = Enqueuing | Signalling

  datatype ConsumerPhase = Waiting | Dequeuing

  datatype Blocking<T> = Blocking(q: State<T>, sem: Semaphore.State, prod: ProducerPhase, cons: ConsumerPhase)

  predicate ProducerReady<T>(b: Blocking<T>) {
    b.prod == Signalling || ProducerSafe(b.q)
  }

  function ProducerMove<T>(b: Blocking<T>, c: Choice<T>): Blocking<T>
    requires ProducerReady(b)
  {
    match b.prod
    case Enqueuing =>
      var q := ProducerStep(b.q, c);
      b.(q := q, prod := if |b.q.sent| < |q.sent| then Signalling else Enqueuing)
    case Signalling =>
      var sem := Semaphore.SignallerStep(b.sem, 1);
      b.(sem := sem, prod := if sem.signaller.SIdle? then Enqueuing else Signalling)
  }

  predicate ConsumerReady<T>(b: Blocking<T>, w: Semaphore.WaitChoice) {
    if b.cons == Waiting then !Semaphore.Blocked(b.sem, w) else ConsumerSafe(b.q)
  }

  function ConsumerMove<T>(b: Blocking<T>, w: Semaphore.WaitChoice): Blocking<T>
    requires ConsumerReady(b, w)
  {
    match b.cons
    case Waiting =>
      var sem := Semaphore.WaiterStep(b.sem, w);
      b.(sem := sem, cons := if b.sem.acquired < sem.acquired then Dequeuing else Waiting)
    case Dequeuing =>
      var q := ConsumerStep(b.q);
      b.(q := q, cons := if q.cons.CIdle? then Waiting else Dequeuing)
  }

  ghost predicate Moves<T(!new)>(b: Blocking<T>, b': Blocking<T>) {
    || (ProducerReady(b) && exists c :: b' == ProducerMove(b, c))
    || (exists w :: ConsumerReady(b, w) && b' == ConsumerMove(b, w))
  }

  ghost predicate Start<T>(b: Blocking<T>, blockSize: nat, count: nat) {
    Init(b.q, blockSize, count) && Semaphore.Init(b.sem) && b.prod == Enqueuing && b.cons == Waiting
  }

  ghost predicate MoveAt<T(!new)>(run: seq<Blocking<T>>, i: nat)
    requires 0 < i < |run|
  {
    Moves(run[i - 1], run[i])
  }

  ghost predicate IsBlockingRun<T(!new)>(run: seq<Blocking<T>>, blockSize: nat, count: nat) {
    && 0 < |run|
    && Start(run[0], blockSize, count)
    && forall i :: 0 < i < |run| ==> MoveAt(run, i)
  }

  // ---------------------------------------------------------------------------------------------
  // The invariant
  // ---------------------------------------------------------------------------------------------

  /** One while an enqueued element has not been signalled yet. */
  function Unsignalled<T>(b: Blocking<T>): nat {
    if b.prod == Signalling && !b.sem.signaller.SPost? then 1 else 0
  }

  /** One while an acquired permit has not been turned into an element yet. */
  function Undequeued<T>(b: Blocking<T>): nat {
    if b.cons == Dequeuing then 1 else 0
  }

  /** The two accounts agree, and a dequeue that follows a wait began when there was more enqueued
      than dequeued. */
  ghost predicate Agreed<T>(b: Blocking<T>) {
    && Semaphore.Inv(b.sem)
    && |b.q.sent| == b.sem.signalled + Unsignalled(b)
    && |b.q.received| + Undequeued(b) == b.sem.acquired
    && (if b.prod == Enqueuing then b.sem.signaller.SIdle? else b.q.prod.PReady?)
    && (b.sem.signaller.SAdd? ==> b.sem.signaller.count == 1)
    && (if b.cons == Waiting then b.q.cons.CIdle? else b.sem.waiter.WIdle?)
    && (match b.q.cons
        case CLoadFrontBlock(begun) => |b.q.received| < begun
        case CLoadFront(begun, _) => |b.q.received| < begun
        case CLoadTail(begun, _, _) => |b.q.received| < begun
        case CLoadTailBlock(begun, _, _) => |b.q.received| < begun
        case _ => true)
  }

  ghost predicate BInv<T>(b: Blocking<T>, ring: seq<nat>, t: nat) {
    Inv(b.q, ring, t) && Agreed(b)
  }

  lemma ProducerKeepsAgreed<T>(b: Blocking<T>, c: Choice<T>)
    requires Agreed(b) && ProducerReady(b)
    ensures Agreed(ProducerMove(b, c))
  {
    if b.prod == Signalling {
      Semaphore.SignallerKeeps(b.sem, 1);
    }
  }

  lemma WaitKeepsAgreed<T>(b: Blocking<T>, w: Semaphore.WaitChoice)
    requires Agreed(b) && ConsumerReady(b, w) && b.cons == Waiting
    ensures Agreed(ConsumerMove(b, w))
  {
    Semaphore.WaiterKeeps(b.sem, w);
  }

  /** The dequeue that follows a successful wait is never refused. */
  lemma DequeueKeepsAgreed<T>(b: Blocking<T>, ring: seq<nat>, t: nat)
    requires BInv(b, ring, t) && b.cons == Dequeuing
    ensures ConsumerSafe(b.q)
    ensures !(b.q.cons.CLoadTailBlock? && ConsumerStep(b.q).cons.CIdle?)
    ensures Agreed(ConsumerMove(b, Semaphore.WaitChoice(Semaphore.Forever, false)))
  {
    SpscConsumer.ConsumerKeeps(b.q, ring, t);
    if b.q.cons.CLoadTailBlock? && ConsumerStep(b.q).cons.CIdle? {
      RefusalMeansEmpty(b.q, ring, t);
      assert false;
    }
  }

  lemma MovesKeep<T(!new)>(b: Blocking<T>, b': Blocking<T>, ring: seq<nat>, t: nat) returns (ring': seq<nat>, t': nat)
    requires BInv(b, ring, t) && Moves(b, b')
    ensures BInv(b', ring', t')
  {
    ring', t' := ring, t;
    if ProducerReady(b) && exists c :: b' == ProducerMove(b, c) {
      var c :| b' == ProducerMove(b, c);
      ProducerKeepsAgreed(b, c);
      if b.prod == Enqueuing {
        SpscProducer.ProducerKeeps(b.q, c, ring, t);
        ring', t' := ProducerRing(b.q, ring, t), ProducerPos(b.q, t);
      }
    } else {
      var w :| ConsumerReady(b, w) && b' == ConsumerMove(b, w);
      if b.cons == Waiting {
        WaitKeepsAgreed(b, w);
      } else {
        DequeueKeepsAgreed(b, ring, t);
        SpscConsumer.ConsumerKeeps(b.q, ring, t);
        ring', t' := ConsumerRing(b.q, ring), ConsumerPos(b.q, t);
      }
    }
  }

  lemma QuietAgreed<T>(b: Blocking<T>)
    requires b.q.prod.PReady? && b.q.cons.CIdle? && b.prod == Enqueuing && b.cons == Waiting
    requires Semaphore.Inv(b.sem) && b.sem.signaller.SIdle? && b.sem.waiter.WIdle?
    requires b.sem.signalled == |b.q.sent| && b.sem.acquired == |b.q.received|
    ensures Agreed(b)
  {
  }

  lemma IdleAgreed<T>(b: Blocking<T>)
    requires b.q.prod.PReady? && b.q.cons.CIdle? && b.prod == Enqueuing && b.cons == Waiting && Semaphore.Init(b.sem)
    requires |b.q.sent| == b.sem.signalled && |b.q.received| == b.sem.acquired
    ensures Agreed(b)
  {
    Semaphore.InitHolds(b.sem);
    QuietAgreed(b);
  }

  lemma StartHolds<T>(b: Blocking<T>, blockSize: nat, count: nat) returns (ring: seq<nat>)
    requires Start(b, blockSize, count) && 2 <= blockSize
    ensures BInv(b, ring, 0)
  {
    ring := InitHolds(b.q, blockSize, count);
    IdleAgreed(b);
  }

  lemma {:induction false} BlockingRunInvariant<T(!new)>(run: seq<Blocking<T>>, blockSize: nat, count: nat, i: nat)
    returns (ring: seq<nat>, t: nat)
    requires IsBlockingRun(run, blockSize, count) && 2 <= blockSize && i < |run|
    ensures BInv(run[i], ring, t)
    decreases i
  {
    if i == 0 {
      ring := StartHolds(run[0], blockSize, count);
      t := 0;
    } else {
      assert MoveAt(run, i);
      ring, t := BlockingRunInvariant(run, blockSize, count, i - 1);
      ring, t := MovesKeep(run[i - 1], run[i], ring, t);
    }
  }

  /** In every run the inner queue is as long as the available permits, the enqueues not yet
      signalled and the acquired permits not yet dequeued together. */
  lemma LengthIsPermits<T(!new)>(run: seq<Blocking<T>>, blockSize: nat, count: nat, i: nat)
    requires IsBlockingRun(run, blockSize, count) && 2 <= blockSize && i < |run|
    ensures var b := run[i];
            && |Queued(b.q.mem)| == Semaphore.Permits(b.sem) + Unsignalled(b) + Undequeued(b)
            && b.q.received + Queued(b.q.mem) == b.q.sent
  {
    var ring, t := BlockingRunInvariant(run, blockSize, count, i);
    QueuedIsFlat(run[i].q, ring, t);
  }

  /** The source's `assert(success)`: a dequeue after a successful wait never comes back empty. */
  lemma DequeueNeverFails<T(!new)>(run: seq<Blocking<T>>, blockSize: nat, count: nat, i: nat)
    requires IsBlockingRun(run, blockSize, count) && 2 <= blockSize && 0 < i < |run|
    requires run[i - 1].cons == Dequeuing && run[i].cons == Waiting
    ensures exists v :: run[i].q.received == run[i - 1].q.received + [v]
  {
    assert MoveAt(run, i);
    var ring, t := BlockingRunInvariant(run, blockSize, count, i - 1);
    DequeueKeepsAgreed(run[i - 1], ring, t);
  }

  /** A consumer that sleeps forever while the producer is between calls sleeps on an empty queue. */
  lemma SleepsOnlyWhenEmpty<T(!new)>(run: seq<Blocking<T>>, blockSize: nat, count: nat, i: nat)
    requires IsBlockingRun(run, blockSize, count) && 2 <= blockSize && i < |run|
    requires run[i].sem.waiter.WKernelWait? && run[i].sem.kernel == 0 && run[i].prod == Enqueuing
    ensures Queued(run[i].q.mem) == []
  {
    var ring, t := BlockingRunInvariant(run, blockSize, count, i);
    LengthIsPermits(run, blockSize, count, i);
  }
}
