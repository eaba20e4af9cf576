/** What holds in every reachable state of the two-thread queue. */
module SpscTheorems {
  import opened Blocks
  import opened Spsc
  import opened SpscInvariant
  import SpscConsumer
  import SpscProducer

  lemma InitHolds<T>(s: State<T>, blockSize: nat, count: nat) returns (ring: seq<nat>)
    requires Init(s, blockSize, count) && 2 <= blockSize
    ensures Inv(s, ring, 0)
  {
    ring := seq(count, i => i);
    forall i {:trigger Succ(ring, i)} | 0 <= i < count ensures s.mem.blocks[ring[i]].next == Succ(ring, i) {
      assert s.mem.blocks[i].next == if i + 1 == count then 0 else i + 1;
    }
    forall i | 0 <= i < count ensures s.mem.blocks[ring[i]].Good() && s.mem.blocks[ring[i]].IsEmpty() {
      assert |s.mem.blocks[i].data| == blockSize;
    }
    assert ring[..1] == [0];
    FlatOne(s.mem.blocks, 0);
    ContentsLength(s.mem.blocks[ring[0]]);
  }

  lemma NextKeeps<T(!new)>(s: State<T>, s': State<T>, ring: seq<nat>, t: nat) returns (ring': seq<nat>, t': nat)
    requires Inv(s, ring, t) && Next(s, s')
    ensures Inv(s', ring', t')
  {
    if ConsumerMoves(s, s') {
      SpscConsumer.ConsumerKeeps(s, ring, t);
      ring', t' := ConsumerRing(s, ring), ConsumerPos(s, t);
    } else {
      var c :| s' == ProducerStep(s, c);
      SpscProducer.ProducerKeeps(s, c, ring, t);
      ring', t' := ProducerRing(s, ring, t), ProducerPos(s, t);
    }
  }

  lemma {:induction false} RunInvariant<T(!new)>(run: seq<State<T>>, blockSize: nat, count: nat, i: nat)
    returns (ring: seq<nat>, t: nat)
    requires IsRun(run, blockSize, count) && 2 <= blockSize && i < |run|
    ensures Inv(run[i], ring, t)
    decreases i
  {
    if i == 0 {
      ring := InitHolds(run[0], blockSize, count);
      t := 0;
    } else {
      assert StepAt(run, i);
      ring, t := RunInvariant(run, blockSize, count, i - 1);
      ring, t := NextKeeps(run[i - 1], run[i], ring, t);
    }
  }

  // ---------------------------------------------------------------------------------------------
  // First in, first out
  // ---------------------------------------------------------------------------------------------

  lemma RingAt<T>(m: Memory<T>, ring: seq<nat>, t: nat, i: nat)
    requires IsRing(m, ring, t) && i < t
    ensures ring[i] < |m.blocks| && ring[i] != m.tailBlock && m.blocks[ring[i]].next == ring[i + 1]
  {
    assert m.blocks[ring[i]].next == Succ(ring, i);
  }

  lemma WalkOn<T>(m: Memory<T>, at: nat, fuel: nat)
    requires at < |m.blocks| && at != m.tailBlock && 0 < fuel
    ensures Walk(m, at, fuel) == m.blocks[at].Contents() + Walk(m, m.blocks[at].next, fuel - 1)
  {
  }

  lemma FlatOn<T>(m: Memory<T>, ring: seq<nat>, t: nat, i: nat)
    requires IsRing(m, ring, t) && i < t
    ensures Flat(m.blocks, ring[i..t + 1]) == m.blocks[ring[i]].Contents() + Flat(m.blocks, ring[i + 1..t + 1])
  {
    assert ring[i..t + 1][1..] == ring[i + 1..t + 1];
  }

  lemma {:induction false} WalkIsFlat<T>(m: Memory<T>, ring: seq<nat>, t: nat, i: nat, fuel: nat)
    requires IsRing(m, ring, t) && i <= t && t - i <= fuel
    ensures Walk(m, ring[i], fuel) == Flat(m.blocks, ring[i..t + 1])
    decreases t - i
  {
    if i == t {
      assert ring[i..t + 1] == [ring[t]];
      FlatOne(m.blocks, ring[t]);
    } else {
      RingAt(m, ring, t, i);
      WalkOn(m, ring[i], fuel);
      FlatOn(m, ring, t, i);
      WalkIsFlat(m, ring, t, i + 1, fuel - 1);
    }
  }

  lemma QueuedIsFlat<T>(s: State<T>, ring: seq<nat>, t: nat)
    requires Inv(s, ring, t)
    ensures s.received + Queued(s.mem) == s.sent
  {
    WalkIsFlat(s.mem, ring, t, 0, |s.mem.blocks|);
    assert ring[0..t + 1] == ring[..t + 1];
  }

  /** In every interleaving: what has been dequeued, followed by what a walk over the blocks finds,
      is what has been enqueued.  Nothing is lost, duplicated or reordered. */
  lemma FifoOrder<T(!new)>(run: seq<State<T>>, blockSize: nat, count: nat, i: nat)
    requires IsRun(run, blockSize, count) && 2 <= blockSize && i < |run|
    ensures run[i].received + Queued(run[i].mem) == run[i].sent
    ensures run[i].received <= run[i].sent
  {
    var ring, t := RunInvariant(run, blockSize, count, i);
    QueuedIsFlat(run[i], ring, t);
  }

  /** One step of an atomic first-in-first-out queue with logs of its two ends, or no step. */
  ghost predicate FifoStep<T(!new)>(q: seq<T>, q': seq<T>, s: State<T>, s': State<T>) {
    || (q' == q && s'.sent == s.sent && s'.received == s.received)
    || (exists x :: q' == q + [x] && s'.sent == s.sent + [x] && s'.received == s.received)
    || (q != [] && q' == q[1..] && s'.sent == s.sent && s'.received == s.received + [q[0]])
  }

  /** Refinement: every atomic access of either thread is a push, a pop or nothing on the abstract
      queue. */
  lemma RefinesFifo<T(!new)>(run: seq<State<T>>, blockSize: nat, count: nat, i: nat)
    requires IsRun(run, blockSize, count) && 2 <= blockSize && 0 < i < |run|
    ensures FifoStep(Queued(run[i - 1].mem), Queued(run[i].mem), run[i - 1], run[i])
  {
    var s, s' := run[i - 1], run[i];
    assert StepAt(run, i);
    FifoOrder(run, blockSize, count, i - 1);
    FifoOrder(run, blockSize, count, i);
    StepOfLogs(s, s', Queued(s.mem), Queued(s'.mem));
  }

  /** Every step leaves the logs alone or appends one element to one of them. */
  lemma LogsStep<T(!new)>(s: State<T>, s': State<T>)
    requires Next(s, s')
    ensures || (s'.sent == s.sent && s'.received == s.received)
            || (s'.received == s.received && exists x :: s'.sent == s.sent + [x])
            || (s'.sent == s.sent && exists v :: s'.received == s.received + [v])
  {
  }

  lemma StepOfLogs<T(!new)>(s: State<T>, s': State<T>, q: seq<T>, q': seq<T>)
    requires Next(s, s') && s.received + q == s.sent && s'.received + q' == s'.sent
    ensures FifoStep(q, q', s, s')
  {
    LogsStep(s, s');
    var n := |s.received|;
    assert q == s.sent[n..];
    if s'.sent == s.sent && s'.received == s.received {
      assert q' == s'.sent[n..];
    } else if s'.received == s.received {
      var x :| s'.sent == s.sent + [x];
      assert q' == s'.sent[n..] == q + [x];
    } else {
      var v :| s'.received == s.received + [v];
      assert q' == s'.sent[n + 1..];
      assert s.sent[n] == s'.received[n] == v;
    }
  }

  // ---------------------------------------------------------------------------------------------
  // The internal assertions and the block discipline
  // ---------------------------------------------------------------------------------------------

  lemma ProducerIsSafe<T>(s: State<T>, ring: seq<nat>, t: nat)
    requires Inv(s, ring, t)
    ensures ProducerSafe(s)
  {
    assert s.mem.blocks[ring[t]].Good();
    assert t + 1 < |ring| ==> s.mem.blocks[ring[t + 1]].Good();
  }

  /** Both threads can always take their next step: every pointer is valid and both internal
      assertions of the source hold. */
  lemma AlwaysSafe<T(!new)>(run: seq<State<T>>, blockSize: nat, count: nat, i: nat)
    requires IsRun(run, blockSize, count) && 2 <= blockSize && i < |run|
    ensures ConsumerSafe(run[i]) && ProducerSafe(run[i])
  {
    var ring, t := RunInvariant(run, blockSize, count, i);
    SpscConsumer.ConsumerKeeps(run[i], ring, t);
    ProducerIsSafe(run[i], ring, t);
  }

  /** Walking from block `at`, every block met before the tail block is full. */
  ghost predicate FullUpToTail<T>(m: Memory<T>, at: nat, fuel: nat)
    decreases fuel
  {
    at == m.tailBlock
    || (at < |m.blocks| && 0 < fuel && m.blocks[at].IsFull() && FullUpToTail(m, m.blocks[at].next, fuel - 1))
  }

  lemma {:induction false} BetweenIsFull<T>(m: Memory<T>, ring: seq<nat>, t: nat, i: nat, fuel: nat)
    requires IsRing(m, ring, t) && 0 < i <= t && t - i <= fuel
    requires forall j :: 0 < j < t ==> m.blocks[ring[j]].IsFull()
    ensures FullUpToTail(m, ring[i], fuel)
    decreases t - i
  {
    if i < t {
      assert m.blocks[ring[i]].next == Succ(ring, i);
      BetweenIsFull(m, ring, t, i + 1, fuel - 1);
    }
  }

  /** The block discipline: the consumer leaves a block only when it is drained and enters only a
      non-empty one, the producer enters only an empty block that is not the front block, and all
      blocks strictly between the front and the tail block are full. */
  lemma BlockDiscipline<T(!new)>(run: seq<State<T>>, blockSize: nat, count: nat, i: nat)
    requires IsRun(run, blockSize, count) && 2 <= blockSize && i < |run|
    ensures var s := run[i];
            var m := s.mem;
            && m.frontBlock < |m.blocks|
            && (s.cons.CStoreFrontBlock? ==>
                  m.blocks[m.frontBlock].IsEmpty() && s.cons.nb == m.blocks[m.frontBlock].next
                  && s.cons.nb < |m.blocks| && !m.blocks[s.cons.nb].IsEmpty())
            && (s.prod.PWriteNext? ==>
                  s.prod.nx < |m.blocks| && m.blocks[s.prod.nx].IsEmpty() && s.prod.nx != m.frontBlock)
            && (m.frontBlock != m.tailBlock ==> FullUpToTail(m, m.blocks[m.frontBlock].next, |m.blocks|))
  {
    var s := run[i];
    var ring, t := RunInvariant(run, blockSize, count, i);
    assert s.mem.blocks[ring[0]].next == Succ(ring, 0);
    if 0 < t {
      SpscConsumer.NextIsNotEmpty(s, ring, t);
      BetweenIsFull(s.mem, ring, t, 1, |s.mem.blocks|);
    }
  }

  /** `try_dequeue` gives up only if everything enqueued before the call began is already dequeued. */
  lemma EmptyWhenRefused<T(!new)>(run: seq<State<T>>, blockSize: nat, count: nat, i: nat)
    requires IsRun(run, blockSize, count) && 2 <= blockSize && 0 < i < |run|
    requires run[i - 1].cons.CLoadTailBlock? && run[i].cons.CIdle?
    ensures run[i - 1].cons.begun <= |run[i - 1].received|
  {
    assert StepAt(run, i);
    var ring, t := RunInvariant(run, blockSize, count, i - 1);
    RefusalMeansEmpty(run[i - 1], ring, t);
  }

  lemma RefusalMeansEmpty<T>(s: State<T>, ring: seq<nat>, t: nat)
    requires Inv(s, ring, t) && s.cons.CLoadTailBlock? && ConsumerStep(s).cons.CIdle?
    ensures s.cons.begun <= |s.received|
  {
    assert ring[t] == ring[0];
    assert t == 0;
  }
}
