/** How calls on the queue end, and that they end: both threads are wait-free. */
module SpscProgress {
  import opened Spsc
  import opened SpscInvariant
  import opened SpscTheorems

  // ---------------------------------------------------------------------------------------------
  // How an enqueue ends
  // ---------------------------------------------------------------------------------------------

  /** The call saw the circle full and may not allocate. */
  predicate RefusedFull<T>(s: State<T>) {
    s.prod.PLoadFrontBlock? && !s.prod.alloc && s.prod.nx == s.mem.frontBlock
  }

  /** The step that ends a call: it has enqueued the element of the call, or the call was not allowed to
      allocate, or it asked for storage and got none. */
  lemma EnqueueEnds<T>(s: State<T>, c: Choice<T>)
    requires ProducerSafe(s) && !s.prod.PReady? && ProducerStep(s, c).prod.PReady?
    ensures var s' := ProducerStep(s, c);
            if RefusedFull(s) || s.prod.PAllocate? then s'.sent == s.sent else s'.sent == s.sent + [s.prod.x]
    ensures s.prod.PLoadFrontBlock? ==> RefusedFull(s)
  {
  }

  /** Storage of the asked size, twice the largest block up to 512 slots, is what decides. */
  lemma AllocationSucceedsIff<T>(s: State<T>, c: Choice<T>)
    requires s.prod.PAllocate? && 2 <= s.mem.largest
    ensures var s', size := ProducerStep(s, c), if 512 <= s.mem.largest then s.mem.largest else 2 * s.mem.largest;
            if |c.memory| == size
            then s'.prod == PLoadLink(s.prod.x, s.prod.tb, c.memory) && s'.mem.largest == size
            else s'.prod.PReady? && s'.mem == s.mem
  {
  }

  /** A step inside a call keeps its element and its mode, and only a call that may allocate asks for
      storage. */
  lemma CallKeepsArguments<T>(s: State<T>, c: Choice<T>)
    requires ProducerSafe(s)
    ensures var p, p' := s.prod, ProducerStep(s, c).prod;
            && (p.PReady? ==> p' == PLoadTailBlock(c.x, c.alloc))
            && (!p.PReady? && !p'.PReady? ==> p'.x == p.x)
            && (HasMode(p) && HasMode(p') ==> p'.alloc == p.alloc)
            && (!p.PReady? && HasMode(p') ==> HasMode(p))
            && (p'.PAllocate? ==> p.PLoadFrontBlock? && p.alloc && p.nx == s.mem.frontBlock)
  {
  }

  predicate HasMode<T>(p: Producer<T>) {
    p.PLoadTailBlock? || p.PLoadTail? || p.PLoadFront? || p.PLoadNext? || p.PLoadFrontBlock?
  }

  // ---------------------------------------------------------------------------------------------
  // Steps that are left
  // ---------------------------------------------------------------------------------------------

  function ProducerRank<T>(p: Producer<T>): nat {
    match p
    case PReady => 0
    case PLoadTailBlock(_, _) => 12
    case PLoadTail(_, _, _) => 11
    case PLoadFront(_, _, _, _) => 10
    case PWriteElement(_, _, _) => 2
    case PStoreTail(_, _, _) => 1
    case PLoadNext(_, _, _, _) => 9
    case PLoadFrontBlock(_, _, _, _, _) => 8
    case PReloadNext(_, _) => 7
    case PLoadNextFront(_, _) => 6
    case PLoadNextTail(_, _, _) => 5
    case PWriteNext(_, _, _, _) => 4
    case PStoreNextTail(_, _, _) => 3
    case PAllocate(_, _) => 7
    case PLoadLink(_, _, _) => 6
    case PStoreLink(_, _, _) => 5
    case PStoreTailBlock(_, _) => 1
  }

  function ConsumerRank<T>(c: Consumer<T>): nat {
    match c
    case CIdle => 0
    case CLoadFrontBlock(_) => 13
    case CLoadFront(_, _) => 12
    case CLoadTail(_, _, _) => 11
    case CLoadTailBlock(_, _, _) => 10
    case CReloadFrontBlock => 9
    case CReloadTail(_) => 8
    case CReloadFront(_, _) => 7
    case CLoadNext(_) => 6
    case CLoadNextFront(_) => 5
    case CLoadNextTail(_, _) => 4
    case CStoreFrontBlock(_, _, _) => 3
    case CReadElement(_, _) => 2
    case CStoreFront(_, _, _) => 1
  }

  lemma ProducerAdvances<T>(s: State<T>, c: Choice<T>)
    requires ProducerSafe(s) && !s.prod.PReady?
    ensures ProducerRank(ProducerStep(s, c).prod) < ProducerRank(s.prod)
    ensures ProducerStep(s, c).cons == s.cons
  {
  }

  lemma ConsumerAdvances<T>(s: State<T>)
    requires ConsumerSafe(s) && !s.cons.CIdle?
    ensures ConsumerRank(ConsumerStep(s).cons) < ConsumerRank(s.cons)
    ensures ConsumerStep(s).prod == s.prod
  {
  }

  /** The stale copies save accesses: a thread whose own copy shows an element, or a free slot, is two
      accesses from its end, and does not look at what the other thread writes. */
  lemma CopiesSave<T>(s: State<T>, c: Choice<T>)
    ensures s.cons.CLoadFront? && ConsumerSafe(s)
            && s.mem.blocks[s.cons.fb].front != s.mem.blocks[s.cons.fb].localTail ==>
              ConsumerRank(ConsumerStep(s).cons) == 2 && ConsumerStep(s).mem == s.mem
    ensures s.prod.PLoadTail? && ProducerSafe(s) && s.mem.blocks[s.prod.tb].HasRoom() ==>
              ProducerRank(ProducerStep(s, c).prod) == 2 && ProducerStep(s, c).mem == s.mem
  {
  }

  // ---------------------------------------------------------------------------------------------
  // Over every run
  // ---------------------------------------------------------------------------------------------

  /** Wait-freedom: in every run each step inside a call brings that call nearer to its end, and leaves
      the other thread's call where it is.  An enqueue takes at most 13 accesses and a dequeue 14,
      whatever the other thread does. */
  lemma WaitFree<T(!new)>(run: seq<State<T>>, blockSize: nat, count: nat, i: nat)
    requires IsRun(run, blockSize, count) && 2 <= blockSize && 0 < i < |run|
    ensures var s, s' := run[i - 1], run[i];
            || (s'.cons == s.cons && (s.prod.PReady? || ProducerRank(s'.prod) < ProducerRank(s.prod)))
            || (s'.prod == s.prod && (s.cons.CIdle? || ConsumerRank(s'.cons) < ConsumerRank(s.cons)))
    ensures ProducerRank(run[i].prod) <= 12 && ConsumerRank(run[i].cons) <= 13
    ensures ConsumerSafe(run[i]) && ProducerSafe(run[i])
  {
    var s, s' := run[i - 1], run[i];
    assert StepAt(run, i);
    AlwaysSafe(run, blockSize, count, i);
    if ConsumerMoves(s, s') {
      if !s.cons.CIdle? { ConsumerAdvances(s); }
    } else {
      var c :| s' == ProducerStep(s, c);
      if !s.prod.PReady? { ProducerAdvances(s, c); }
    }
  }

  /** How every enqueue of every run ends: with its element appended, unless it was not allowed to allocate
      and saw the circle full, or storage was refused; then nothing is appended. */
  lemma EnqueueOutcome<T(!new)>(run: seq<State<T>>, blockSize: nat, count: nat, i: nat)
    requires IsRun(run, blockSize, count) && 2 <= blockSize && 0 < i < |run|
    requires !run[i - 1].prod.PReady? && run[i].prod.PReady?
    ensures var s, s' := run[i - 1], run[i];
            if RefusedFull(s) || s.prod.PAllocate? then s'.sent == s.sent else s'.sent == s.sent + [s.prod.x]
    ensures run[i - 1].prod.PLoadFrontBlock? ==> RefusedFull(run[i - 1])
    ensures run[i - 1].prod.PAllocate? ==>
              exists c ::
                && ProducerSafe(run[i - 1]) && run[i] == ProducerStep(run[i - 1], c)
                && var largest := run[i - 1].mem.largest;
                   |c.memory| != if 512 <= largest then largest else 2 * largest
  {
    var s, s' := run[i - 1], run[i];
    assert StepAt(run, i);
    var c :| ProducerSafe(s) && s' == ProducerStep(s, c);
    EnqueueEnds(s, c);
    if s.prod.PAllocate? {
      var ring, t := RunInvariant(run, blockSize, count, i - 1);
      AllocationSucceedsIff(s, c);
    }
  }

  /** How every dequeue of every run ends: with the oldest element that is left, unless everything that had
      been enqueued when it began is dequeued. */
  lemma DequeueOutcome<T(!new)>(run: seq<State<T>>, blockSize: nat, count: nat, i: nat)
    requires IsRun(run, blockSize, count) && 2 <= blockSize && 0 < i < |run|
    requires !run[i - 1].cons.CIdle? && run[i].cons.CIdle?
    ensures var s, s' := run[i - 1], run[i];
            if s.cons.CLoadTailBlock?
            then s'.received == s.received && s.cons.begun <= |s.received|
            else |s.received| < |s'.sent| && s'.received == s.received + [s'.sent[|s.received|]]
  {
    var s, s' := run[i - 1], run[i];
    assert StepAt(run, i);
    assert ConsumerMoves(s, s');
    if s.cons.CLoadTailBlock? {
      EmptyWhenRefused(run, blockSize, count, i);
    } else {
      FifoOrder(run, blockSize, count, i);
      assert s'.received[|s.received|] == s'.sent[|s.received|];
    }
  }

  // ---------------------------------------------------------------------------------------------
  // A whole enqueue
  // ---------------------------------------------------------------------------------------------

  predicate Allocating<T>(p: Producer<T>) { p.PAllocate? || p.PLoadLink? || p.PStoreLink? }

  /** Inside a call that enqueues `x`. */
  predicate Within<T(==)>(p: Producer<T>, x: T, alloc: bool) {
    !p.PReady? && p.x == x && (HasMode(p) ==> p.alloc == alloc) && (Allocating(p) ==> alloc)
  }

  lemma WithinStep<T>(s: State<T>, c: Choice<T>, x: T, alloc: bool)
    requires ProducerSafe(s) && Within(s.prod, x, alloc)
    ensures var s' := ProducerStep(s, c);
            && (!s'.prod.PReady? ==> Within(s'.prod, x, alloc) && s'.sent == s.sent)
            && (!alloc ==> |s'.mem.blocks| == |s.mem.blocks|)
  {
  }

  lemma ConsumerLeavesCall<T>(s: State<T>)
    requires ConsumerSafe(s)
    ensures var s' := ConsumerStep(s);
            s'.prod == s.prod && s'.sent == s.sent && |s'.mem.blocks| == |s.mem.blocks|
  {
  }

  ghost predicate InCall<T>(run: seq<State<T>>, a: nat, b: nat)
    requires a <= b <= |run|
  {
    forall k :: a <= k < b ==> !run[k].prod.PReady?
  }

  lemma {:induction false} CallGoesOn<T(!new)>(
      run: seq<State<T>>, blockSize: nat, count: nat, a: nat, b: nat, x: T, alloc: bool)
    requires IsRun(run, blockSize, count) && a <= b < |run| && InCall(run, a, b + 1)
    requires run[a].prod == PLoadTailBlock(x, alloc)
    ensures Within(run[b].prod, x, alloc) && run[b].sent == run[a].sent
    ensures !alloc ==> |run[b].mem.blocks| == |run[a].mem.blocks|
    decreases b
  {
    if a < b {
      CallGoesOn(run, blockSize, count, a, b - 1, x, alloc);
      assert StepAt(run, b);
      if ConsumerMoves(run[b - 1], run[b]) {
        ConsumerLeavesCall(run[b - 1]);
      } else {
        var c :| run[b] == ProducerStep(run[b - 1], c);
        WithinStep(run[b - 1], c, x, alloc);
      }
    }
  }

  /** A whole call, from its first access to its last, among any steps of the consumer.  It appends its own
      element exactly once, unless it may not allocate and saw the circle full, or may allocate and was
      refused storage; one that may not allocate leaves the number of blocks as it was. */
  lemma EnqueueCall<T(!new)>(run: seq<State<T>>, blockSize: nat, count: nat, a: nat, b: nat, x: T, alloc: bool)
    requires IsRun(run, blockSize, count) && 2 <= blockSize && a < b < |run| && InCall(run, a, b)
    requires run[a].prod == PLoadTailBlock(x, alloc) && run[b].prod.PReady?
    ensures run[b].sent == if RefusedFull(run[b - 1]) || run[b - 1].prod.PAllocate? then run[a].sent
                           else run[a].sent + [x]
    ensures (RefusedFull(run[b - 1]) ==> !alloc) && (run[b - 1].prod.PAllocate? ==> alloc)
    ensures !alloc ==> |run[b].mem.blocks| == |run[a].mem.blocks|
  {
    CallGoesOn(run, blockSize, count, a, b - 1, x, alloc);
    EnqueueOutcome(run, blockSize, count, b);
    assert StepAt(run, b);
    if ConsumerMoves(run[b - 1], run[b]) {
      ConsumerLeavesCall(run[b - 1]);
    } else {
      var c :| run[b] == ProducerStep(run[b - 1], c);
      WithinStep(run[b - 1], c, x, alloc);
    }
  }

  // ---------------------------------------------------------------------------------------------
  // A whole dequeue
  // ---------------------------------------------------------------------------------------------

  predicate Remembers<T>(c: Consumer<T>) {
    c.CLoadFrontBlock? || c.CLoadFront? || c.CLoadTail? || c.CLoadTailBlock?
  }

  lemma ConsumerGoesOn<T>(s: State<T>)
    requires ConsumerSafe(s)
    ensures var s' := ConsumerStep(s);
            && (s.cons.CIdle? ==> s'.cons == CLoadFrontBlock(|s.sent|))
            && (!s'.cons.CIdle? ==> s'.received == s.received)
            && (!s.cons.CIdle? && Remembers(s'.cons) ==> Remembers(s.cons) && s'.cons.begun == s.cons.begun)
  {
  }

  lemma ProducerLeavesCall<T>(s: State<T>, c: Choice<T>)
    requires ProducerSafe(s)
    ensures ProducerStep(s, c).cons == s.cons && ProducerStep(s, c).received == s.received
  {
  }

  ghost predicate InDequeue<T>(run: seq<State<T>>, a: nat, b: nat)
    requires a <= b <= |run|
  {
    forall k :: a <= k < b ==> !run[k].cons.CIdle?
  }

  lemma {:induction false} DequeueGoesOn<T(!new)>(run: seq<State<T>>, blockSize: nat, count: nat, a: nat, b: nat)
    requires IsRun(run, blockSize, count) && 0 < a <= b < |run| && InDequeue(run, a, b + 1) && run[a - 1].cons.CIdle?
    ensures run[b].received == run[a - 1].received
    ensures Remembers(run[b].cons) ==> run[b].cons.begun == |run[a - 1].sent|
    decreases b
  {
    if a < b { DequeueGoesOn(run, blockSize, count, a, b - 1); }
    assert StepAt(run, b);
    if ConsumerMoves(run[b - 1], run[b]) {
      ConsumerGoesOn(run[b - 1]);
    } else {
      var c :| run[b] == ProducerStep(run[b - 1], c);
      ProducerLeavesCall(run[b - 1], c);
    }
  }

  /** A whole call, among any steps of the producer.  It takes the oldest element that is left, once; or it
      takes nothing, and then everything that had been enqueued before the call is dequeued. */
  lemma DequeueCall<T(!new)>(run: seq<State<T>>, blockSize: nat, count: nat, a: nat, b: nat)
    requires IsRun(run, blockSize, count) && 2 <= blockSize && 0 < a < b < |run| && InDequeue(run, a, b)
    requires run[a - 1].cons.CIdle? && run[b].cons.CIdle?
    ensures var before, after := run[a - 1], run[b];
            || (after.received == before.received && |before.sent| <= |before.received|)
            || (|before.received| < |after.sent|
                && after.received == before.received + [after.sent[|before.received|]])
  {
    DequeueGoesOn(run, blockSize, count, a, b - 1);
    DequeueOutcome(run, blockSize, count, b);
  }
}
