/** `ReaderWriterQueue` as a transition system of two threads.  Every load or store of a variable
    that the other thread may touch is one step; a thread's program counter holds the local
    variables that are live there.  Memory is sequentially consistent, so fences do nothing. */
module Spsc {
  import opened Blocks

  /** The queue object: the blocks by address, the two block pointers and `largestBlockSize`. */
  datatype Memory<T> = Memory(blocks: seq<Block<T>>, frontBlock: nat, tailBlock: nat, largest: nat)

  /** Where the consumer stands in `try_dequeue`: each constructor names the access it does next.
      `begun` is the number of elements that had been enqueued when the call began. */
  datatype Consumer<T> =
    | CIdle
    | CLoadFrontBlock(begun: nat)
    | CLoadFront(begun: nat, fb: nat)
    | CLoadTail(begun: nat, fb: nat, bf: nat)
    | CLoadTailBlock(begun: nat, fb: nat, bf: nat)
    | CReloadFrontBlock
    | CReloadTail(fb: nat)
    | CReloadFront(fb: nat, bt: nat)
    | CLoadNext(fb: nat)
    | CLoadNextFront(nb: nat)
    | CLoadNextTail(nb: nat, nf: nat)
    | CStoreFrontBlock(nb: nat, nf: nat, nt: nat)
    | CReadElement(fb: nat, bf: nat)
    | CStoreFront(fb: nat, bf: nat, v: T)

  /** Where the producer stands in `inner_enqueue`.  `held` is the number of elements in the queue
      at the moment the tail block was seen to be full. */
  datatype Producer<T> =
    | PReady
    | PLoadTailBlock(x: T, alloc: bool)
    | PLoadTail(x: T, alloc: bool, tb: nat)
    | PLoadFront(x: T, alloc: bool, tb: nat, bt: nat)
    | PWriteElement(x: T, tb: nat, bt: nat)
    | PStoreTail(x: T, tb: nat, bt: nat)
    | PLoadNext(x: T, alloc: bool, tb: nat, held: nat)
    | PLoadFrontBlock(x: T, alloc: bool, tb: nat, nx: nat, held: nat)
    | PReloadNext(x: T, tb: nat)
    | PLoadNextFront(x: T, nx: nat)
    | PLoadNextTail(x: T, nx: nat, nf: nat)
    | PWriteNext(x: T, nx: nat, nf: nat, nt: nat)
    | PStoreNextTail(x: T, nx: nat, nt: nat)
    | PAllocate(x: T, tb: nat)
    | PLoadLink(x: T, tb: nat, memory: seq<T>)
    | PStoreLink(x: T, tb: nat, node: Block<T>)
    | PStoreTailBlock(x: T, nx: nat)

  /** The system: the queue object, both threads, and what has been enqueued and dequeued so far. */
  datatype State<T> = State(mem: Memory<T>, prod: Producer<T>, cons: Consumer<T>, sent: seq<T>, received: seq<T>)

  /** What a producer step may choose: the element and the allocation mode of a new call, and the
      storage that `malloc` hands out (storage of another size than asked for means it failed). */
  datatype Choice<T> = Choice(x: T, alloc: bool, memory: seq<T>)

  // ---------------------------------------------------------------------------------------------
  // The consumer
  // ---------------------------------------------------------------------------------------------

  /** The next consumer step touches only existing blocks and slots, and its assertion holds. */
  predicate ConsumerSafe<T>(s: State<T>) {
    var blocks := s.mem.blocks;
    match s.cons
    case CIdle => true
    case CLoadFrontBlock(_) => true
    case CLoadFront(_, fb) => fb < |blocks|
    case CLoadTail(_, fb, _) => fb < |blocks|
    case CLoadTailBlock(_, _, _) => true
    case CReloadFrontBlock => true
    case CReloadTail(fb) => fb < |blocks|
    case CReloadFront(fb, _) => fb < |blocks|
    case CLoadNext(fb) => fb < |blocks|
    case CLoadNextFront(nb) => nb < |blocks|
    case CLoadNextTail(nb, _) => nb < |blocks|
    case CStoreFrontBlock(nb, nf, nt) => nf != nt
    case CReadElement(fb, bf) => fb < |blocks| && bf < |blocks[fb].data|
    case CStoreFront(fb, _, _) => fb < |blocks|
  }

  function WithBlock<T>(m: Memory<T>, id: nat, b: Block<T>): Memory<T>
    requires id < |m.blocks|
  {
    m.(blocks := m.blocks[id := b])
  }

  function ConsumerStep<T>(s: State<T>): State<T>
    requires ConsumerSafe(s)
  {
    var m := s.mem;
    match s.cons
    case CIdle => s.(cons := CLoadFrontBlock(|s.sent|))
    case CLoadFrontBlock(begun) => s.(cons := CLoadFront(begun, m.frontBlock))
    case CLoadFront(begun, fb) =>
      var b := m.blocks[fb];
      s.(cons := if b.front != b.localTail then CReadElement(fb, b.front) else CLoadTail(begun, fb, b.front))
    case CLoadTail(begun, fb, bf) =>
      var b := m.blocks[fb];
      s.(mem := WithBlock(m, fb, b.(localTail := b.tail)),
         cons := if bf != b.tail then CReadElement(fb, bf) else CLoadTailBlock(begun, fb, bf))
    case CLoadTailBlock(_, fb, _) =>
      s.(cons := if fb != m.tailBlock then CReloadFrontBlock else CIdle)
    case CReloadFrontBlock => s.(cons := CReloadTail(m.frontBlock))
    case CReloadTail(fb) =>
      var b := m.blocks[fb];
      s.(mem := WithBlock(m, fb, b.(localTail := b.tail)), cons := CReloadFront(fb, b.tail))
    case CReloadFront(fb, bt) =>
      var b := m.blocks[fb];
      s.(cons := if b.front != bt then CReadElement(fb, b.front) else CLoadNext(fb))
    case CLoadNext(fb) => s.(cons := CLoadNextFront(m.blocks[fb].next))
    case CLoadNextFront(nb) => s.(cons := CLoadNextTail(nb, m.blocks[nb].front))
    case CLoadNextTail(nb, nf) =>
      var b := m.blocks[nb];
      s.(mem := WithBlock(m, nb, b.(localTail := b.tail)), cons := CStoreFrontBlock(nb, nf, b.tail))
    case CStoreFrontBlock(nb, nf, _) =>
      s.(mem := m.(frontBlock := nb), cons := CReadElement(nb, nf))
    case CReadElement(fb, bf) => s.(cons := CStoreFront(fb, bf, m.blocks[fb].data[bf]))
    case CStoreFront(fb, bf, v) =>
      var b := m.blocks[fb];
      s.(mem := WithBlock(m, fb, b.(front := NextSlot(bf, |b.data|))), cons := CIdle, received := s.received + [v])
  }

  // ---------------------------------------------------------------------------------------------
  // The producer
  // ---------------------------------------------------------------------------------------------

  /** The next producer step touches only existing blocks and slots, and its assertion holds. */
  predicate ProducerSafe<T>(s: State<T>) {
    var blocks := s.mem.blocks;
    match s.prod
    case PReady => true
    case PLoadTailBlock(_, _) => true
    case PLoadTail(_, _, tb) => tb < |blocks|
    case PLoadFront(_, _, tb, _) => tb < |blocks|
    case PWriteElement(_, tb, bt) => tb < |blocks| && bt < |blocks[tb].data|
    case PStoreTail(_, tb, _) => tb < |blocks|
    case PLoadNext(_, _, tb, _) => tb < |blocks|
    case PLoadFrontBlock(_, _, _, _, _) => true
    case PReloadNext(_, tb) => tb < |blocks|
    case PLoadNextFront(_, nx) => nx < |blocks|
    case PLoadNextTail(_, nx, _) => nx < |blocks|
    case PWriteNext(_, nx, nf, nt) => nx < |blocks| && nt < |blocks[nx].data| && nf == nt
    case PStoreNextTail(_, nx, _) => nx < |blocks|
    case PAllocate(_, _) => true
    case PLoadLink(_, tb, memory) => tb < |blocks| && 0 < |memory|
    case PStoreLink(_, tb, _) => tb < |blocks|
    case PStoreTailBlock(_, _) => true
  }

  const MAX_BLOCK_SIZE: nat := 512

  function NewBlockSize(largest: nat): nat {
    if largest >= MAX_BLOCK_SIZE then largest else largest * 2
  }

  /** Elements in the queue as the two logs see it. */
  function Held<T>(s: State<T>): nat {
    if |s.received| <= |s.sent| then |s.sent| - |s.received| else 0
  }

  function ProducerStep<T>(s: State<T>, c: Choice<T>): State<T>
    requires ProducerSafe(s)
  {
    var m := s.mem;
    match s.prod
    case PReady => s.(prod := PLoadTailBlock(c.x, c.alloc))
    case PLoadTailBlock(x, alloc) => s.(prod := PLoadTail(x, alloc, m.tailBlock))
    case PLoadTail(x, alloc, tb) =>
      var b := m.blocks[tb];
      s.(prod := if b.HasRoom() then PWriteElement(x, tb, b.tail) else PLoadFront(x, alloc, tb, b.tail))
    case PLoadFront(x, alloc, tb, bt) =>
      var b := m.blocks[tb];
      s.(mem := WithBlock(m, tb, b.(localFront := b.front)),
         prod := if NextSlot(bt, |b.data|) != b.front then PWriteElement(x, tb, bt)
                 else PLoadNext(x, alloc, tb, Held(s)))
    case PWriteElement(x, tb, bt) =>
      var b := m.blocks[tb];
      s.(mem := WithBlock(m, tb, b.(data := b.data[bt := x])), prod := PStoreTail(x, tb, bt))
    case PStoreTail(x, tb, bt) =>
      var b := m.blocks[tb];
      s.(mem := WithBlock(m, tb, b.(tail := NextSlot(bt, |b.data|))), prod := PReady, sent := s.sent + [x])
    case PLoadNext(x, alloc, tb, held) =>
      s.(prod := PLoadFrontBlock(x, alloc, tb, m.blocks[tb].next, held))
    case PLoadFrontBlock(x, alloc, tb, nx, _) =>
      s.(prod := if nx != m.frontBlock then PReloadNext(x, tb)
                 else if alloc then PAllocate(x, tb)
                 else PReady)
    case PReloadNext(x, tb) => s.(prod := PLoadNextFront(x, m.blocks[tb].next))
    case PLoadNextFront(x, nx) =>
      var b := m.blocks[nx];
      s.(mem := WithBlock(m, nx, b.(localFront := b.front)), prod := PLoadNextTail(x, nx, b.front))
    case PLoadNextTail(x, nx, nf) =>
      s.(prod := PWriteNext(x, nx, nf, m.blocks[nx].tail))
    case PWriteNext(x, nx, nf, nt) =>
      var b := m.blocks[nx];
      s.(mem := WithBlock(m, nx, b.(localFront := nf, data := b.data[nt := x])), prod := PStoreNextTail(x, nx, nt))
    case PStoreNextTail(x, nx, nt) =>
      var b := m.blocks[nx];
      s.(mem := WithBlock(m, nx, b.(tail := NextSlot(nt, |b.data|))), prod := PStoreTailBlock(x, nx))
    case PAllocate(x, tb) =>
      var size := NewBlockSize(m.largest);
      if |c.memory| != size || size == 0 then s.(prod := PReady)
      else s.(mem := m.(largest := size), prod := PLoadLink(x, tb, c.memory))
    case PLoadLink(x, tb, memory) =>
      s.(prod := PStoreLink(x, tb, Block(0, 1, 1, 0, m.blocks[tb].next, memory[0 := x])))
    case PStoreLink(x, tb, node) =>
      var id := |m.blocks|;
      s.(mem := m.(blocks := m.blocks[tb := m.blocks[tb].(next := id)] + [node]), prod := PStoreTailBlock(x, id))
    case PStoreTailBlock(x, nx) =>
      s.(mem := m.(tailBlock := nx), prod := PReady, sent := s.sent + [x])
  }

  // ---------------------------------------------------------------------------------------------
  // Runs
  // ---------------------------------------------------------------------------------------------

  ghost predicate ProducerMoves<T(!new)>(s: State<T>, s': State<T>) {
    ProducerSafe(s) && exists c :: s' == ProducerStep(s, c)
  }

  predicate ConsumerMoves<T(==)>(s: State<T>, s': State<T>) {
    ConsumerSafe(s) && s' == ConsumerStep(s)
  }

  ghost predicate Next<T(!new)>(s: State<T>, s': State<T>) {
    ConsumerMoves(s, s') || ProducerMoves(s, s')
  }

  /** The state the constructor leaves behind: `count` empty blocks of `blockSize` slots, linked in
      a circle, with both pointers on the first. */
  ghost predicate Init<T>(s: State<T>, blockSize: nat, count: nat) {
    && s.prod == PReady && s.cons == CIdle && s.sent == [] && s.received == []
    && |s.mem.blocks| == count && 0 < count
    && s.mem.frontBlock == 0 && s.mem.tailBlock == 0 && s.mem.largest == blockSize
    && forall i :: 0 <= i < count ==>
         var b := s.mem.blocks[i];
         b.front == 0 && b.localTail == 0 && b.tail == 0 && b.localFront == 0
         && b.next == (if i + 1 == count then 0 else i + 1) && |b.data| == blockSize
  }

  ghost predicate StepAt<T(!new)>(run: seq<State<T>>, i: nat)
    requires 0 < i < |run|
  {
    Next(run[i - 1], run[i])
  }

  /** A finite run: any interleaving of any number of calls on both sides. */
  ghost predicate IsRun<T(!new)>(run: seq<State<T>>, blockSize: nat, count: nat) {
    && 0 < |run|
    && Init(run[0], blockSize, count)
    && forall i :: 0 < i < |run| ==> StepAt(run, i)
  }

  /** The elements a reader finds by walking the block list from `frontBlock` to `tailBlock`. */
  function Walk<T>(m: Memory<T>, at: nat, fuel: nat): seq<T>
    decreases fuel
  {
    if at >= |m.blocks| then []
    else if at == m.tailBlock || fuel == 0 then m.blocks[at].Contents()
    else m.blocks[at].Contents() + Walk(m, m.blocks[at].next, fuel - 1)
  }

  function Queued<T>(m: Memory<T>): seq<T> {
    Walk(m, m.frontBlock, |m.blocks|)
  }
}
