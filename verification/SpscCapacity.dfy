/** How much the queue holds before `try_enqueue` gives up, and how the constructor arranges it. */
module SpscCapacity {
  import opened Blocks
  import opened Numbers
  import opened PowerOfTwo
  import opened Spsc
  import opened SpscInvariant
  import opened SpscTheorems

  /** `count` blocks of `blockSize` slots can hold `want` elements at any time: one block loses a
      slot, and with several blocks the one being drained cannot be counted on. */
  predicate Capable(blockSize: nat, count: nat, want: nat) {
    1 <= count && 2 <= blockSize
    && if count == 1 then want <= blockSize - 1 else want <= (count - 1) * (blockSize - 1)
  }

  /** No block is ever smaller than the first ones, none is ever removed, and a producer that has
      found the only block full has seen it hold all it can. */
  predicate Roomy<T>(s: State<T>, blockSize: nat, count: nat) {
    && count <= |s.mem.blocks| && blockSize <= s.mem.largest
    && (forall i :: 0 <= i < |s.mem.blocks| ==> blockSize <= |s.mem.blocks[i].data|)
    && match s.prod
       case PLoadLink(_, _, memory) => blockSize <= |memory|
       case PStoreLink(_, _, node) => blockSize <= |node.data|
       case PLoadNext(_, _, _, held) => |s.mem.blocks| == 1 ==> blockSize - 1 <= held
       case PLoadFrontBlock(_, _, _, _, held) => |s.mem.blocks| == 1 ==> blockSize - 1 <= held
       case _ => true
  }

  lemma HeldIsFlat<T>(s: State<T>, ring: seq<nat>, t: nat)
    requires Inv(s, ring, t)
    ensures Held(s) == |Flat(s.mem.blocks, ring[..t + 1])|
  {
  }

  lemma ConsumerKeepsRoom<T>(s: State<T>, blockSize: nat, count: nat)
    requires Roomy(s, blockSize, count) && ConsumerSafe(s)
    ensures Roomy(ConsumerStep(s), blockSize, count)
  {
    var m, m' := s.mem, ConsumerStep(s).mem;
    assert |m'.blocks| == |m.blocks| && forall i :: 0 <= i < |m.blocks| ==> m'.blocks[i].data == m.blocks[i].data;
  }

  lemma LoadFrontKeepsRoom<T>(s: State<T>, c: Choice<T>, ring: seq<nat>, t: nat, blockSize: nat, count: nat)
    requires Inv(s, ring, t) && Roomy(s, blockSize, count) && s.prod.PLoadFront? && ProducerSafe(s)
    ensures Roomy(ProducerStep(s, c), blockSize, count)
  {
    if |s.mem.blocks| == 1 {
      var b := s.mem.blocks[ring[0]];
      assert ring[..1] == [ring[0]];
      FlatOne(s.mem.blocks, ring[0]);
      ContentsLength(b);
      HeldIsFlat(s, ring, t);
    }
  }

  lemma OtherStepKeepsRoom<T>(s: State<T>, c: Choice<T>, blockSize: nat, count: nat)
    requires Roomy(s, blockSize, count) && ProducerSafe(s) && !s.prod.PLoadFront?
    ensures Roomy(ProducerStep(s, c), blockSize, count)
  {
    var m, m' := s.mem, ProducerStep(s, c).mem;
    assert |m.blocks| <= |m'.blocks|;
    assert forall i :: 0 <= i < |m.blocks| ==> |m'.blocks[i].data| == |m.blocks[i].data|;
  }

  lemma ProducerKeepsRoom<T>(s: State<T>, c: Choice<T>, ring: seq<nat>, t: nat, blockSize: nat, count: nat)
    requires Inv(s, ring, t) && Roomy(s, blockSize, count) && ProducerSafe(s)
    ensures Roomy(ProducerStep(s, c), blockSize, count)
  {
    if s.prod.PLoadFront? {
      LoadFrontKeepsRoom(s, c, ring, t, blockSize, count);
    } else {
      OtherStepKeepsRoom(s, c, blockSize, count);
    }
  }

  lemma {:induction false} RunKeepsRoom<T(!new)>(run: seq<State<T>>, blockSize: nat, count: nat, i: nat)
    requires IsRun(run, blockSize, count) && 2 <= blockSize && i < |run|
    ensures Roomy(run[i], blockSize, count)
    decreases i
  {
    if 0 < i {
      RunKeepsRoom(run, blockSize, count, i - 1);
      var s, s' := run[i - 1], run[i];
      assert StepAt(run, i);
      if ConsumerMoves(s, s') {
        ConsumerKeepsRoom(s, blockSize, count);
      } else {
        var c :| s' == ProducerStep(s, c);
        var ring, t := RunInvariant(run, blockSize, count, i - 1);
        ProducerKeepsRoom(s, c, ring, t, blockSize, count);
      }
    }
  }

  function Repeated(n: nat, k: nat): nat {
    if n == 0 then 0 else k + Repeated(n - 1, k)
  }

  lemma {:induction false} RepeatedMultiplies(n: nat, k: nat)
    ensures Repeated(n, k) == n * k
  {
    if n > 0 {
      RepeatedMultiplies(n - 1, k);
      Distribute(n, 1, k);
    }
  }

  predicate FullBlock<T>(b: Block<T>, blockSize: nat) {
    b.Good() && b.IsFull() && blockSize <= |b.data|
  }

  ghost predicate AllFull<T>(blocks: seq<Block<T>>, ids: seq<nat>, blockSize: nat)
    requires AllBelow(ids, |blocks|)
  {
    forall i :: 0 <= i < |ids| ==> FullBlock(blocks[ids[i]], blockSize)
  }

  lemma AllFullRest<T>(blocks: seq<Block<T>>, ids: seq<nat>, blockSize: nat)
    requires ids != [] && AllBelow(ids, |blocks|) && AllFull(blocks, ids, blockSize)
    ensures FullBlock(blocks[ids[0]], blockSize)
    ensures AllBelow(ids[1..], |blocks|) && AllFull(blocks, ids[1..], blockSize)
    ensures |Flat(blocks, ids)| == |blocks[ids[0]].Contents()| + |Flat(blocks, ids[1..])|
  {
    forall i | 0 <= i < |ids[1..]| ensures ids[1..][i] == ids[i + 1] { }
  }

  /** Full blocks hold all but one of their slots. */
  lemma {:induction false} FullBlocksHold<T>(blocks: seq<Block<T>>, ids: seq<nat>, blockSize: nat)
    requires AllBelow(ids, |blocks|) && 1 <= blockSize && AllFull(blocks, ids, blockSize)
    ensures Repeated(|ids|, blockSize - 1) <= |Flat(blocks, ids)|
    decreases |ids|
  {
    if ids != [] {
      AllFullRest(blocks, ids, blockSize);
      FullBlockHolds(blocks[ids[0]], blockSize);
      FullBlocksHold(blocks, ids[1..], blockSize);
    }
  }

  lemma FullBlockHolds<T>(b: Block<T>, blockSize: nat)
    requires FullBlock(b, blockSize)
    ensures blockSize - 1 <= |b.Contents()|
  {
    ContentsLength(b);
  }

  /** Enough full blocks behind the front block hold what the configuration promises. */
  lemma EnoughBlocks(blockSize: nat, count: nat, want: nat, t: nat, held: nat)
    requires Capable(blockSize, count, want) && 0 < t && count <= t + 1 && Repeated(t, blockSize - 1) <= held
    ensures want <= held
  {
    RepeatedMultiplies(t, blockSize - 1);
    MultiplyMonotone(if count == 1 then 1 else count - 1, t, blockSize - 1);
  }

  lemma RestIsFull<T>(s: State<T>, ring: seq<nat>, t: nat, blockSize: nat, count: nat)
    requires Inv(s, ring, t) && Roomy(s, blockSize, count) && 0 < t && t + 1 == |ring| && TailFull(s.mem, ring, t)
    ensures AllBelow(ring[1..], |s.mem.blocks|) && AllFull(s.mem.blocks, ring[1..], blockSize)
  {
    forall j | 0 <= j < |ring[1..]|
      ensures ring[1..][j] < |s.mem.blocks| && FullBlock(s.mem.blocks[ring[1..][j]], blockSize)
    {
      assert ring[1..][j] == ring[j + 1];
    }
  }

  lemma RestIsHeld<T>(s: State<T>, ring: seq<nat>, t: nat)
    requires Inv(s, ring, t) && t + 1 == |ring| && AllBelow(ring[1..], |s.mem.blocks|)
    ensures |Flat(s.mem.blocks, ring[1..])| <= Held(s)
  {
    assert ring[..t + 1] == ring;
    HeldIsFlat(s, ring, t);
  }

  /** The blocks behind the front block, when all of them are full. */
  lemma FullRestHolds<T>(s: State<T>, ring: seq<nat>, t: nat, blockSize: nat, count: nat)
    requires Inv(s, ring, t) && Roomy(s, blockSize, count) && 1 <= blockSize && 0 < t && t + 1 == |ring|
    requires TailFull(s.mem, ring, t)
    ensures Repeated(t, blockSize - 1) <= Held(s)
  {
    RestIsFull(s, ring, t, blockSize, count);
    RestIsHeld(s, ring, t);
    FullBlocksHold(s.mem.blocks, ring[1..], blockSize);
  }

  /** The producer comes round to the front block only when the tail block is the last of the circle. */
  lemma LastBeforeFront<T>(s: State<T>, ring: seq<nat>, t: nat)
    requires Inv(s, ring, t) && s.prod.PLoadFrontBlock? && s.prod.nx == s.mem.frontBlock
    ensures t + 1 == |ring| == |s.mem.blocks| && TailFull(s.mem, ring, t)
  {
    assert Succ(ring, t) == ring[0];
  }

  /** At the refusing step all blocks but the front one are full. */
  lemma RefusalMeansFull<T>(s: State<T>, ring: seq<nat>, t: nat, blockSize: nat, count: nat, want: nat)
    requires Inv(s, ring, t) && Roomy(s, blockSize, count) && Capable(blockSize, count, want)
    requires s.prod.PLoadFrontBlock? && s.prod.nx == s.mem.frontBlock
    ensures want <= s.prod.held || want <= Held(s)
  {
    LastBeforeFront(s, ring, t);
    if 0 < t {
      FullRestHolds(s, ring, t, blockSize, count);
      EnoughBlocks(blockSize, count, want, t, Held(s));
    }
  }

  lemma RefusedAtFront<T(!new)>(s: State<T>, s': State<T>)
    requires Next(s, s') && s.prod.PLoadFrontBlock? && s'.prod.PReady?
    ensures s.prod.nx == s.mem.frontBlock
  {
  }

  /** Capacity: a `try_enqueue` that may not allocate is refused only if the queue held at least the
      requested number of elements at one of the two moments the call looked at it. */
  lemma CapacityGuarantee<T(!new)>(run: seq<State<T>>, blockSize: nat, count: nat, want: nat, i: nat)
    requires IsRun(run, blockSize, count) && Capable(blockSize, count, want) && 0 < i < |run|
    requires run[i - 1].prod.PLoadFrontBlock? && run[i].prod.PReady?
    ensures want <= run[i - 1].prod.held || want <= Held(run[i - 1])
  {
    assert StepAt(run, i);
    RefusedAtFront(run[i - 1], run[i]);
    var ring, t := RunInvariant(run, blockSize, count, i - 1);
    RunKeepsRoom(run, blockSize, count, i - 1);
    RefusalMeansFull(run[i - 1], ring, t, blockSize, count, want);
  }

  // ---------------------------------------------------------------------------------------------
  // The constructor
  // ---------------------------------------------------------------------------------------------

  /** Enough blocks of 512 slots for `size` elements. */
  lemma BlockCountSuffices(size: nat)
    requires 1 <= size
    ensures var count := (size + MAX_BLOCK_SIZE * 2 - 3) / (MAX_BLOCK_SIZE - 1);
            2 <= count && size <= (count - 1) * (MAX_BLOCK_SIZE - 1)
  {
  }

  /** The word that `size + 1` wraps to. */
  lemma SuccessorWord(size: nat, p: nat)
    requires size < p
    ensures (size + 1) % p == if size + 1 < p then size + 1 else 0
  {
    if size + 1 == p { ModuloUnique(size + 1, p, 1, 0); } else { ModuloUnique(size + 1, p, 0, size + 1); }
  }

  lemma CeilingSuffices(size: nat, largest: nat, w: nat)
    requires 0 < w && 1 <= size < Pow2(w - 1) && IsCeiling(size + 1, largest, w)
    ensures Capable(largest, 1, size) && exists j: nat :: largest == Pow2(j)
  {
  }

  /** A single block of the computed size holds `size` elements, unless the size is zero or so large
      that its ceiling wraps around. */
  lemma OneBlockSufficesIff(size: nat, word: nat, largest: nat, w: nat)
    requires 1 < w && size < Pow2(w) && word == (if size + 1 < Pow2(w) then size + 1 else 0)
    requires IsCeiling(word, largest, w)
    ensures Capable(largest, 1, size) <==> 1 <= size < Pow2(w - 1)
    ensures 1 <= size < Pow2(w - 1) ==> exists j: nat :: largest == Pow2(j)
    ensures !(1 <= size < Pow2(w - 1)) ==> largest <= 1
  {
    if size == 0 {
      LeastOfOne(largest, w);
    } else if size < Pow2(w - 1) {
      CeilingSuffices(size, largest, w);
    } else {
      assert largest == 0;
    }
  }

  lemma LeastOfOne(x: nat, w: nat)
    requires 0 < w && IsCeiling(1, x, w)
    ensures x == 1
  {
    var j: nat :| j < w && IsLeastPower(1, x, j);
    assert Pow2(0) == 1;
  }

  function FreshBlock<T>(next: nat, size: nat, raw: T): Block<T> {
    Block(0, 0, 0, 0, next, seq(size, _ => raw))
  }

  /** The blocks in a circle, as the constructor's loop makes and links them. */
  method LinkBlocks<T>(count: nat, size: nat, raw: T) returns (blocks: seq<Block<T>>)
    ensures |blocks| == count
    ensures forall j :: 0 <= j < count ==> blocks[j] == FreshBlock(if j + 1 == count then 0 else j + 1, size, raw)
  {
    blocks := [];
    var i := 0;
    while i != count
      invariant 0 <= i == |blocks| <= count
      invariant forall j :: 0 <= j < i ==> blocks[j] == FreshBlock(if j + 1 == i then 0 else j + 1, size, raw)
    {
      if i != 0 {
        blocks := blocks[i - 1 := blocks[i - 1].(next := i)];
      }
      blocks := blocks + [FreshBlock(0, size, raw)];
      i := i + 1;
    }
  }

  lemma LargestBlock()
    ensures MAX_BLOCK_SIZE == Pow2(9)
  {
  }

  /** The block size and the number of blocks that the constructor computes. */
  method ChooseSizes(size: nat) returns (largest: nat, count: nat)
    requires size < Pow2(WORD_BITS)
    ensures Capable(largest, count, size) <==> 1 <= size < Pow2(WORD_BITS - 1)
    ensures 1 <= size < Pow2(WORD_BITS - 1) ==> exists j: nat :: largest == Pow2(j)
    ensures 1 <= count
  {
    largest := CeilToPow2((size + 1) % Pow2(WORD_BITS));
    count := 1;
    SuccessorWord(size, Pow2(WORD_BITS));
    OneBlockSufficesIff(size, (size + 1) % Pow2(WORD_BITS), largest, WORD_BITS);
    if largest > MAX_BLOCK_SIZE * 2 {
      BlockCountSuffices(size);
      largest, count := MAX_BLOCK_SIZE, (size + MAX_BLOCK_SIZE * 2 - 3) / (MAX_BLOCK_SIZE - 1);
      LargestBlock();
    }
  }

  /** The constructor, for every size: what it builds can hold that many elements if and only if the
      size is between 1 and 2^63 - 1.  `raw` stands for the content of fresh storage. */
  method Construct<T>(size: nat, raw: T) returns (m: Memory<T>, count: nat)
    requires size < Pow2(WORD_BITS)
    ensures Init(State(m, PReady, CIdle, [], []), m.largest, count)
    ensures Capable(m.largest, count, size) <==> 1 <= size < Pow2(WORD_BITS - 1)
    ensures 1 <= size < Pow2(WORD_BITS - 1) ==> exists j: nat :: m.largest == Pow2(j)
  {
    var largest;
    largest, count := ChooseSizes(size);
    var blocks := LinkBlocks(count, largest, raw);
    m := Memory(blocks, 0, 0, largest);
  }
}
