/** Every block of every run has a power-of-two number of slots, so that masking finds the next one. */
module SpscMask {
  import opened Blocks
  import opened PowerOfTwo
  import opened Spsc

  ghost predicate IsPower(n: nat) {
    exists j: nat :: n == Pow2(j)
  }

  lemma DoubledIsPower(n: nat)
    requires IsPower(n)
    ensures IsPower(n * 2)
  {
    var j: nat :| n == Pow2(j);
    assert n * 2 == Pow2(j + 1);
  }

  /** The sizes of the blocks, of the next block, and of a block that is not linked yet. */
  ghost predicate PowerSized<T>(s: State<T>) {
    && IsPower(s.mem.largest)
    && (forall i :: 0 <= i < |s.mem.blocks| ==> IsPower(|s.mem.blocks[i].data|))
    && (s.prod.PLoadLink? ==> IsPower(|s.prod.memory|))
    && (s.prod.PStoreLink? ==> IsPower(|s.prod.node.data|))
  }

  lemma ConsumerKeepsPowers<T>(s: State<T>)
    requires PowerSized(s) && ConsumerSafe(s)
    ensures PowerSized(ConsumerStep(s))
  {
    var m, m' := s.mem, ConsumerStep(s).mem;
    assert |m'.blocks| == |m.blocks| && forall i :: 0 <= i < |m.blocks| ==> |m'.blocks[i].data| == |m.blocks[i].data|;
  }

  lemma ProducerKeepsPowers<T>(s: State<T>, c: Choice<T>)
    requires PowerSized(s) && ProducerSafe(s)
    ensures PowerSized(ProducerStep(s, c))
  {
    var m, m' := s.mem, ProducerStep(s, c).mem;
    assert |m.blocks| <= |m'.blocks| && forall i :: 0 <= i < |m.blocks| ==> |m'.blocks[i].data| == |m.blocks[i].data|;
    if s.prod.PAllocate? { DoubledIsPower(m.largest); }
  }

  lemma {:induction false} RunKeepsPowers<T(!new)>(run: seq<State<T>>, blockSize: nat, count: nat, i: nat)
    requires IsRun(run, blockSize, count) && IsPower(blockSize) && i < |run|
    ensures PowerSized(run[i])
    decreases i
  {
    if 0 < i {
      RunKeepsPowers(run, blockSize, count, i - 1);
      assert StepAt(run, i);
      if ConsumerMoves(run[i - 1], run[i]) {
        ConsumerKeepsPowers(run[i - 1]);
      } else {
        var c :| run[i] == ProducerStep(run[i - 1], c);
        ProducerKeepsPowers(run[i - 1], c);
      }
    }
  }

  /** In every run from a power-of-two block size, which is what the constructor chooses, every block has
      a power-of-two number of slots, and masking the successor of a slot gives the slot that the model
      goes to. */
  lemma SlotsAreMasked<T(!new)>(run: seq<State<T>>, blockSize: nat, count: nat, i: nat, b: nat, slot: nat)
    requires IsRun(run, blockSize, count) && IsPower(blockSize) && i < |run|
    requires b < |run[i].mem.blocks| && slot < |run[i].mem.blocks[b].data|
    ensures var size := |run[i].mem.blocks[b].data|;
            IsPower(size) && And(slot + 1, size - 1) == NextSlot(slot, size)
  {
    RunKeepsPowers(run, blockSize, count, i);
    var size := |run[i].mem.blocks[b].data|;
    assert IsPower(size);
    var j: nat :| size == Pow2(j);
    MaskIsWrap(slot, j);
  }
}
