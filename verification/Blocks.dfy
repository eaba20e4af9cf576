/** One low-level ring buffer of `ReaderWriterQueue`: a block with a power-of-two number of
    slots, of which one always stays unused.  The consumer owns `front` and the stale copy
    `localTail`; the producer owns `tail`, `next` and the stale copy `localFront`. */
module Blocks {

  /** The slot after slot `i`; `SpscMask.SlotsAreMasked` shows that the source's `(i + 1) & sizeMask`
      computes it in every run. */
  function NextSlot(i: nat, size: nat): nat {
    if i + 1 == size then 0 else i + 1
  }

  /** Steps from slot `a` forward to slot `b` around a ring of `size` slots. */
  function Dist(a: nat, b: nat, size: nat): int {
    if a <= b then b - a else b - a + size
  }

  datatype Block<T> = Block(front: nat, localTail: nat, tail: nat, localFront: nat, next: nat, data: seq<T>) {

    predicate InRange() {
      front < |data| && localTail < |data| && tail < |data| && localFront < |data|
    }

    function Count(): int { Dist(front, tail, |data|) }

    predicate IsEmpty() { front == tail }

    predicate IsFull() { Count() == |data| - 1 }

    /** The elements stored in the block, oldest first. */
    function Contents(): seq<T> {
      if front <= tail <= |data| then data[front..tail]
      else if tail < front <= |data| then data[front..] + data[..tail]
      else []
    }

    /** What every block keeps at all times: the consumer's stale tail lies between `front` and
        `tail`, and the producer's stale front lies at or behind `front`. */
    predicate Good() {
      && 2 <= |data|
      && InRange()
      && Dist(front, localTail, |data|) <= Count()
      && Count() <= Dist(localFront, tail, |data|)
    }

    /** The producer's stale view still shows a free slot. */
    predicate HasRoom() { NextSlot(tail, |data|) != localFront }
  }

  lemma ContentsLength<T>(b: Block<T>)
    requires b.Good()
    ensures |b.Contents()| == b.Count()
    ensures b.Contents() == [] <==> b.IsEmpty()
  {
  }

  /** Writing the slot at `tail` is invisible to the consumer. */
  lemma WriteSpare<T>(b: Block<T>, x: T)
    requires b.Good()
    ensures b.(data := b.data[b.tail := x]).Contents() == b.Contents()
    ensures b.(data := b.data[b.tail := x]).Good()
  {
  }

  /** Moving `tail` over a written slot appends its element; the stale view is enough to know
      that the slot was free. */
  lemma AdvanceTail<T>(b: Block<T>)
    requires b.Good() && b.HasRoom()
    ensures var b' := b.(tail := NextSlot(b.tail, |b.data|));
            b'.Good() && !b'.IsEmpty() && b'.Count() == b.Count() + 1
            && b'.Contents() == b.Contents() + [b.data[b.tail]]
  {
    var b' := b.(tail := NextSlot(b.tail, |b.data|));
    var n := |b.data|;
    if b.front <= b.tail {
      if b.tail + 1 == n {
        assert b.data[b.front..] == b.data[b.front..b.tail] + [b.data[b.tail]];
        assert b'.Contents() == b.data[b.front..] + b.data[..0];
      } else {
        assert b.data[b.front..b.tail + 1] == b.data[b.front..b.tail] + [b.data[b.tail]];
      }
    } else {
      assert b.data[..b.tail + 1] == b.data[..b.tail] + [b.data[b.tail]];
    }
  }

  /** The oldest element, in a block whose elements do not wrap around. */
  lemma TakeStraight<T>(data: seq<T>, front: nat, tail: nat)
    requires front < tail <= |data|
    ensures data[front..tail] == [data[front]] + data[front + 1..tail]
  {
  }

  /** The oldest element, in a block whose elements do. */
  lemma TakeWrapped<T>(data: seq<T>, front: nat, tail: nat)
    requires tail < front < |data|
    ensures data[front..] + data[..tail] == [data[front]] + (data[front + 1..] + data[..tail])
  {
    assert data[front..] == [data[front]] + data[front + 1..];
  }

  lemma StaleTailSuffices<T>(b: Block<T>)
    requires b.Good() && b.localTail != b.front
    ensures !b.IsEmpty() && b.(front := NextSlot(b.front, |b.data|)).Good()
  {
  }

  /** Moving `front` removes the oldest element; the stale tail is enough to know there is one. */
  lemma AdvanceFront<T>(b: Block<T>)
    requires b.Good() && b.localTail != b.front
    ensures !b.IsEmpty()
    ensures b.Contents() == [b.data[b.front]] + b.(front := NextSlot(b.front, |b.data|)).Contents()
    ensures b.(front := NextSlot(b.front, |b.data|)).Good()
  {
    StaleTailSuffices(b);
    if b.front < b.tail {
      TakeStraight(b.data, b.front, b.tail);
    } else {
      TakeWrapped(b.data, b.front, b.tail);
      assert b.data[0..b.tail] == b.data[..b.tail];
      assert b.front + 1 == |b.data| ==> b.data[b.front + 1..] == [];
    }
  }

  /** The consumer's stale tail may be brought up to date at any time. */
  lemma RefreshTail<T>(b: Block<T>)
    requires b.Good()
    ensures b.(localTail := b.tail).Good() && b.(localTail := b.tail).Contents() == b.Contents()
  {
  }

  predicate AllBelow(ids: seq<nat>, n: nat) {
    forall i :: 0 <= i < |ids| ==> ids[i] < n
  }

  /** The elements of the listed blocks, in list order. */
  function Flat<T>(blocks: seq<Block<T>>, ids: seq<nat>): seq<T>
    requires AllBelow(ids, |blocks|)
  {
    if ids == [] then [] else blocks[ids[0]].Contents() + Flat(blocks, ids[1..])
  }

  lemma {:induction false} FlatConcat<T>(blocks: seq<Block<T>>, a: seq<nat>, b: seq<nat>)
    requires AllBelow(a, |blocks|) && AllBelow(b, |blocks|)
    ensures Flat(blocks, a + b) == Flat(blocks, a) + Flat(blocks, b)
  {
    if a == [] {
      assert a + b == b;
    } else {
      assert (a + b)[1..] == a[1..] + b;
      FlatConcat(blocks, a[1..], b);
    }
  }

  /** Only the contents of the listed blocks matter. */
  lemma {:induction false} FlatFrame<T>(before: seq<Block<T>>, after: seq<Block<T>>, ids: seq<nat>)
    requires AllBelow(ids, |before|) && AllBelow(ids, |after|)
    requires forall i :: 0 <= i < |ids| ==> before[ids[i]].Contents() == after[ids[i]].Contents()
    ensures Flat(before, ids) == Flat(after, ids)
  {
    if ids != [] {
      FlatFrame(before, after, ids[1..]);
    }
  }

  lemma FlatOne<T>(blocks: seq<Block<T>>, id: nat)
    requires id < |blocks|
    ensures Flat(blocks, [id]) == blocks[id].Contents()
  {
    assert [id][1..] == [];
  }
}
