/** Every consumer step keeps the invariant, and is safe to take. */
module SpscConsumer {
  import opened Blocks
  import opened Spsc
  import opened SpscInvariant

  /** Nothing the producer relies on depends on `localTail` of any block. */
  lemma ProducerIgnoresLocalTail<T>(m: Memory<T>, p: Producer<T>, ring: seq<nat>, t: nat, k: nat, localTail: nat)
    requires IsRing(m, ring, t) && ProducerKnows(m, p, ring, t) && k < |ring|
    requires IsRing(WithBlock(m, ring[k], m.blocks[ring[k]].(localTail := localTail)), ring, t)
    requires k <= t
    ensures ProducerKnows(WithBlock(m, ring[k], m.blocks[ring[k]].(localTail := localTail)), p, ring, t)
  {
    var m' := WithBlock(m, ring[k], m.blocks[ring[k]].(localTail := localTail));
    assert t + 1 < |ring| ==> m'.blocks[ring[t + 1]] == m.blocks[ring[t + 1]];
  }

  /** Refreshing `localTail` from `tail` changes nothing that the producer sees. */
  lemma RefreshLocalTail<T>(s: State<T>, ring: seq<nat>, t: nat, k: nat)
    requires Inv(s, ring, t) && k < |ring| && k <= t
    ensures var b := s.mem.blocks[ring[k]];
            var m := WithBlock(s.mem, ring[k], b.(localTail := b.tail));
            && Shape(m, ring, t, s.prod.PStoreTailBlock?)
            && ProducerKnows(m, s.prod, ring, t)
            && Flat(m.blocks, ring[..t + 1]) == Flat(s.mem.blocks, ring[..t + 1])
  {
    var b := s.mem.blocks[ring[k]];
    assert b.Good();
    RefreshTail(b);
    var b' := b.(localTail := b.tail);
    ReplaceKeepsShape(s.mem, ring, t, s.prod.PStoreTailBlock?, s.prod.PStoreTailBlock?, k, b');
    ReplaceKeepsFlat(s.mem, ring, t, k, b');
    ProducerIgnoresLocalTail(s.mem, s.prod, ring, t, k, b.tail);
  }

  lemma LoadTailKeeps<T>(s: State<T>, ring: seq<nat>, t: nat)
    requires Inv(s, ring, t) && s.cons.CLoadTail?
    ensures ConsumerSafe(s) && Inv(ConsumerStep(s), ring, t)
  {
    RefreshLocalTail(s, ring, t, 0);
    var b := s.mem.blocks[ring[0]];
    if t == 0 && b.front == b.tail {
      assert ring[..1] == [ring[0]];
      FlatOne(s.mem.blocks, ring[0]);
      ContentsLength(b);
      assert s.received == s.sent;
    }
  }

  lemma ReloadTailKeeps<T>(s: State<T>, ring: seq<nat>, t: nat)
    requires Inv(s, ring, t) && s.cons.CReloadTail?
    ensures ConsumerSafe(s) && Inv(ConsumerStep(s), ring, t)
  {
    RefreshLocalTail(s, ring, t, 0);
  }

  lemma LoadNextTailKeeps<T>(s: State<T>, ring: seq<nat>, t: nat)
    requires Inv(s, ring, t) && s.cons.CLoadNextTail?
    ensures ConsumerSafe(s) && Inv(ConsumerStep(s), ring, t)
  {
    RefreshLocalTail(s, ring, t, 1);
    assert ring[0] != ring[1];
    NextIsNotEmpty(s, ring, t);
  }

  /** The block after a front block that is not the tail block holds an element. */
  lemma NextIsNotEmpty<T>(s: State<T>, ring: seq<nat>, t: nat)
    requires Inv(s, ring, t) && 0 < t
    ensures !s.mem.blocks[ring[1]].IsEmpty()
  {
    assert s.mem.blocks[ring[1]].Good();
    if 1 < t {
      assert s.mem.blocks[ring[1]].IsFull();
    }
  }

  /** The circle seen from its second block. */
  lemma RotateRing<T>(m: Memory<T>, ring: seq<nat>, t: nat)
    requires IsRing(m, ring, t) && 0 < t
    ensures IsRing(m.(frontBlock := ring[1]), ring[1..] + [ring[0]], t - 1)
    ensures Succ(ring[1..] + [ring[0]], t - 1) == Succ(ring, t)
  {
    var ring', n := ring[1..] + [ring[0]], |ring|;
    forall i {:trigger Succ(ring', i)} | 0 <= i < n ensures m.blocks[ring'[i]].next == Succ(ring', i) {
      var j := if i + 1 == n then 0 else i + 1;
      assert m.blocks[ring[j]].next == Succ(ring, j);
    }
  }

  /** An empty front block adds nothing to the queue. */
  lemma RotateFlat<T>(m: Memory<T>, ring: seq<nat>, t: nat)
    requires 0 < t < |ring| && AllBelow(ring, |m.blocks|) && m.blocks[ring[0]].Good() && m.blocks[ring[0]].IsEmpty()
    requires AllBelow(ring[1..] + [ring[0]], |m.blocks|)
    ensures Flat(m.blocks, (ring[1..] + [ring[0]])[..t]) == Flat(m.blocks, ring[..t + 1])
  {
    assert (ring[1..] + [ring[0]])[..t] == ring[1..t + 1];
    FlatHead(m.blocks, ring, t);
    ContentsLength(m.blocks[ring[0]]);
  }

  lemma RotatedAt(ring: seq<nat>, i: nat)
    requires i < |ring|
    ensures (ring[1..] + [ring[0]])[i] == if i + 1 == |ring| then ring[0] else ring[i + 1]
  {
  }

  /** Leaving an empty front block keeps the occupancy: it becomes the last of the empty ones. */
  lemma RotateOccupancy<T>(m: Memory<T>, ring: seq<nat>, t: nat, pending: bool)
    requires IsRing(m, ring, t) && Occupancy(m, ring, t, pending) && 0 < t && m.blocks[ring[0]].IsEmpty()
    requires AllBelow(ring[1..] + [ring[0]], |m.blocks|) && (pending ==> t + 1 < |ring|)
    ensures Occupancy(m.(frontBlock := ring[1]), ring[1..] + [ring[0]], t - 1, pending)
  {
    var ring', n := ring[1..] + [ring[0]], |ring|;
    forall i | 0 <= i < n ensures m.blocks[ring'[i]].Good() {
      RotatedAt(ring, i);
    }
    forall i | 0 < i < t - 1 ensures m.blocks[ring'[i]].IsFull() {
      RotatedAt(ring, i);
    }
    forall i | t - 1 < i < n && !(pending && i == t) ensures m.blocks[ring'[i]].IsEmpty() {
      RotatedAt(ring, i);
    }
    RotatedAt(ring, t - 1);
  }

  /** Moving on to the next block: the drained block goes to the end of the circle. */
  lemma StoreFrontBlockKeeps<T>(s: State<T>, ring: seq<nat>, t: nat)
    requires Inv(s, ring, t) && s.cons.CStoreFrontBlock?
    ensures ConsumerSafe(s) && 0 < t && Inv(ConsumerStep(s), ring[1..] + [ring[0]], t - 1)
  {
    RotateRing(s.mem, ring, t);
    RotateOccupancy(s.mem, ring, t, s.prod.PStoreTailBlock?);
    RotateFlat(s.mem, ring, t);
    RotatedAt(ring, 0);
    RotateProducer(s.mem, s.prod, ring, t);
  }

  /** The producer's view does not depend on where the circle begins. */
  lemma RotateProducer<T>(m: Memory<T>, p: Producer<T>, ring: seq<nat>, t: nat)
    requires IsRing(m, ring, t) && 0 < t && ProducerKnows(m, p, ring, t)
    requires IsRing(m.(frontBlock := ring[1]), ring[1..] + [ring[0]], t - 1)
    requires Succ(ring[1..] + [ring[0]], t - 1) == Succ(ring, t)
    ensures ProducerKnows(m.(frontBlock := ring[1]), p, ring[1..] + [ring[0]], t - 1)
  {
    RotatedAt(ring, t - 1);
    if t + 1 < |ring| { RotatedAt(ring, t); }
  }

  lemma FlatHead<T>(blocks: seq<Block<T>>, ring: seq<nat>, t: nat)
    requires t < |ring| && AllBelow(ring, |blocks|)
    ensures Flat(blocks, ring[..t + 1]) == blocks[ring[0]].Contents() + Flat(blocks, ring[1..t + 1])
  {
    assert ring[..t + 1][1..] == ring[1..t + 1];
  }

  lemma RestUntouched<T>(blocks: seq<Block<T>>, ring: seq<nat>, t: nat, b: Block<T>)
    requires t < |ring| && AllBelow(ring, |blocks|) && Distinct(ring)
    ensures Flat(blocks[ring[0] := b], ring[1..t + 1]) == Flat(blocks, ring[1..t + 1])
  {
    var rest, after := ring[1..t + 1], blocks[ring[0] := b];
    forall i | 0 <= i < |rest| ensures rest[i] < |blocks| && after[rest[i]] == blocks[rest[i]] {
      assert rest[i] == ring[i + 1];
    }
    FlatFrame(blocks, after, rest);
  }

  lemma Associate<T>(a: seq<T>, b: seq<T>, c: seq<T>)
    ensures (a + b) + c == a + (b + c)
  {
  }

  /** Taking the oldest element out of the front block takes it off the queue. */
  lemma PopFlat<T>(m: Memory<T>, ring: seq<nat>, t: nat)
    requires t < |ring| && AllBelow(ring, |m.blocks|) && Distinct(ring)
    requires m.blocks[ring[0]].Good() && m.blocks[ring[0]].localTail != m.blocks[ring[0]].front
    ensures var b := m.blocks[ring[0]];
            var after := m.blocks[ring[0] := b.(front := NextSlot(b.front, |b.data|))];
            Flat(m.blocks, ring[..t + 1]) == [b.data[b.front]] + Flat(after, ring[..t + 1])
  {
    var b := m.blocks[ring[0]];
    var b' := b.(front := NextSlot(b.front, |b.data|));
    AdvanceFront(b);
    FlatHead(m.blocks, ring, t);
    FlatHead(m.blocks[ring[0] := b'], ring, t);
    RestUntouched(m.blocks, ring, t, b');
    Associate([b.data[b.front]], b'.Contents(), Flat(m.blocks, ring[1..t + 1]));
  }

  /** Nothing the producer relies on depends on `front` of the front block. */
  lemma ProducerIgnoresFront<T>(m: Memory<T>, p: Producer<T>, ring: seq<nat>, t: nat, front: nat)
    requires IsRing(m, ring, t) && ProducerKnows(m, p, ring, t)
    requires IsRing(WithBlock(m, ring[0], m.blocks[ring[0]].(front := front)), ring, t)
    ensures ProducerKnows(WithBlock(m, ring[0], m.blocks[ring[0]].(front := front)), p, ring, t)
  {
    var m' := WithBlock(m, ring[0], m.blocks[ring[0]].(front := front));
    assert 0 < t ==> m'.blocks[ring[t]] == m.blocks[ring[t]];
    assert t + 1 < |ring| ==> m'.blocks[ring[t + 1]] == m.blocks[ring[t + 1]];
  }

  /** The store that ends a dequeue takes the oldest element and no other. */
  lemma StoreFrontKeeps<T>(s: State<T>, ring: seq<nat>, t: nat)
    requires Inv(s, ring, t) && s.cons.CStoreFront?
    ensures ConsumerSafe(s) && Inv(ConsumerStep(s), ring, t)
  {
    var b := s.mem.blocks[ring[0]];
    var b' := b.(front := NextSlot(b.front, |b.data|));
    AdvanceFront(b);
    ReplaceKeepsShape(s.mem, ring, t, s.prod.PStoreTailBlock?, s.prod.PStoreTailBlock?, 0, b');
    ProducerIgnoresFront(s.mem, s.prod, ring, t, b'.front);
    PopFlat(s.mem, ring, t);
    var rest := Flat(s.mem.blocks[ring[0] := b'], ring[..t + 1]);
    assert s.received + ([s.cons.v] + rest) == s.received + [s.cons.v] + rest;
  }

  /** Steps that change nothing but the consumer's own variables. */
  lemma LocalFrame<T>(s: State<T>, c: Consumer<T>, ring: seq<nat>, t: nat)
    requires Inv(s, ring, t) && ConsumerKnows(s.mem, c, |s.received|, |s.sent|, ring, t)
    ensures Inv(s.(cons := c), ring, t)
  {
  }

  /** The beginning of a call, and the look at the two block pointers. */
  lemma PointerStepKeeps<T>(s: State<T>, ring: seq<nat>, t: nat)
    requires Inv(s, ring, t)
    requires s.cons.CIdle? || s.cons.CLoadFrontBlock? || s.cons.CLoadTailBlock? || s.cons.CReloadFrontBlock?
    ensures ConsumerSafe(s) && Inv(ConsumerStep(s), ring, t)
  {
    assert s.cons.CLoadTailBlock? && t != 0 ==> ring[0] != ring[t];
    LocalFrame(s, ConsumerStep(s).cons, ring, t);
  }

  /** The loads of `front` of the front block, and the read of the element. */
  lemma FrontStepKeeps<T>(s: State<T>, ring: seq<nat>, t: nat)
    requires Inv(s, ring, t)
    requires s.cons.CLoadFront? || s.cons.CReloadFront? || s.cons.CReadElement?
    ensures ConsumerSafe(s) && Inv(ConsumerStep(s), ring, t)
  {
    assert s.mem.blocks[ring[0]].Good();
    LocalFrame(s, ConsumerStep(s).cons, ring, t);
  }

  /** The loads of the link to the next block and of its `front`. */
  lemma NextStepKeeps<T>(s: State<T>, ring: seq<nat>, t: nat)
    requires Inv(s, ring, t)
    requires s.cons.CLoadNext? || s.cons.CLoadNextFront?
    ensures ConsumerSafe(s) && Inv(ConsumerStep(s), ring, t)
  {
    assert s.mem.blocks[ring[0]].next == Succ(ring, 0);
    LocalFrame(s, ConsumerStep(s).cons, ring, t);
  }

  lemma ConsumerKeeps<T>(s: State<T>, ring: seq<nat>, t: nat)
    requires Inv(s, ring, t)
    ensures ConsumerSafe(s) && 0 <= ConsumerPos(s, t)
    ensures Inv(ConsumerStep(s), ConsumerRing(s, ring), ConsumerPos(s, t))
  {
    match s.cons
    case CLoadTail(_, _, _) => LoadTailKeeps(s, ring, t);
    case CReloadTail(_) => ReloadTailKeeps(s, ring, t);
    case CLoadNextTail(_, _) => LoadNextTailKeeps(s, ring, t);
    case CStoreFrontBlock(_, _, _) => StoreFrontBlockKeeps(s, ring, t);
    case CStoreFront(_, _, _) => StoreFrontKeeps(s, ring, t);
    case CLoadFront(_, _) => FrontStepKeeps(s, ring, t);
    case CReloadFront(_, _) => FrontStepKeeps(s, ring, t);
    case CReadElement(_, _) => FrontStepKeeps(s, ring, t);
    case CLoadNext(_) => NextStepKeeps(s, ring, t);
    case CLoadNextFront(_) => NextStepKeeps(s, ring, t);
    case _ => PointerStepKeeps(s, ring, t);
  }
}
