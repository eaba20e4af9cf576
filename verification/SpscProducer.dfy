/** Every producer step keeps the invariant, and is safe to take. */
module SpscProducer {
  import opened Blocks
  import opened Spsc
  import opened SpscInvariant

  /** What the consumer relies on in a block that the producer changes: its `front` and `localTail`
      stay, `tail` stays where the consumer has recorded it, and the element under `front` stays. */
  ghost predicate ConsumerViewKept<T>(b: Block<T>, b': Block<T>) {
    && b'.front == b.front && b'.localTail == b.localTail && |b'.data| == |b.data|
    && (b.localTail != b.front && b.front < |b.data| ==> b'.data[b.front] == b.data[b.front])
  }

  /** Changing the tail block, or a block behind it, keeps what the consumer knows. */
  lemma ConsumerIgnoresTail<T>(m: Memory<T>, c: Consumer<T>, received: nat, sent: nat, sent': nat,
                               ring: seq<nat>, t: nat, k: nat, b: Block<T>)
    requires IsRing(m, ring, t) && ConsumerKnows(m, c, received, sent, ring, t) && sent <= sent'
    requires t <= k < |ring| && ConsumerViewKept(m.blocks[ring[k]], b)
    requires IsRing(WithBlock(m, ring[k], b), ring, t)
    ensures ConsumerKnows(WithBlock(m, ring[k], b), c, received, sent', ring, t)
  {
    var m' := WithBlock(m, ring[k], b);
    assert 0 < t ==> m'.blocks[ring[0]] == m.blocks[ring[0]];
    assert 0 < t && k != 1 ==> m'.blocks[ring[1]] == m.blocks[ring[1]];
  }

  /** Replacing the tail block or the one after it by one with the same contents. */
  lemma QuietReplace<T>(s: State<T>, ring: seq<nat>, t: nat, k: nat, b: Block<T>)
    requires Inv(s, ring, t) && t <= k < |ring| && !s.prod.PStoreTailBlock?
    requires b.Good() && b.next == s.mem.blocks[ring[k]].next && b.Contents() == s.mem.blocks[ring[k]].Contents()
    requires ConsumerViewKept(s.mem.blocks[ring[k]], b)
    ensures var m := WithBlock(s.mem, ring[k], b);
            && Shape(m, ring, t, false)
            && ConsumerKnows(m, s.cons, |s.received|, |s.sent|, ring, t)
            && s.received + Flat(m.blocks, ring[..t + 1]) == s.sent
  {
    ContentsLength(s.mem.blocks[ring[k]]);
    ContentsLength(b);
    ReplaceKeepsShape(s.mem, ring, t, false, false, k, b);
    ReplaceKeepsFlat(s.mem, ring, t, k, b);
    ConsumerIgnoresTail(s.mem, s.cons, |s.received|, |s.sent|, |s.sent|, ring, t, k, b);
  }

  lemma LoadFrontKeeps<T>(s: State<T>, c: Choice<T>, ring: seq<nat>, t: nat)
    requires Inv(s, ring, t) && s.prod.PLoadFront?
    ensures ProducerSafe(s) && Inv(ProducerStep(s, c), ring, t)
  {
    var b := s.mem.blocks[ring[t]];
    assert b.Good();
    QuietReplace(s, ring, t, t, b.(localFront := b.front));
  }

  lemma LoadNextFrontKeeps<T>(s: State<T>, c: Choice<T>, ring: seq<nat>, t: nat)
    requires Inv(s, ring, t) && s.prod.PLoadNextFront?
    ensures ProducerSafe(s) && Inv(ProducerStep(s, c), ring, t)
  {
    var b := s.mem.blocks[ring[t + 1]];
    assert b.Good();
    QuietReplace(s, ring, t, t + 1, b.(localFront := b.front));
    assert ring[t] != ring[t + 1];
  }

  lemma WriteElementKeeps<T>(s: State<T>, c: Choice<T>, ring: seq<nat>, t: nat)
    requires Inv(s, ring, t) && s.prod.PWriteElement?
    ensures ProducerSafe(s) && Inv(ProducerStep(s, c), ring, t)
  {
    var b := s.mem.blocks[ring[t]];
    assert b.Good();
    WriteSpare(b, s.prod.x);
    QuietReplace(s, ring, t, t, b.(data := b.data[b.tail := s.prod.x]));
  }

  lemma WriteNextKeeps<T>(s: State<T>, c: Choice<T>, ring: seq<nat>, t: nat)
    requires Inv(s, ring, t) && s.prod.PWriteNext?
    ensures ProducerSafe(s) && Inv(ProducerStep(s, c), ring, t)
  {
    var b := s.mem.blocks[ring[t + 1]];
    assert b.Good() && b.IsEmpty();
    WriteSpare(b, s.prod.x);
    QuietReplace(s, ring, t, t + 1, b.(data := b.data[b.tail := s.prod.x]));
    assert ring[t] != ring[t + 1];
  }

  /** Appending to the tail block appends to the queue. */
  lemma PushFlat<T>(m: Memory<T>, ring: seq<nat>, t: nat, b: Block<T>, x: T)
    requires t < |ring| && AllBelow(ring, |m.blocks|) && Distinct(ring)
    requires b.Contents() == m.blocks[ring[t]].Contents() + [x]
    ensures Flat(m.blocks[ring[t] := b], ring[..t + 1]) == Flat(m.blocks, ring[..t + 1]) + [x]
  {
    var before, after := ring[..t], m.blocks[ring[t] := b];
    assert ring[..t + 1] == before + [ring[t]];
    FlatConcat(m.blocks, before, [ring[t]]);
    FlatConcat(after, before, [ring[t]]);
    FlatOne(m.blocks, ring[t]);
    FlatOne(after, ring[t]);
    FlatFrame(m.blocks, after, before);
    assert Flat(m.blocks, before) + (m.blocks[ring[t]].Contents() + [x])
        == Flat(m.blocks, before) + m.blocks[ring[t]].Contents() + [x];
  }

  /** The store that ends an enqueue into the tail block appends the element. */
  lemma StoreTailKeeps<T>(s: State<T>, c: Choice<T>, ring: seq<nat>, t: nat)
    requires Inv(s, ring, t) && s.prod.PStoreTail?
    ensures ProducerSafe(s) && Inv(ProducerStep(s, c), ring, t)
  {
    var b := s.mem.blocks[ring[t]];
    var b' := b.(tail := NextSlot(b.tail, |b.data|));
    assert b.Good();
    AdvanceTail(b);
    ReplaceKeepsShape(s.mem, ring, t, false, false, t, b');
    PushFlat(s.mem, ring, t, b', s.prod.x);
    ConsumerIgnoresTail(s.mem, s.cons, |s.received|, |s.sent|, |s.sent| + 1, ring, t, t, b');
    assert s.received + (Flat(s.mem.blocks, ring[..t + 1]) + [s.prod.x]) == s.sent + [s.prod.x];
  }

  /** Filling the first slot of the next block is not yet visible to the consumer. */
  lemma StoreNextTailKeeps<T>(s: State<T>, c: Choice<T>, ring: seq<nat>, t: nat)
    requires Inv(s, ring, t) && s.prod.PStoreNextTail?
    ensures ProducerSafe(s) && Inv(ProducerStep(s, c), ring, t)
  {
    var b := s.mem.blocks[ring[t + 1]];
    var b' := b.(tail := NextSlot(b.tail, |b.data|));
    assert b.Good() && b.IsEmpty();
    ContentsLength(b);
    AdvanceTail(b);
    ReplaceKeepsShape(s.mem, ring, t, false, true, t + 1, b');
    ReplaceKeepsFlat(s.mem, ring, t, t + 1, b');
    ConsumerIgnoresTail(s.mem, s.cons, |s.received|, |s.sent|, |s.sent|, ring, t, t + 1, b');
    assert ring[t] != ring[t + 1];
  }

  /** Linking a new block behind the tail block. */
  lemma LinkRing<T>(m: Memory<T>, ring: seq<nat>, t: nat, node: Block<T>)
    requires IsRing(m, ring, t) && node.next == Succ(ring, t)
    ensures var id := |m.blocks|;
            var m' := m.(blocks := m.blocks[ring[t] := m.blocks[ring[t]].(next := id)] + [node]);
            IsRing(m', ring[..t + 1] + [id] + ring[t + 1..], t)
  {
    var id := |m.blocks|;
    var m' := m.(blocks := m.blocks[ring[t] := m.blocks[ring[t]].(next := id)] + [node]);
    var ring' := ring[..t + 1] + [id] + ring[t + 1..];
    assert |ring'| == |m'.blocks| && Distinct(ring');
    forall i {:trigger Succ(ring', i)} | 0 <= i < |ring'| ensures m'.blocks[ring'[i]].next == Succ(ring', i) {
      if i < t {
        assert m.blocks[ring[i]].next == Succ(ring, i);
      } else if t + 1 < i {
        assert m.blocks[ring[i - 1]].next == Succ(ring, i - 1);
      }
    }
  }

  lemma LinkFlat<T>(m: Memory<T>, ring: seq<nat>, t: nat, node: Block<T>, id: nat)
    requires IsRing(m, ring, t)
    ensures Flat(m.blocks[ring[t] := m.blocks[ring[t]].(next := id)] + [node], ring[..t + 1])
         == Flat(m.blocks, ring[..t + 1])
  {
    FlatFrame(m.blocks, m.blocks[ring[t] := m.blocks[ring[t]].(next := id)] + [node], ring[..t + 1]);
  }

  lemma LinkOccupancy<T>(m: Memory<T>, ring: seq<nat>, t: nat, node: Block<T>, id: nat)
    requires t < |ring| && AllBelow(ring, |m.blocks|) && Distinct(ring) && id == |m.blocks|
    requires Occupancy(m, ring, t, false) && node.Good()
    ensures var m' := m.(blocks := m.blocks[ring[t] := m.blocks[ring[t]].(next := id)] + [node]);
            var ring' := ring[..t + 1] + [id] + ring[t + 1..];
            AllBelow(ring', |m'.blocks|) && Occupancy(m', ring', t, true)
  {
    var m' := m.(blocks := m.blocks[ring[t] := m.blocks[ring[t]].(next := id)] + [node]);
    var ring' := ring[..t + 1] + [id] + ring[t + 1..];
    forall i | 0 <= i < |ring'| && i != t + 1
      ensures ring'[i] == ring[if i <= t then i else i - 1]
      ensures m'.blocks[ring'[i]].(next := 0) == m.blocks[ring'[i]].(next := 0)
    {}
    forall i | 0 <= i < |ring'| && i != t + 1 ensures m'.blocks[ring'[i]].Good() {
      assert m.blocks[ring'[i]].Good();
    }
    forall i | t < i < |ring'| && i != t + 1 ensures m'.blocks[ring'[i]].IsEmpty() {
      assert m.blocks[ring[i - 1]].IsEmpty();
    }
  }

  /** Publishing the new block through `next` does not yet show it to the consumer. */
  lemma StoreLinkKeeps<T>(s: State<T>, c: Choice<T>, ring: seq<nat>, t: nat)
    requires Inv(s, ring, t) && s.prod.PStoreLink?
    ensures ProducerSafe(s) && Inv(ProducerStep(s, c), ProducerRing(s, ring, t), t)
  {
    var node, ring' := s.prod.node, ProducerRing(s, ring, t);
    LinkRing(s.mem, ring, t, node);
    LinkOccupancy(s.mem, ring, t, node, |s.mem.blocks|);
    LinkFlat(s.mem, ring, t, node, |s.mem.blocks|);
    assert ring'[..t + 1] == ring[..t + 1];
    assert node.Contents() == [node.data[0]];
    assert ring'[0] == ring[0] && ring'[t] == ring[t] && ring'[t + 1] == |s.mem.blocks|;
    assert 0 < t ==> ring'[1] == ring[1];
  }

  /** Moving the tail pointer to the prepared block appends its element to the queue. */
  lemma StoreTailBlockKeeps<T>(s: State<T>, c: Choice<T>, ring: seq<nat>, t: nat)
    requires Inv(s, ring, t) && s.prod.PStoreTailBlock?
    ensures ProducerSafe(s) && Inv(ProducerStep(s, c), ring, t + 1)
  {
    var x := s.prod.x;
    assert ring[..t + 2] == ring[..t + 1] + [ring[t + 1]];
    FlatConcat(s.mem.blocks, ring[..t + 1], [ring[t + 1]]);
    FlatOne(s.mem.blocks, ring[t + 1]);
    assert s.received + (Flat(s.mem.blocks, ring[..t + 1]) + [x]) == s.sent + [x];
  }

  /** When only the producer's variables change, only what it knows has to be shown again. */
  lemma LocalFrame<T>(s: State<T>, p: Producer<T>, largest: nat, ring: seq<nat>, t: nat)
    requires Inv(s, ring, t) && 2 <= largest
    requires s.prod.PStoreTailBlock? == p.PStoreTailBlock?
    requires ProducerKnows(s.mem, p, ring, t)
    ensures Inv(s.(prod := p, mem := s.mem.(largest := largest)), ring, t)
  {
    var m := s.mem.(largest := largest);
    assert IsRing(m, ring, t);
    assert Occupancy(m, ring, t, p.PStoreTailBlock?);
    assert ConsumerKnows(m, s.cons, |s.received|, |s.sent|, ring, t);
  }

  /** The loads of a call up to the point where it leaves the tail block. */
  lemma LoadStepKeeps<T>(s: State<T>, c: Choice<T>, ring: seq<nat>, t: nat)
    requires Inv(s, ring, t)
    requires || s.prod.PReady? || s.prod.PLoadTailBlock? || s.prod.PLoadTail?
             || s.prod.PLoadNext? || s.prod.PLoadFrontBlock?
    ensures ProducerSafe(s) && Inv(ProducerStep(s, c), ring, t)
  {
    assert s.mem.blocks[ring[t]].next == Succ(ring, t);
    var s' := ProducerStep(s, c);
    assert ProducerKnows(s.mem, s'.prod, ring, t);
    LocalFrame(s, s'.prod, s.mem.largest, ring, t);
  }

  /** Allocating a block and reading the link it will take over. */
  lemma AllocateStepKeeps<T>(s: State<T>, c: Choice<T>, ring: seq<nat>, t: nat)
    requires Inv(s, ring, t)
    requires s.prod.PAllocate? || s.prod.PLoadLink?
    ensures ProducerSafe(s) && Inv(ProducerStep(s, c), ring, t)
  {
    assert s.mem.blocks[ring[t]].next == Succ(ring, t);
    var s' := ProducerStep(s, c);
    LocalFrame(s, s'.prod, s'.mem.largest, ring, t);
  }

  /** The loads from the free block ahead. */
  lemma NextStepKeeps<T>(s: State<T>, c: Choice<T>, ring: seq<nat>, t: nat)
    requires Inv(s, ring, t)
    requires s.prod.PReloadNext? || s.prod.PLoadNextTail?
    ensures ProducerSafe(s) && Inv(ProducerStep(s, c), ring, t)
  {
    assert s.mem.blocks[ring[t]].next == Succ(ring, t);
    assert s.mem.blocks[ring[t + 1]].Good();
    var s' := ProducerStep(s, c);
    LocalFrame(s, s'.prod, s.mem.largest, ring, t);
  }

  lemma ProducerKeeps<T>(s: State<T>, c: Choice<T>, ring: seq<nat>, t: nat)
    requires Inv(s, ring, t)
    ensures ProducerSafe(s)
    ensures Inv(ProducerStep(s, c), ProducerRing(s, ring, t), ProducerPos(s, t))
  {
    match s.prod
    case PLoadFront(_, _, _, _) => LoadFrontKeeps(s, c, ring, t);
    case PWriteElement(_, _, _) => WriteElementKeeps(s, c, ring, t);
    case PStoreTail(_, _, _) => StoreTailKeeps(s, c, ring, t);
    case PLoadNextFront(_, _) => LoadNextFrontKeeps(s, c, ring, t);
    case PWriteNext(_, _, _, _) => WriteNextKeeps(s, c, ring, t);
    case PStoreNextTail(_, _, _) => StoreNextTailKeeps(s, c, ring, t);
    case PStoreLink(_, _, _) => StoreLinkKeeps(s, c, ring, t);
    case PStoreTailBlock(_, _) => StoreTailBlockKeeps(s, c, ring, t);
    case PAllocate(_, _) => AllocateStepKeeps(s, c, ring, t);
    case PLoadLink(_, _, _) => AllocateStepKeeps(s, c, ring, t);
    case PReloadNext(_, _) => NextStepKeeps(s, c, ring, t);
    case PLoadNextTail(_, _, _) => NextStepKeeps(s, c, ring, t);
    case _ => LoadStepKeeps(s, c, ring, t);
  }
}
