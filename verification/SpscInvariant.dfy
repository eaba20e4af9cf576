/** The invariant of the two-thread queue.  `ring` lists the blocks in `next` order starting at the
    front block, and `t` is the position of the tail block in it; neither exists in the program. */
module SpscInvariant {
  import opened Blocks
  import opened Spsc

  function Succ(ring: seq<nat>, i: nat): nat
    requires i < |ring|
  {
    ring[if i + 1 == |ring| then 0 else i + 1]
  }

  /** The block at position `i` of the circle. */
  function At<T>(m: Memory<T>, ring: seq<nat>, i: nat): Block<T>
    requires i < |ring| && AllBelow(ring, |m.blocks|)
  {
    m.blocks[ring[i]]
  }

  ghost predicate Distinct(ring: seq<nat>) {
    forall i, j :: 0 <= i < j < |ring| ==> ring[i] != ring[j]
  }

  /** `ring` is the circle of blocks, and the two block pointers sit at positions 0 and `t`. */
  ghost predicate IsRing<T>(m: Memory<T>, ring: seq<nat>, t: nat) {
    && t < |ring| == |m.blocks|
    && AllBelow(ring, |m.blocks|)
    && Distinct(ring)
    && (forall i {:trigger Succ(ring, i)} :: 0 <= i < |ring| ==> m.blocks[ring[i]].next == Succ(ring, i))
    && m.frontBlock == ring[0]
    && m.tailBlock == ring[t]
  }

  /** Blocks strictly between the front and the tail block are full, the tail block holds something
      unless it is the front block, and the blocks after it are empty; only the block that the
      producer is about to enter (`pending`) already holds an element. */
  ghost predicate Occupancy<T>(m: Memory<T>, ring: seq<nat>, t: nat, pending: bool)
    requires t < |ring| && AllBelow(ring, |m.blocks|)
  {
    && (forall i :: 0 <= i < |ring| ==> m.blocks[ring[i]].Good())
    && (forall i :: 0 < i < t ==> m.blocks[ring[i]].IsFull())
    && (0 < t ==> !m.blocks[ring[t]].IsEmpty())
    && (forall i :: t < i < |ring| && !(pending && i == t + 1) ==> m.blocks[ring[i]].IsEmpty())
  }

  ghost predicate Shape<T>(m: Memory<T>, ring: seq<nat>, t: nat, pending: bool) {
    IsRing(m, ring, t) && Occupancy(m, ring, t, pending)
  }

  /** What the consumer's local variables mean at each point. */
  ghost predicate ConsumerKnows<T>(m: Memory<T>, c: Consumer<T>, received: nat, sent: nat, ring: seq<nat>, t: nat)
    requires IsRing(m, ring, t)
  {
    var front := m.blocks[ring[0]];
    match c
    case CIdle => true
    case CLoadFrontBlock(begun) => begun <= sent
    case CLoadFront(begun, fb) => begun <= sent && fb == ring[0]
    case CLoadTail(begun, fb, bf) => begun <= sent && fb == ring[0] && bf == front.front
    case CLoadTailBlock(begun, fb, bf) => fb == ring[0] && (t == 0 ==> begun <= received)
    case CReloadFrontBlock => 0 < t
    case CReloadTail(fb) => 0 < t && fb == ring[0]
    case CReloadFront(fb, bt) => 0 < t && fb == ring[0] && bt == front.tail == front.localTail
    case CLoadNext(fb) => 0 < t && fb == ring[0] && front.IsEmpty()
    case CLoadNextFront(nb) => 0 < t && nb == ring[1] && front.IsEmpty()
    case CLoadNextTail(nb, nf) => 0 < t && nb == ring[1] && front.IsEmpty() && nf == m.blocks[nb].front
    case CStoreFrontBlock(nb, nf, nt) =>
      0 < t && nb == ring[1] && front.IsEmpty() && nf == m.blocks[nb].front
      && nt == m.blocks[nb].localTail && nf != nt
    case CReadElement(fb, bf) => fb == ring[0] && bf == front.front && front.localTail != front.front
    case CStoreFront(fb, bf, v) =>
      fb == ring[0] && bf == front.front && front.localTail != front.front
      && bf < |front.data| && v == front.data[bf]
  }

  /** The producer has found the tail block full; the consumer can undo that only by reaching it. */
  ghost predicate TailFull<T>(m: Memory<T>, ring: seq<nat>, t: nat)
    requires IsRing(m, ring, t)
  {
    0 < t ==> m.blocks[ring[t]].IsFull()
  }

  /** What the producer's local variables mean at each point. */
  ghost predicate ProducerKnows<T>(m: Memory<T>, p: Producer<T>, ring: seq<nat>, t: nat)
    requires IsRing(m, ring, t)
  {
    var tail := m.blocks[ring[t]];
    match p
    case PReady => true
    case PLoadTailBlock(x, _) => true
    case PLoadTail(_, _, tb) => tb == ring[t]
    case PLoadFront(_, _, tb, bt) => tb == ring[t] && bt == tail.tail
    case PWriteElement(_, tb, bt) => tb == ring[t] && bt == tail.tail && tail.HasRoom()
    case PStoreTail(x, tb, bt) =>
      tb == ring[t] && bt == tail.tail && tail.HasRoom() && bt < |tail.data| && tail.data[bt] == x
    case PLoadNext(_, _, tb, _) => tb == ring[t] && TailFull(m, ring, t)
    case PLoadFrontBlock(_, _, tb, nx, _) => tb == ring[t] && TailFull(m, ring, t) && nx == Succ(ring, t)
    case PReloadNext(_, tb) => tb == ring[t] && TailFull(m, ring, t) && t + 1 < |ring|
    case PLoadNextFront(_, nx) => TailFull(m, ring, t) && t + 1 < |ring| && nx == ring[t + 1]
    case PLoadNextTail(_, nx, nf) =>
      TailFull(m, ring, t) && t + 1 < |ring| && nx == ring[t + 1] && nf == m.blocks[nx].front == m.blocks[nx].localFront
    case PWriteNext(_, nx, nf, nt) =>
      TailFull(m, ring, t) && t + 1 < |ring| && nx == ring[t + 1]
      && nf == m.blocks[nx].front == m.blocks[nx].localFront && nt == m.blocks[nx].tail
    case PStoreNextTail(x, nx, nt) =>
      TailFull(m, ring, t) && t + 1 < |ring| && nx == ring[t + 1] && nt == m.blocks[nx].tail
      && m.blocks[nx].front == m.blocks[nx].localFront && nt < |m.blocks[nx].data| && m.blocks[nx].data[nt] == x
    case PAllocate(_, tb) => tb == ring[t] && TailFull(m, ring, t)
    case PLoadLink(_, tb, memory) => tb == ring[t] && TailFull(m, ring, t) && 2 <= |memory|
    case PStoreLink(x, tb, node) =>
      tb == ring[t] && TailFull(m, ring, t) && 2 <= |node.data|
      && node == Block(0, 1, 1, 0, Succ(ring, t), node.data) && node.data[0] == x
    case PStoreTailBlock(x, nx) =>
      TailFull(m, ring, t) && t + 1 < |ring| && nx == ring[t + 1]
      && m.blocks[nx].Contents() == [x] && !m.blocks[nx].IsEmpty()
  }

  /** Dequeued elements followed by the stored ones are the enqueued ones. */
  ghost predicate Logs<T>(s: State<T>, ring: seq<nat>, t: nat)
    requires IsRing(s.mem, ring, t)
  {
    s.received + Flat(s.mem.blocks, ring[..t + 1]) == s.sent
  }

  ghost predicate Inv<T>(s: State<T>, ring: seq<nat>, t: nat) {
    && Shape(s.mem, ring, t, s.prod.PStoreTailBlock?)
    && 2 <= s.mem.largest
    && ConsumerKnows(s.mem, s.cons, |s.received|, |s.sent|, ring, t)
    && ProducerKnows(s.mem, s.prod, ring, t)
    && Logs(s, ring, t)
  }

  // ---------------------------------------------------------------------------------------------
  // How the circle changes
  // ---------------------------------------------------------------------------------------------

  function ConsumerRing<T>(s: State<T>, ring: seq<nat>): seq<nat>
    requires 0 < |ring|
  {
    if s.cons.CStoreFrontBlock? then ring[1..] + [ring[0]] else ring
  }

  function ConsumerPos<T>(s: State<T>, t: nat): int {
    if s.cons.CStoreFrontBlock? then t - 1 else t
  }

  function ProducerRing<T>(s: State<T>, ring: seq<nat>, t: nat): seq<nat>
    requires t < |ring|
  {
    if s.prod.PStoreLink? then ring[..t + 1] + [|s.mem.blocks|] + ring[t + 1..] else ring
  }

  function ProducerPos<T>(s: State<T>, t: nat): nat {
    if s.prod.PStoreTailBlock? then t + 1 else t
  }

  // ---------------------------------------------------------------------------------------------
  // Replacing one block
  // ---------------------------------------------------------------------------------------------

  /** Replacing the block at one position by a good one that is linked the same way keeps the
      circle; emptiness and fullness need care only where the invariant speaks of them. */
  lemma ReplaceKeepsShape<T>(m: Memory<T>, ring: seq<nat>, t: nat, pending: bool, pending': bool, k: nat, b: Block<T>)
    requires Shape(m, ring, t, pending) && k < |ring|
    requires b.Good() && b.next == m.blocks[ring[k]].next
    requires 0 < k < t ==> b.IsFull()
    requires 0 < k == t ==> !b.IsEmpty()
    requires t < k && !(pending' && k == t + 1) ==> b.IsEmpty()
    requires pending ==> pending' || k == t + 1
    ensures Shape(WithBlock(m, ring[k], b), ring, t, pending')
  {
    var m' := WithBlock(m, ring[k], b);
    forall i | 0 <= i < |ring| ensures m'.blocks[ring[i]] == if i == k then b else m.blocks[ring[i]] {}
    assert IsRing(m', ring, t);
  }

  /** Replacing a block by one with the same contents changes nothing in the queue. */
  lemma ReplaceKeepsFlat<T>(m: Memory<T>, ring: seq<nat>, t: nat, k: nat, b: Block<T>)
    requires IsRing(m, ring, t) && k < |ring|
    requires k <= t ==> b.Contents() == m.blocks[ring[k]].Contents()
    ensures Flat(m.blocks[ring[k] := b], ring[..t + 1]) == Flat(m.blocks, ring[..t + 1])
  {
    FlatFrame(m.blocks, m.blocks[ring[k] := b], ring[..t + 1]);
  }
}
