/** `RecvWorkCompletions`: the credit counter of posted receives, and the preallocated chain of 32
    work requests with which they are posted. */
module Receives {

  const RBATCH: nat := 32
  const WC_SIZE: nat := 32
  const DEFAULT_REFILL_THRESHOLD: nat := 256
  const NULL: int := -1

  function Min(a: int, b: int): int { if a <= b then a else b }

  // ---------------------------------------------------------------------------------------------
  // The chain of work requests
  // ---------------------------------------------------------------------------------------------

  /** The chain as the constructor leaves it: every request links to the next, the last to none. */
  ghost predicate Chained(next: seq<int>) {
    |next| == RBATCH && forall i :: 0 <= i < RBATCH ==> next[i] == if i + 1 == RBATCH then NULL else i + 1
  }

  /** The number of requests that the card finds by following the links from `at`. */
  function ChainLength(next: seq<int>, at: int, fuel: nat): nat
    decreases fuel
  {
    if at < 0 || |next| <= at || fuel == 0 then 0 else 1 + ChainLength(next, next[at], fuel - 1)
  }

  /** Cutting the chain after the first `r` requests leaves `r` of them. */
  lemma {:induction false} CutChain(next: seq<int>, at: nat, r: nat)
    requires at < r <= RBATCH && |next| == RBATCH
    requires forall i :: at <= i < r ==> next[i] == if i + 1 == r then NULL else i + 1
    ensures ChainLength(next, at, RBATCH - at) == r - at
    decreases r - at
  {
    if at + 1 < r { CutChain(next, at + 1, r); }
  }

  // ---------------------------------------------------------------------------------------------
  // The receive queue of the card
  // ---------------------------------------------------------------------------------------------

  /** `outstanding` receives are posted and not yet polled; `room` more will be accepted. */
  class QueuePair {
    var outstanding: nat
    var room: nat

    constructor (depth: nat)
      ensures outstanding == 0 && room == depth
    {
      outstanding, room := 0, depth;
    }

    /** `ibv_post_recv`: posts the chain up to the first request for which there is no room. */
    method PostRecv(next: seq<int>) returns (ret: int)
      modifies this
      ensures var n := ChainLength(next, 0, RBATCH);
              && (ret == 0 <==> n <= old(room))
              && outstanding == old(outstanding) + Min(n, old(room))
              && room == old(room) - Min(n, old(room))
    {
      var n := ChainLength(next, 0, RBATCH);
      ret := if n <= room then 0 else 12;
      var accepted := if n <= room then n else room;
      outstanding, room := outstanding + accepted, room - accepted;
    }
  }

  // ---------------------------------------------------------------------------------------------
  // The credit counter
  // ---------------------------------------------------------------------------------------------

  /** What a call leaves behind: the counter, the receives outstanding, and the room for more. */
  datatype Credits = Credits(size: nat, requests: int, outstanding: nat, room: nat)

  function Threshold(size: nat): nat { if size <= DEFAULT_REFILL_THRESHOLD then size else DEFAULT_REFILL_THRESHOLD }

  /** `refill` counts the receives as posted whether or not posting succeeded. */
  function AfterRefill(c: Credits): Credits {
    if c.requests < Threshold(c.size) then
      var want := c.size - c.requests;
      var posted := if want <= c.room then want else c.room;
      c.(requests := c.size, outstanding := c.outstanding + posted, room := c.room - posted)
    else c
  }

  /** `poll` subtracts what `ibv_poll_cq` returned, even when that is the error code -1. */
  function AfterPoll(c: Credits, ret: int): Credits
    requires -1 <= ret <= c.outstanding
  {
    var n := if ret < 0 then 0 else ret;
    c.(requests := c.requests - ret, outstanding := c.outstanding - n, room := c.room + n)
  }

  class RecvWorkCompletions {
    const rcvBufSize: nat
    const refillThreshold: nat
    var requests: int
    const batchNext: array<int>
    const qp: QueuePair

    ghost predicate Valid()
      reads this, batchNext
    {
      refillThreshold == Threshold(rcvBufSize) && batchNext.Length == RBATCH && Chained(batchNext[..])
    }

    ghost function State(): Credits
      reads this, qp
    {
      Credits(rcvBufSize, requests, qp.outstanding, qp.room)
    }

    /** `given` tells whether the queue pair is passed to the constructor, which then posts receives for
        it; a connection passes null, and sets the queue pair before it does anything else. */
    constructor (size: nat, qp: QueuePair, given: bool)
      modifies qp
      ensures Valid() && this.qp == qp && fresh(batchNext)
      ensures var empty := Credits(size, 0, old(qp.outstanding), old(qp.room));
              State() == if given then AfterRefill(empty) else empty
    {
      rcvBufSize := size;
      refillThreshold := Threshold(size);
      requests := 0;
      this.qp := qp;
      var next := new int[RBATCH];
      var i := 0;
      while i < RBATCH
        modifies next
        invariant 0 <= i <= RBATCH && next.Length == RBATCH && fresh(next)
        invariant forall j :: 0 <= j < i ==> next[j] == j + 1
      {
        next[i] := i + 1;
        i := i + 1;
      }
      next[RBATCH - 1] := NULL;
      batchNext := next;
      new;
      if given {
        var _ := Refill();
      }
    }

    /** Posts the first `r` requests of the chain: it is cut behind them and mended again. */
    method PostPart(r: nat) returns (ret: int)
      requires Valid() && 0 < r < RBATCH
      modifies qp, batchNext
      ensures Valid()
      ensures ret == 0 <==> r <= old(qp.room)
      ensures qp.outstanding == old(qp.outstanding) + Min(r, old(qp.room))
      ensures qp.room == old(qp.room) - Min(r, old(qp.room))
    {
      ghost var whole := batchNext[..];
      batchNext[r - 1] := NULL;
      CutChain(batchNext[..], 0, r);
      ret := qp.PostRecv(batchNext[..]);
      batchNext[r - 1] := r;
      assert batchNext[..] == whole;
    }

    /** `post_batched_empty_recv`: full chains, then a part of one for the remainder. It posts exactly
        `count` receives if there is room for them, and as many as there is room for otherwise. */
    method PostBatchedEmptyRecv(count: nat) returns (ret: int)
      requires Valid()
      modifies qp, batchNext
      ensures Valid()
      ensures qp.outstanding == old(qp.outstanding) + Min(count, old(qp.room))
      ensures qp.room == old(qp.room) - Min(count, old(qp.room))
      ensures ret == if count <= old(qp.room) then count else -1
    {
      var loops := count / RBATCH;
      var reminder := count % RBATCH;
      var status := 0;
      var i := 0;
      ghost var whole := batchNext[..];
      CutChain(whole, 0, RBATCH);
      while i < loops && status == 0
        modifies qp
        invariant 0 <= i <= loops && batchNext[..] == whole
        invariant status == 0 <==> RBATCH * i <= old(qp.room)
        invariant qp.outstanding == old(qp.outstanding) + Min(RBATCH * i, old(qp.room))
        invariant qp.room == old(qp.room) - Min(RBATCH * i, old(qp.room))
      {
        status := qp.PostRecv(batchNext[..]);
        i := i + 1;
      }
      if status == 0 && reminder > 0 {
        status := PostPart(reminder);
      }
      if status != 0 {
        return -1;
      }
      ret := count;
    }

    method Refill() returns (refilled: bool)
      requires Valid()
      modifies this, qp, batchNext
      ensures Valid() && State() == AfterRefill(old(State()))
      ensures refilled == (old(requests) < refillThreshold)
    {
      if requests < refillThreshold {
        var ret := PostBatchedEmptyRecv(rcvBufSize - requests);
        requests := rcvBufSize;
        return true;
      }
      return false;
    }

    /** `initialize`: forgets what was counted and posts a whole buffer. */
    method Initialize()
      requires Valid()
      modifies this, qp, batchNext
      ensures Valid() && State() == AfterRefill(old(State()).(requests := 0))
    {
      requests := 0;
      var _ := Refill();
    }

    /** `ret` is what `ibv_poll_cq` returned for a batch of at most 32. */
    method PollCompletions(ret: int)
      requires Valid() && -1 <= ret <= qp.outstanding && ret <= WC_SIZE
      modifies this, qp
      ensures Valid() && State() == AfterPoll(old(State()), ret)
    {
      if ret > 0 {
        qp.outstanding, qp.room := qp.outstanding - ret, qp.room + ret;
      }
      requests := requests - ret;
    }

    method UpdateRequests(change: int)
      requires Valid()
      modifies this
      ensures Valid() && State() == old(State()).(requests := old(requests) + change)
    {
      requests := requests + change;
    }
  }

  // ---------------------------------------------------------------------------------------------
  // Runs
  // ---------------------------------------------------------------------------------------------

  datatype Op = PollOp(ret: int) | RefillOp

  predicate Possible(c: Credits, op: Op) {
    op.PollOp? ==> -1 <= op.ret <= WC_SIZE && op.ret <= c.outstanding
  }

  function Apply(c: Credits, op: Op): Credits
    requires Possible(c, op)
  {
    match op
    case PollOp(ret) => AfterPoll(c, ret)
    case RefillOp => AfterRefill(c)
  }

  predicate StepAt(run: seq<Credits>, ops: seq<Op>, i: nat)
    requires i < |ops| && |run| == |ops| + 1
  {
    Possible(run[i], ops[i]) && run[i + 1] == Apply(run[i], ops[i])
  }

  /** Every run of polls and refills, failures included, on a queue of any depth, from what the
      constructor leaves for a connection. */
  predicate IsRun(run: seq<Credits>, ops: seq<Op>, size: nat, depth: nat) {
    && |run| == |ops| + 1
    && run[0] == Credits(size, 0, 0, depth)
    && forall i :: 0 <= i < |ops| ==> StepAt(run, ops, i)
  }

  /** An operation that goes wrong: the poll fails, or the refill asks for more than there is room for. */
  predicate Fails(c: Credits, op: Op) {
    match op
    case PollOp(ret) => ret < 0
    case RefillOp => c.requests < Threshold(c.size) && c.room < c.size - c.requests
  }

  predicate FailsAt(run: seq<Credits>, ops: seq<Op>, j: nat)
    requires j < |ops| && |run| == |ops| + 1
  {
    Fails(run[j], ops[j])
  }

  /** The counter never falls behind, and an operation adds to its excess exactly when it fails. */
  lemma ExcessStep(c: Credits, op: Op)
    requires Possible(c, op) && c.outstanding <= c.requests
    ensures var c' := Apply(c, op);
            && c'.size == c.size && c'.outstanding + c'.room == c.outstanding + c.room
            && c'.requests - c'.outstanding >= c.requests - c.outstanding
            && (c'.requests - c'.outstanding == c.requests - c.outstanding <==> !Fails(c, op))
            && (op.PollOp? ==>
                  && c'.requests == c.requests - op.ret
                  && c'.outstanding == c.outstanding - if op.ret < 0 then 0 else op.ret)
            && (op.RefillOp? ==>
                  if c.requests < (if c.size <= 256 then c.size else 256)
                  then c'.requests == c.size && c'.outstanding - c.outstanding == Min(c.size - c.requests, c.room)
                  else c' == c)
  {
  }

  /** In every run the counter is at least the number of receives outstanding, it is exactly that
      number if and only if no poll has failed and no refill has been short of room, and a refill brings
      it to the buffer size if it was below that and below 256, and changes nothing otherwise.  A poll
      takes what it returned off both. */
  lemma {:induction false} CreditsExactIff(run: seq<Credits>, ops: seq<Op>, size: nat, depth: nat, i: nat)
    requires IsRun(run, ops, size, depth) && i < |run|
    ensures run[i].size == size && run[i].outstanding + run[i].room == depth
    ensures run[i].outstanding <= run[i].requests
    ensures run[i].requests == run[i].outstanding <==> forall j :: 0 <= j < i ==> !FailsAt(run, ops, j)
    ensures 0 < i && ops[i - 1].PollOp? && 0 <= ops[i - 1].ret ==>
              && run[i].requests == run[i - 1].requests - ops[i - 1].ret
              && run[i].outstanding == run[i - 1].outstanding - ops[i - 1].ret
    ensures 0 < i && ops[i - 1].RefillOp? ==>
              if run[i - 1].requests < (if size <= 256 then size else 256) then run[i].requests == size
              else run[i] == run[i - 1]
    decreases i
  {
    if 0 < i {
      assert StepAt(run, ops, i - 1);
      CreditsExactIff(run, ops, size, depth, i - 1);
      ExcessStep(run[i - 1], ops[i - 1]);
      assert FailsAt(run, ops, i - 1) == Fails(run[i - 1], ops[i - 1]);
    }
  }

  /** On a queue at least as deep as the buffer and with polls that succeed, nothing fails: the counter
      is the number of receives outstanding, and never more than the buffer holds. */
  lemma {:induction false} CreditsExact(run: seq<Credits>, ops: seq<Op>, size: nat, depth: nat, i: nat)
    requires IsRun(run, ops, size, depth) && i < |run| && size <= depth
    requires forall j :: 0 <= j < i && ops[j].PollOp? ==> 0 <= ops[j].ret
    ensures run[i].requests == run[i].outstanding <= run[i].size == size <= run[i].outstanding + run[i].room
    ensures forall j :: 0 <= j < i ==> !FailsAt(run, ops, j)
    decreases i
  {
    if 0 < i {
      assert StepAt(run, ops, i - 1);
      CreditsExact(run, ops, size, depth, i - 1);
      CreditsExactIff(run, ops, size, depth, i - 1);
      ExcessStep(run[i - 1], ops[i - 1]);
    }
  }

  /** Initializing once more leaves the counter exact if and only if the queue is just as deep as the
      buffer is large, so that the card refuses what is too much, or deeper and nothing was outstanding. */
  lemma ReinitializeExactIff(c: Credits)
    ensures var again, depth := AfterRefill(c.(requests := 0)), c.outstanding + c.room;
            again.requests == again.outstanding <==> depth == c.size || (c.size < depth && c.outstanding == 0)
  {
  }
}
