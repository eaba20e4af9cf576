/** The parallel `execute`: one invocation on every connection, all replies polled from the completion
    queue that the connections share, and the credits put right afterwards. */
module ParallelExecute {
  import opened Receives

  /** A polled completion: the connection whose receive it took, and the value returned. */
  datatype Reply = Reply(owner: nat, value: int)

  /** The number of replies that took a receive of connection `i`. */
  function Count(replies: seq<Reply>, i: nat): nat {
    if replies == [] then 0 else Count(replies[1..], i) + if replies[0].owner == i then 1 else 0
  }

  function Flat(batches: seq<seq<Reply>>): seq<Reply> {
    if batches == [] then [] else batches[0] + Flat(batches[1..])
  }

  lemma {:induction false} CountConcat(a: seq<Reply>, b: seq<Reply>, i: nat)
    ensures Count(a + b, i) == Count(a, i) + Count(b, i)
  {
    if a == [] {
      assert a + b == b;
    } else {
      assert (a + b)[1..] == a[1..] + b;
      CountConcat(a[1..], b, i);
    }
  }

  lemma CountOne(reply: Reply)
    ensures forall i :: Count([reply], i) == if reply.owner == i then 1 else 0
  {
    assert [reply][1..] == [];
  }

  lemma CountNext(replies: seq<Reply>, k: nat, i: nat)
    requires k < |replies|
    ensures Count(replies[..k + 1], i) == Count(replies[..k], i) + if replies[k].owner == i then 1 else 0
    ensures Count(replies[..k + 1], i) <= Count(replies, i)
  {
    assert replies[..k + 1] == replies[..k] + [replies[k]];
    CountConcat(replies[..k], [replies[k]], i);
    assert replies == replies[..k + 1] + replies[k + 1..];
    CountConcat(replies[..k + 1], replies[k + 1..], i);
  }

  lemma {:induction false} FlatPrefix(batches: seq<seq<Reply>>, k: nat)
    requires k < |batches|
    ensures Flat(batches[..k + 1]) == Flat(batches[..k]) + batches[k]
  {
    if k == 0 {
      assert batches[..1][1..] == [];
      assert Flat(batches[..1]) == batches[0] + Flat([]);
    } else {
      assert batches[..k + 1][1..] == batches[1..][..k];
      assert batches[..k][1..] == batches[1..][..k - 1];
      FlatPrefix(batches[1..], k - 1);
    }
  }

  lemma {:induction false} FlatWithin(batches: seq<seq<Reply>>, k: nat)
    requires k <= |batches|
    ensures Flat(batches) == Flat(batches[..k]) + Flat(batches[k..])
  {
    if k == 0 {
      assert batches[0..] == batches;
    } else {
      FlatWithin(batches, k - 1);
      FlatPrefix(batches, k - 1);
      assert batches[k - 1..][1..] == batches[k..];
    }
  }

  // ---------------------------------------------------------------------------------------------
  // The state of the connections, as values
  // ---------------------------------------------------------------------------------------------

  /** The counter is what is outstanding, and the queue is deep enough for the buffer. */
  predicate Exact(c: Credits) {
    c.requests == c.outstanding <= c.size <= c.outstanding + c.room
  }

  /** Replies take receives that are outstanding, on connections that exist. */
  predicate Deliverable(cs: seq<Credits>, replies: seq<Reply>) {
    && (forall k :: 0 <= k < |replies| ==> replies[k].owner < |cs|)
    && (forall i :: 0 <= i < |cs| ==> Count(replies, i) <= cs[i].outstanding)
  }

  function Taken(c: Credits, n: nat): Credits
    requires n <= c.outstanding
  {
    c.(outstanding := c.outstanding - n, room := c.room + n)
  }

  function TakeAll(cs: seq<Credits>, replies: seq<Reply>): (r: seq<Credits>)
    requires Deliverable(cs, replies)
    ensures |r| == |cs|
  {
    seq(|cs|, i requires 0 <= i < |cs| => Taken(cs[i], Count(replies, i)))
  }

  lemma TakeNone(cs: seq<Credits>)
    ensures Deliverable(cs, []) && TakeAll(cs, []) == cs
  {
  }

  lemma TakeNext(cs: seq<Credits>, replies: seq<Reply>, k: nat)
    requires k < |replies| && Deliverable(cs, replies) && Deliverable(cs, replies[..k])
    ensures Deliverable(cs, replies[..k + 1]) && Deliverable(TakeAll(cs, replies[..k]), [replies[k]])
    ensures TakeAll(TakeAll(cs, replies[..k]), [replies[k]]) == TakeAll(cs, replies[..k + 1])
  {
    forall i | 0 <= i < |cs|
      ensures Count([replies[k]], i) == if replies[k].owner == i then 1 else 0
      ensures Count(replies[..k + 1], i) == Count(replies[..k], i) + Count([replies[k]], i) <= Count(replies, i)
    {
      CountNext(replies, k, i);
    }
  }

  /** What taking the replies leaves of connection `i`, when every poll is charged to connection 0. */
  function Polled(c: Credits, i: nat, replies: seq<Reply>): Credits
    requires Count(replies, i) <= c.outstanding
  {
    Taken(c, Count(replies, i)).(requests := c.requests - (if i == 0 then |replies| else 0))
  }

  function Rebalanced(c: Credits, i: nat, numcores: nat): Credits {
    c.(requests := c.requests + (if i == 0 then numcores - 1 else -1))
  }

  /** One parallel execution, as it changes connection `i`. */
  function Executed(c: Credits, i: nat, numcores: nat, replies: seq<Reply>): Credits
    requires Count(replies, i) <= AfterRefill(c).outstanding
  {
    Rebalanced(Polled(AfterRefill(c), i, replies), i, numcores)
  }

  /** The counter of a connection is exact again if and only if it answered exactly once. */
  lemma ExecutedExactIff(c: Credits, i: nat, numcores: nat, replies: seq<Reply>)
    requires Exact(c) && Count(replies, i) <= AfterRefill(c).outstanding && |replies| == numcores
    ensures Exact(Executed(c, i, numcores, replies)) <==> Count(replies, i) == 1
  {
  }

  // ---------------------------------------------------------------------------------------------
  // Runs of executions
  // ---------------------------------------------------------------------------------------------

  function RefillAll(cs: seq<Credits>): (r: seq<Credits>)
    ensures |r| == |cs|
  {
    seq(|cs|, i requires 0 <= i < |cs| => AfterRefill(cs[i]))
  }

  function PollAll(cs: seq<Credits>, replies: seq<Reply>): (r: seq<Credits>)
    requires Deliverable(cs, replies)
    ensures |r| == |cs|
  {
    seq(|cs|, i requires 0 <= i < |cs| => Polled(cs[i], i, replies))
  }

  function RebalanceAll(cs: seq<Credits>): (r: seq<Credits>)
    ensures |r| == |cs|
  {
    seq(|cs|, i requires 0 <= i < |cs| => Rebalanced(cs[i], i, |cs|))
  }

  function ExecuteAll(cs: seq<Credits>, replies: seq<Reply>): (r: seq<Credits>)
    requires Deliverable(RefillAll(cs), replies)
    ensures |r| == |cs|
  {
    RebalanceAll(PollAll(RefillAll(cs), replies))
  }

  lemma ExecuteAllIsExecuted(cs: seq<Credits>, replies: seq<Reply>, i: nat)
    requires Deliverable(RefillAll(cs), replies) && i < |cs|
    ensures RefillAll(cs)[i] == AfterRefill(cs[i])
    ensures ExecuteAll(cs, replies)[i] == Executed(cs[i], i, |cs|, replies)
  {
    assert RefillAll(cs)[i] == AfterRefill(cs[i]);
    assert PollAll(RefillAll(cs), replies)[i] == Polled(AfterRefill(cs[i]), i, replies);
  }

  lemma PollNone(cs: seq<Credits>)
    ensures Deliverable(cs, []) && PollAll(cs, []) == cs
  {
  }

  /** How the replies are divided into batches makes no difference. */
  lemma PollAllConcat(cs: seq<Credits>, a: seq<Reply>, b: seq<Reply>)
    requires Deliverable(cs, a) && Deliverable(cs, a + b)
    requires forall k :: 0 <= k < |b| ==> b[k].owner < |cs|
    ensures Deliverable(PollAll(cs, a), b)
    ensures PollAll(PollAll(cs, a), b) == PollAll(cs, a + b)
  {
    forall i | 0 <= i < |cs|
      ensures Count(a + b, i) == Count(a, i) + Count(b, i)
    {
      CountConcat(a, b, i);
    }
  }

  predicate AllExact(cs: seq<Credits>) {
    forall i :: 0 <= i < |cs| ==> Exact(cs[i])
  }

  /** No other invocation is outstanding: every connection answers the one it was sent. */
  predicate OneEach(numcores: nat, replies: seq<Reply>) {
    forall i :: 0 <= i < numcores ==> Count(replies, i) == 1
  }

  /** After a parallel execution every counter is exact if and only if every connection answered once. */
  lemma RebalancedIff(cs: seq<Credits>, replies: seq<Reply>)
    requires AllExact(cs) && Deliverable(RefillAll(cs), replies) && |replies| == |cs|
    ensures AllExact(ExecuteAll(cs, replies)) <==> OneEach(|cs|, replies)
  {
    var after := ExecuteAll(cs, replies);
    forall i | 0 <= i < |cs|
      ensures Exact(after[i]) <==> Count(replies, i) == 1
    {
      ExecuteAllIsExecuted(cs, replies, i);
      ExecutedExactIff(cs[i], i, |cs|, replies);
    }
  }

  predicate ExecutionAt(run: seq<seq<Credits>>, replies: seq<seq<Reply>>, k: nat)
    requires k < |replies| && |run| == |replies| + 1
  {
    && Deliverable(RefillAll(run[k]), replies[k])
    && |replies[k]| == |run[k]|
    && OneEach(|run[k]|, replies[k])
    && run[k + 1] == ExecuteAll(run[k], replies[k])
  }

  /** Any number of parallel executions leaves every counter exact. */
  lemma {:induction false} ManyExecutionsExact(run: seq<seq<Credits>>, replies: seq<seq<Reply>>, k: nat)
    requires |run| == |replies| + 1 && k < |run|
    requires AllExact(run[0])
    requires forall j :: 0 <= j < |replies| ==> ExecutionAt(run, replies, j)
    ensures AllExact(run[k]) && |run[k]| == |run[0]|
    decreases k
  {
    if 0 < k {
      ManyExecutionsExact(run, replies, k - 1);
      assert ExecutionAt(run, replies, k - 1);
      RebalancedIff(run[k - 1], replies[k - 1]);
    }
  }

  predicate AllZero(replies: seq<Reply>) {
    forall k :: 0 <= k < |replies| ==> replies[k].value == 0
  }

  lemma AllZeroConcat(a: seq<Reply>, b: seq<Reply>)
    ensures AllZero(a + b) <==> AllZero(a) && AllZero(b)
  {
    if AllZero(a + b) {
      forall k | 0 <= k < |a| ensures a[k].value == 0 { assert (a + b)[k] == a[k]; }
      forall k | 0 <= k < |b| ensures b[k].value == 0 { assert (a + b)[|a| + k] == b[k]; }
    }
  }

  /** What the next batch may take is what the earlier ones have left. */
  lemma NextBatch(cs: seq<Credits>, batches: seq<seq<Reply>>, k: nat)
    requires k < |batches| && Deliverable(cs, Flat(batches))
    ensures Flat(batches[..k + 1]) == Flat(batches[..k]) + batches[k]
    ensures Deliverable(cs, Flat(batches[..k + 1]))
    ensures forall j :: 0 <= j < |batches[k]| ==> batches[k][j].owner < |cs|
    ensures AllZero(Flat(batches[..k + 1])) <==> AllZero(Flat(batches[..k])) && AllZero(batches[k])
  {
    var before, all := Flat(batches[..k]), Flat(batches);
    var next, rest := Flat(batches[..k + 1]), Flat(batches[k + 1..]);
    FlatPrefix(batches, k);
    FlatWithin(batches, k + 1);
    AllZeroConcat(before, batches[k]);
    forall i | 0 <= i < |cs|
      ensures Count(next, i) == Count(before, i) + Count(batches[k], i) <= cs[i].outstanding
    {
      CountConcat(before, batches[k], i);
      CountConcat(next, rest, i);
    }
    forall j | 0 <= j < |next| ensures next[j].owner < |cs| { assert all[j] == next[j]; }
    forall j | 0 <= j < |batches[k]| ensures batches[k][j].owner < |cs| { assert next[|before| + j] == batches[k][j]; }
  }

  lemma PollNextBatch(cs: seq<Credits>, batches: seq<seq<Reply>>, k: nat)
    requires k < |batches| && Deliverable(cs, Flat(batches)) && Deliverable(cs, Flat(batches[..k]))
    ensures Deliverable(cs, Flat(batches[..k + 1])) && Deliverable(PollAll(cs, Flat(batches[..k])), batches[k])
    ensures PollAll(PollAll(cs, Flat(batches[..k])), batches[k]) == PollAll(cs, Flat(batches[..k + 1]))
    ensures |Flat(batches[..k + 1])| == |Flat(batches[..k])| + |batches[k]|
    ensures AllZero(Flat(batches[..k + 1])) <==> AllZero(Flat(batches[..k])) && AllZero(batches[k])
  {
    NextBatch(cs, batches, k);
    PollAllConcat(cs, Flat(batches[..k]), batches[k]);
  }

  method BatchCorrect(batch: seq<Reply>) returns (correct: bool)
    ensures correct <==> AllZero(batch)
  {
    correct := true;
    for i := 0 to |batch|
      invariant correct <==> AllZero(batch[..i])
    {
      correct := correct && batch[i].value == 0;
      assert batch[..i + 1] == batch[..i] + [batch[i]];
      AllZeroConcat(batch[..i], [batch[i]]);
    }
    assert batch[..|batch|] == batch;
  }

  // ---------------------------------------------------------------------------------------------
  // The code
  // ---------------------------------------------------------------------------------------------

  class ParallelClient {
    const connections: seq<RecvWorkCompletions>

    constructor (connections: seq<RecvWorkCompletions>)
      ensures this.connections == connections
    {
      this.connections := connections;
    }

    /** Every connection has a queue pair and a chain of its own. */
    ghost predicate Separate() {
      forall i, j :: 0 <= i < j < |connections| ==>
        && connections[i] != connections[j]
        && connections[i].qp != connections[j].qp
        && connections[i].batchNext != connections[j].batchNext
    }

    ghost predicate Valid()
      reads connections, set c <- connections :: c.batchNext
    {
      Separate() && forall c <- connections :: c.Valid()
    }

    ghost function States(): (cs: seq<Credits>)
      reads connections, set c <- connections :: c.qp
      ensures |cs| == |connections|
      ensures forall i :: 0 <= i < |cs| ==> cs[i] == connections[i].State()
    {
      seq(|connections|, i requires 0 <= i < |connections| reads connections, set c <- connections :: c.qp =>
        connections[i].State())
    }

    /** The card takes a receive of one connection. */
    method Take(reply: Reply)
      requires Valid() && Deliverable(States(), [reply])
      modifies set c <- connections :: c.qp
      ensures Valid() && States() == TakeAll(old(States()), [reply])
    {
      ghost var was := States();
      assert [reply][0] == reply;
      CountOne(reply);
      var qp := connections[reply.owner].qp;
      qp.outstanding, qp.room := qp.outstanding - 1, qp.room + 1;
      forall i | 0 <= i < |connections|
        ensures connections[i].State() == TakeAll(was, [reply])[i]
      {
        assert i != reply.owner ==> connections[i].qp != qp;
      }
    }

    method TakeEvery(batch: seq<Reply>)
      requires Valid() && Deliverable(States(), batch)
      modifies set c <- connections :: c.qp
      ensures Valid() && States() == TakeAll(old(States()), batch)
    {
      ghost var was := States();
      TakeNone(was);
      var k := 0;
      while k < |batch|
        invariant 0 <= k <= |batch| && Valid()
        invariant Deliverable(was, batch[..k]) && States() == TakeAll(was, batch[..k])
      {
        TakeNext(was, batch, k);
        Take(batch[k]);
        k := k + 1;
      }
      assert batch[..k] == batch;
    }

    /** The poll on connection 0: every reply has taken a receive of its owner. */
    method PollShared(batch: seq<Reply>)
      requires Valid() && |connections| > 0 && Deliverable(States(), batch)
      modifies connections, set c <- connections :: c.qp
      ensures Valid() && States() == PollAll(old(States()), batch)
    {
      ghost var was := States();
      TakeEvery(batch);
      ghost var taken := States();
      connections[0].UpdateRequests(-|batch|);
      forall i | 0 <= i < |connections|
        ensures connections[i].State() == PollAll(was, batch)[i]
      {
        assert i != 0 ==> connections[i].State() == taken[i];
      }
    }

    method RefillEvery()
      requires Valid()
      modifies connections, (set c <- connections :: c.qp), (set c <- connections :: c.batchNext)
      ensures Valid() && States() == RefillAll(old(States()))
    {
      ghost var was := States();
      var i := 0;
      while i < |connections|
        invariant 0 <= i <= |connections| && Valid()
        invariant forall j :: 0 <= j < |connections| ==>
          connections[j].State() == if j < i then AfterRefill(was[j]) else was[j]
      {
        var _ := connections[i].Refill();
        i := i + 1;
      }
    }

    /** Connection 0 gets back what it was charged for the others, and they are charged. */
    method RebalanceEvery()
      requires Valid() && |connections| > 0
      modifies connections
      ensures Valid() && States() == RebalanceAll(old(States()))
    {
      ghost var was := States();
      connections[0].UpdateRequests(|connections| - 1);
      var i := 1;
      while i < |connections|
        invariant 1 <= i <= |connections| && Valid()
        invariant forall j :: 0 <= j < |connections| ==>
          connections[j].State() == if j < i then Rebalanced(was[j], j, |connections|) else was[j]
      {
        connections[i].UpdateRequests(-1);
        i := i + 1;
      }
    }

    /** The replies come in batches of any shape.  The loop counts down from the number of connections
        and ends when some of the batches have brought exactly that many. */
    method PollReplies(batches: seq<seq<Reply>>) returns (correct: bool, polled: nat)
      requires Valid() && |connections| > 0 && Deliverable(States(), Flat(batches))
      requires exists k :: 0 <= k <= |batches| && |Flat(batches[..k])| == |connections|
      modifies connections, set c <- connections :: c.qp
      ensures Valid() && polled <= |batches| && |Flat(batches[..polled])| == |connections|
      ensures Deliverable(old(States()), Flat(batches[..polled]))
      ensures States() == PollAll(old(States()), Flat(batches[..polled]))
      ensures correct <==> AllZero(Flat(batches[..polled]))
    {
      ghost var was := States();
      ghost var enough :| 0 <= enough <= |batches| && |Flat(batches[..enough])| == |connections|;
      var expected := |connections|;
      correct, polled := true, 0;
      PollNone(was);
      while expected != 0
        invariant polled <= enough && Valid()
        invariant expected == |connections| - |Flat(batches[..polled])|
        invariant Deliverable(was, Flat(batches[..polled])) && States() == PollAll(was, Flat(batches[..polled]))
        invariant correct <==> AllZero(Flat(batches[..polled]))
        decreases enough - polled
      {
        PollNextBatch(was, batches, polled);
        PollShared(batches[polled]);
        var ok := BatchCorrect(batches[polled]);
        correct := correct && ok;
        expected := expected - |batches[polled]|;
        polled := polled + 1;
      }
    }

    method Execute(batches: seq<seq<Reply>>) returns (correct: bool, polled: nat)
      requires Valid() && |connections| > 0 && Deliverable(RefillAll(States()), Flat(batches))
      requires exists k :: 0 <= k <= |batches| && |Flat(batches[..k])| == |connections|
      modifies connections, (set c <- connections :: c.qp), (set c <- connections :: c.batchNext)
      ensures Valid() && polled <= |batches| && |Flat(batches[..polled])| == |connections|
      ensures Deliverable(RefillAll(old(States())), Flat(batches[..polled]))
      ensures States() == ExecuteAll(old(States()), Flat(batches[..polled]))
      ensures correct <==> AllZero(Flat(batches[..polled]))
    {
      RefillEvery();
      correct, polled := PollReplies(batches);
      RebalanceEvery();
    }
  }
}
