/** The client object: the methods that register callbacks, and the loop of `poll_queue_once2`. */
module DispatchClient {
  import opened Dispatch
  import opened WireTags

  /** The id in a polled completion. */
  function FinishedId(wire: bv32): nat { UnpackReply(wire).finishedInvocId as nat }

  ghost predicate Registered<T>(c: Client<T>, batch: seq<bv32>) {
    forall i :: 0 <= i < |batch| ==> FinishedId(batch[i]) in c.callbacks
  }

  /** All completions of a batch, in order. */
  ghost function CompleteAll<T>(c: Client<T>, batch: seq<bv32>): (c': Client<T>)
    requires Registered(c, batch)
    ensures c'.callbacks.Keys == c.callbacks.Keys
  {
    if batch == [] then c
    else Complete(CompleteAll(c, batch[..|batch| - 1]), FinishedId(batch[|batch| - 1]))
  }

  lemma CompleteAllStep<T>(c: Client<T>, batch: seq<bv32>, i: nat)
    requires Registered(c, batch) && i < |batch|
    ensures Registered(c, batch[..i]) && Registered(c, batch[..i + 1])
    ensures FinishedId(batch[i]) in CompleteAll(c, batch[..i]).callbacks
    ensures CompleteAll(c, batch[..i + 1]) == Complete(CompleteAll(c, batch[..i]), FinishedId(batch[i]))
  {
    assert batch[..i + 1][..i] == batch[..i];
    assert FinishedId(batch[i]) in c.callbacks.Keys;
  }

  lemma FreeMeansNoClash<T>(c: Client<T>)
    ensures (forall n :: 0 <= n < |c.invocations| && Outstanding(c, n) ==> IdOf(n) != NextId(c.invocId)) <==>
              !Clashes(c)
  {
  }

  class AsyncClient<T> {
    var invocId: nat
    var callbacks: map<nat, Entry<T>>
    var fired: seq<Firing<T>>
    ghost var invocations: seq<Invocation<T>>
    ghost var done: seq<nat>

    ghost function State(): Client<T>
      reads this
    {
      Client(invocId, callbacks, fired, invocations, done)
    }

    constructor ()
      ensures State() == Start() && Inv(State())
    {
      invocId, callbacks, fired := 0, map[], [];
      invocations, done := [], [];
    }

    /** `async_callback` (one reply) and the vector form (one reply per connection). */
    method Async(tag: T, replies: nat) returns (id: nat)
      modifies this
      ensures State() == Invoke(old(State()), tag, replies) && id == NextId(old(invocId))
      ensures id in callbacks && callbacks[id] == Entry(replies, tag)
      ensures old(Inv(State())) ==> id == IdOf(|old(invocations)|) && 1 <= id <= ID_COUNT
      ensures (forall n :: 0 <= n < |old(invocations)| && Outstanding(old(State()), n) ==> IdOf(n) != id) <==>
                !old(Clashes(State()))
      ensures old(Inv(State()) && !Clashes(State())) && 0 < replies ==> Inv(State())
    {
      ghost var c := State();
      NextIdFollows(|invocations|);
      FreeMeansNoClash(c);
      invocId := invocId + 1;
      if invocId == 65536 {
        invocId := 1;
      }
      id := invocId;
      callbacks := callbacks[id := Entry(replies, tag)];
      invocations := invocations + [Invocation(tag, replies, 0)];
      assert State() == Invoke(c, tag, replies);
      if Inv(c) && !Clashes(c) && 0 < replies { InvokeKeeps(c, tag, replies); }
    }

    /** One completion: count it, and run the callback when the count reaches zero. */
    method Dispatch(id: nat)
      requires id in callbacks
      modifies this
      ensures State() == Complete(old(State()), id)
      ensures old(Inv(State())) ==> Inv(State())
    {
      ghost var c := State();
      CompleteFields(c, id);
      var e := callbacks[id];
      callbacks := callbacks[id := e.(count := e.count - 1)];
      if callbacks[id].count == 0 {
        fired := fired + [Firing(id, e.tag)];
      }
      invocations, done := Complete(c, id).invocations, Complete(c, id).done;
      assert State() == Complete(c, id);
      if Inv(c) { CompleteKeeps(c, id); }
    }

    /** `poll_queue_once2`: dispatch a polled batch of immediates. */
    method PollQueueOnce(batch: seq<bv32>)
      requires Registered(State(), batch)
      modifies this
      ensures State() == CompleteAll(old(State()), batch)
      ensures old(Inv(State())) ==> Inv(State())
    {
      ghost var c := State();
      var i := 0;
      assert batch[..0] == [];
      while i < |batch|
        invariant 0 <= i <= |batch| && (Inv(c) ==> Inv(State()))
        invariant State() == CompleteAll(c, batch[..i])
      {
        CompleteAllStep(c, batch, i);
        Dispatch(FinishedId(batch[i]));
        i := i + 1;
      }
      assert batch[..i] == batch;
    }
  }

  /** End to end: the reply that a worker builds from what it decoded of a request, polled by the
      client, is dispatched under the id of that request. */
  lemma ReplyFindsItsRequest(n: nat, id: bv32, solicited: bool, func: bv32)
    requires id as nat == IdOf(n) && func < 0x8000
    ensures FinishedId(PackReply(UnpackRequest(PackRequest(id, solicited, func)).invocId)) == IdOf(n)
  {
    NextIdFollows(n);
    NarrowId(id);
    ReplyRoundTrip(id, solicited, func);
  }

  lemma NarrowId(id: bv32)
    requires id as nat < 0x1_0000
    ensures id < 0x1_0000
  {
  }
}
