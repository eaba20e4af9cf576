/** Runs in which calls may clash: a reply comes from an invocation, and the program counts it under
    whatever is registered for that invocation's id by then. */
module DispatchClash {
  import opened Dispatch

  /** The latest of the first `made` invocations that has the id of invocation `n`. */
  function Holder(made: nat, n: nat): nat
    decreases made - n
  {
    if n + ID_COUNT < made then Holder(made, n + ID_COUNT) else n
  }

  lemma SameId(n: nat)
    ensures IdOf(n + ID_COUNT) == IdOf(n)
  {
    IdsClashIff(n, n + ID_COUNT);
  }

  lemma {:induction false} HolderIsLatest(made: nat, n: nat)
    requires n < made
    ensures n <= Holder(made, n) < made <= Holder(made, n) + ID_COUNT && IdOf(Holder(made, n)) == IdOf(n)
    decreases made - n
  {
    if n + ID_COUNT < made {
      SameId(n);
      HolderIsLatest(made, n + ID_COUNT);
    }
  }

  /** A call takes over the ids that are its own. */
  lemma {:induction false} HolderStep(k: nat, n: nat)
    requires n < k
    ensures Holder(k + 1, n) == if IdOf(n) == IdOf(k) then k else Holder(k, n)
    decreases k - n
  {
    if n + ID_COUNT < k {
      SameId(n);
      HolderStep(k, n + ID_COUNT);
    } else {
      IdsClashIff(n, k);
    }
  }

  // ---------------------------------------------------------------------------------------------
  // Runs
  // ---------------------------------------------------------------------------------------------

  datatype CallEvent<T> = Called(tag: T, replies: nat) | Replied(n: nat)

  /** Invocation `n` is answered.  The callback that the program fires, if it fires one, is that of the
      invocation that holds the id. */
  function ReplyFrom<T>(c: Client<T>, n: nat): Client<T>
    requires n < |c.invocations| && IdOf(n) in c.callbacks
  {
    var id := IdOf(n);
    Count(c, id).(invocations := c.invocations[n := c.invocations[n].(got := c.invocations[n].got + 1)],
                  done := if c.callbacks[id].count == 1 then c.done + [Holder(|c.invocations|, n)] else c.done)
  }

  /** Calls that expect a reply, clashing or not, and replies that are still owed. */
  predicate Possible<T>(c: Client<T>, e: CallEvent<T>) {
    match e
    case Called(_, replies) => 0 < replies
    case Replied(n) => Outstanding(c, n) && IdOf(n) in c.callbacks
  }

  function After<T>(c: Client<T>, e: CallEvent<T>): Client<T>
    requires Possible(c, e)
  {
    match e
    case Called(tag, replies) => Invoke(c, tag, replies)
    case Replied(n) => ReplyFrom(c, n)
  }

  ghost predicate EventAt<T>(run: seq<Client<T>>, events: seq<CallEvent<T>>, i: nat)
    requires i < |events| && |run| == |events| + 1
  {
    Possible(run[i], events[i]) && run[i + 1] == After(run[i], events[i])
  }

  ghost predicate IsCallRun<T>(run: seq<Client<T>>, events: seq<CallEvent<T>>) {
    && |run| == |events| + 1
    && run[0] == Start()
    && forall i :: 0 <= i < |events| ==> EventAt(run, events, i)
  }

  ghost predicate ClashAt<T>(run: seq<Client<T>>, events: seq<CallEvent<T>>, i: nat)
    requires i < |events| && |run| == |events| + 1
  {
    events[i].Called? && Clashes(run[i])
  }

  ghost predicate NoClashBefore<T>(run: seq<Client<T>>, events: seq<CallEvent<T>>, k: nat)
    requires k <= |events| && |run| == |events| + 1
  {
    forall i :: 0 <= i < k ==> !ClashAt(run, events, i)
  }

  // ---------------------------------------------------------------------------------------------
  // What is registered, and what fires
  // ---------------------------------------------------------------------------------------------

  ghost predicate Registered<T>(c: Client<T>) {
    && c.invocId == (if c.invocations == [] then 0 else IdOf(|c.invocations| - 1))
    && (forall n :: 0 <= n < |c.invocations| ==>
          IdOf(n) in c.callbacks && Holder(|c.invocations|, n) < |c.invocations|
          && c.callbacks[IdOf(n)].tag == c.invocations[Holder(|c.invocations|, n)].tag)
  }

  /** What has fired are the callbacks of the invocations in `done`. */
  ghost predicate Fired<T>(c: Client<T>) {
    && |c.fired| == |c.done|
    && forall j :: 0 <= j < |c.done| ==>
         c.done[j] < |c.invocations| && c.fired[j] == Firing(IdOf(c.done[j]), c.invocations[c.done[j]].tag)
  }

  lemma CallKeepsRegistered<T>(c: Client<T>, tag: T, replies: nat)
    requires Registered(c) && Fired(c)
    ensures Registered(Invoke(c, tag, replies)) && Fired(Invoke(c, tag, replies))
  {
    var k, c' := |c.invocations|, Invoke(c, tag, replies);
    NextIdFollows(k);
    forall n | 0 <= n < |c'.invocations|
      ensures IdOf(n) in c'.callbacks && Holder(k + 1, n) < k + 1
      ensures c'.callbacks[IdOf(n)].tag == c'.invocations[Holder(k + 1, n)].tag
    {
      HolderIsLatest(k + 1, n);
      if n < k { HolderStep(k, n); }
    }
  }

  lemma ReplyKeepsRegistered<T>(c: Client<T>, n: nat)
    requires Registered(c) && Fired(c) && n < |c.invocations|
    ensures Registered(ReplyFrom(c, n)) && Fired(ReplyFrom(c, n))
  {
    var c' := ReplyFrom(c, n);
    forall m | 0 <= m < |c.invocations| ensures c'.invocations[m].tag == c.invocations[m].tag { }
    forall m | 0 <= m < |c.invocations|
      ensures IdOf(m) in c'.callbacks
      ensures c'.callbacks[IdOf(m)].tag == c'.invocations[Holder(|c.invocations|, m)].tag
    {
      assert c'.callbacks[IdOf(m)].tag == c.callbacks[IdOf(m)].tag;
    }
    ReplyFires(c, n);
  }

  lemma ReplyFires<T>(c: Client<T>, n: nat)
    requires Registered(c) && Fired(c) && n < |c.invocations|
    ensures Fired(ReplyFrom(c, n))
  {
    var c', h := ReplyFrom(c, n), Holder(|c.invocations|, n);
    HolderIsLatest(|c.invocations|, n);
    forall m | 0 <= m < |c.invocations| ensures c'.invocations[m].tag == c.invocations[m].tag { }
    assert c'.fired == c.fired || c'.fired == c.fired + [Firing(IdOf(h), c.invocations[h].tag)];
  }

  lemma {:induction false} RunIsRegistered<T>(run: seq<Client<T>>, events: seq<CallEvent<T>>, i: nat)
    requires IsCallRun(run, events) && i < |run|
    ensures Registered(run[i]) && Fired(run[i])
    decreases i
  {
    if 0 < i {
      RunIsRegistered(run, events, i - 1);
      assert EventAt(run, events, i - 1);
      match events[i - 1]
      case Called(tag, replies) => CallKeepsRegistered(run[i - 1], tag, replies);
      case Replied(n) => ReplyKeepsRegistered(run[i - 1], n);
    }
  }

  // ---------------------------------------------------------------------------------------------
  // Before the first clash
  // ---------------------------------------------------------------------------------------------

  /** As long as there was no clash, an invocation that is owed a reply holds its id. */
  lemma ReplyIsComplete<T>(c: Client<T>, n: nat)
    requires Inv(c) && Outstanding(c, n) && IdOf(n) in c.callbacks
    ensures ReplyFrom(c, n) == Complete(c, IdOf(n))
  {
    var o := Owner(c, IdOf(n), |c.invocations|);
    OwnerIsOutstanding(c, IdOf(n), |c.invocations|);
    IdsDistinct(c, n, o);
  }

  lemma {:induction false} UnclashedInvariant<T>(run: seq<Client<T>>, events: seq<CallEvent<T>>, i: nat)
    requires IsCallRun(run, events) && i < |run| && NoClashBefore(run, events, i)
    ensures Inv(run[i])
    decreases i
  {
    if 0 < i {
      UnclashedInvariant(run, events, i - 1);
      assert EventAt(run, events, i - 1) && !ClashAt(run, events, i - 1);
      match events[i - 1]
      case Called(tag, replies) => InvokeKeeps(run[i - 1], tag, replies);
      case Replied(n) =>
        ReplyIsComplete(run[i - 1], n);
        CompleteKeeps(run[i - 1], IdOf(n));
    }
  }

  // ---------------------------------------------------------------------------------------------
  // After it
  // ---------------------------------------------------------------------------------------------

  /** Invocation `n` has lost its id, and its callback has not fired. */
  ghost predicate Overwritten<T>(c: Client<T>, n: nat) {
    n + ID_COUNT < |c.invocations| && n !in c.done
  }

  lemma ClashOverwrites<T>(c: Client<T>, tag: T, replies: nat)
    requires Inv(c) && Clashes(c)
    ensures ID_COUNT <= |c.invocations| && Outstanding(c, |c.invocations| - ID_COUNT)
    ensures Overwritten(Invoke(c, tag, replies), |c.invocations| - ID_COUNT)
  {
    ClashIff(c);
  }

  lemma StaysOverwritten<T>(c: Client<T>, e: CallEvent<T>, n: nat)
    requires Possible(c, e) && Overwritten(c, n)
    ensures Overwritten(After(c, e), n)
  {
    if e.Replied? { HolderIsLatest(|c.invocations|, e.n); }
  }

  /** A clash costs a callback, for good: the invocation whose id the first clashing call takes is still
      owed a reply, and whatever happens afterwards its callback never fires. */
  lemma {:induction false} ClashLosesCallback<T>(run: seq<Client<T>>, events: seq<CallEvent<T>>, i: nat, k: nat)
    requires IsCallRun(run, events) && i < k < |run| && NoClashBefore(run, events, i) && ClashAt(run, events, i)
    ensures ID_COUNT <= |run[i].invocations| && Outstanding(run[i], |run[i].invocations| - ID_COUNT)
    ensures Overwritten(run[k], |run[i].invocations| - ID_COUNT)
    decreases k
  {
    assert EventAt(run, events, k - 1);
    if k == i + 1 {
      UnclashedInvariant(run, events, i);
      ClashOverwrites(run[i], events[i].tag, events[i].replies);
    } else {
      ClashLosesCallback(run, events, i, k - 1);
      StaysOverwritten(run[k - 1], events[k - 1], |run[i].invocations| - ID_COUNT);
    }
  }

  // ---------------------------------------------------------------------------------------------
  // Exactly once
  // ---------------------------------------------------------------------------------------------

  lemma {:induction false} CountsOnce(s: seq<nat>, n: nat)
    requires n in s && forall i, j :: 0 <= i < j < |s| ==> s[i] != s[j]
    ensures multiset(s)[n] == 1
  {
    var k := |s| - 1;
    assert s == s[..k] + [s[k]];
    if n in s[..k] {
      CountsOnce(s[..k], n);
    } else {
      assert n == s[k];
    }
  }

  lemma {:induction false} FirstClash<T>(run: seq<Client<T>>, events: seq<CallEvent<T>>, k: nat) returns (i: nat)
    requires |run| == |events| + 1 && k <= |events| && !NoClashBefore(run, events, k)
    ensures i < k && NoClashBefore(run, events, i) && ClashAt(run, events, i)
  {
    if NoClashBefore(run, events, k - 1) {
      i := k - 1;
    } else {
      i := FirstClash(run, events, k - 1);
    }
  }

  /** Every callback of the invocations fires, and fires once. */
  ghost predicate EachOnce<T>(c: Client<T>) {
    forall n :: 0 <= n < |c.invocations| ==> multiset(c.done)[n] == 1
  }

  /** Once all replies have come, every callback has fired exactly once, with its own id and tag, if and
      only if no call clashed. */
  lemma ExactlyOnceIff<T>(run: seq<Client<T>>, events: seq<CallEvent<T>>)
    requires IsCallRun(run, events)
    requires forall n :: 0 <= n < |run[|events|].invocations| ==> !Outstanding(run[|events|], n)
    ensures EachOnce(run[|events|]) <==> NoClashBefore(run, events, |events|)
    ensures Fired(run[|events|])
  {
    var c := run[|events|];
    RunIsRegistered(run, events, |events|);
    if NoClashBefore(run, events, |events|) {
      UnclashedInvariant(run, events, |events|);
      forall n | 0 <= n < |c.invocations| ensures multiset(c.done)[n] == 1 {
        CountsOnce(c.done, n);
      }
    } else {
      var i := FirstClash(run, events, |events|);
      ClashLosesCallback(run, events, i, |events|);
      var n := |run[i].invocations| - ID_COUNT;
      assert n !in multiset(c.done);
    }
  }

  // ---------------------------------------------------------------------------------------------
  // What was called for
  // ---------------------------------------------------------------------------------------------

  /** The calls among the first `i` events. */
  function CallsMade<T>(events: seq<CallEvent<T>>, i: nat): seq<CallEvent<T>>
    requires i <= |events|
  {
    if i == 0 then []
    else if events[i - 1].Called? then CallsMade(events, i - 1) + [events[i - 1]]
    else CallsMade(events, i - 1)
  }

  /** The replies among them that come from invocation `n`. */
  function RepliesFrom<T>(events: seq<CallEvent<T>>, i: nat, n: nat): nat
    requires i <= |events|
  {
    if i == 0 then 0
    else RepliesFrom(events, i - 1, n) + if events[i - 1].Replied? && events[i - 1].n == n then 1 else 0
  }

  lemma {:induction false} NoReplyBefore<T>(run: seq<Client<T>>, events: seq<CallEvent<T>>, i: nat, n: nat)
    requires IsCallRun(run, events) && i < |run| && |run[i].invocations| <= n
    ensures RepliesFrom(events, i, n) == 0
    decreases i
  {
    if 0 < i {
      assert EventAt(run, events, i - 1);
      NoReplyBefore(run, events, i - 1, n);
    }
  }

  /** Over every run with clashes, an invocation is what its call asked for, and has got the replies that
      came from it. */
  lemma {:induction false} InvocationIsCall<T>(run: seq<Client<T>>, events: seq<CallEvent<T>>, i: nat, n: nat)
    requires IsCallRun(run, events) && i < |run|
    ensures |run[i].invocations| == |CallsMade(events, i)|
    ensures n < |run[i].invocations| ==>
              var call := CallsMade(events, i)[n];
              call.Called? && run[i].invocations[n] == Invocation(call.tag, call.replies, RepliesFrom(events, i, n))
    decreases i
  {
    if 0 < i {
      InvocationIsCall(run, events, i - 1, n);
      assert EventAt(run, events, i - 1);
      if |run[i - 1].invocations| <= n { NoReplyBefore(run, events, i - 1, n); }
    }
  }
}
