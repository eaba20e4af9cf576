/** The client's asynchronous invocations: 16-bit ids that wrap around, the table of callbacks, and
    the dispatch of polled completions. */
module Dispatch {

  /** Ids run from 1 to 65535. */
  const ID_COUNT: nat := 65535

  /** A table entry: replies still expected, and the tag to hand to the callback.  It is never erased. */
  datatype Entry<T> = Entry(count: int, tag: T)

  /** An invocation as its caller sees it: `replies` is 1 for `async_callback` and the number of
      connections for the vector form; `got` counts the replies dispatched to it. */
  datatype Invocation<T> = Invocation(tag: T, replies: nat, got: nat)

  datatype Firing<T> = Firing(id: nat, tag: T)

  /** `invocations` and `done` (the invocations whose callback fired, in that order) are not stored by
      the program. */
  datatype Client<T> = Client(invocId: nat, callbacks: map<nat, Entry<T>>, fired: seq<Firing<T>>,
                              invocations: seq<Invocation<T>>, done: seq<nat>)

  /** The id of the `n`-th invocation, counting from zero. */
  function IdOf(n: nat): nat { 1 + n % ID_COUNT }

  function NextId(id: nat): nat { if id + 1 == 65536 then 1 else id + 1 }

  predicate Outstanding<T>(c: Client<T>, n: nat) {
    n < |c.invocations| && c.invocations[n].got < c.invocations[n].replies
  }

  function Start<T>(): Client<T> { Client(0, map[], [], [], []) }

  /** `async_callback`, or the vector form with `replies` connections. */
  function Invoke<T>(c: Client<T>, tag: T, replies: nat): Client<T> {
    var id := NextId(c.invocId);
    c.(invocId := id, callbacks := c.callbacks[id := Entry(replies, tag)],
       invocations := c.invocations + [Invocation(tag, replies, 0)])
  }

  /** What the program does with one completion that carries a registered id. */
  function Count<T>(c: Client<T>, id: nat): Client<T>
    requires id in c.callbacks
  {
    var e := c.callbacks[id];
    c.(callbacks := c.callbacks[id := e.(count := e.count - 1)],
       fired := if e.count == 1 then c.fired + [Firing(id, e.tag)] else c.fired)
  }

  /** The newest outstanding invocation with the given id, or the number of invocations if none. */
  function Owner<T>(c: Client<T>, id: nat, n: nat): nat
    requires n <= |c.invocations|
  {
    if n == 0 then |c.invocations|
    else if IdOf(n - 1) == id && Outstanding(c, n - 1) then n - 1
    else Owner(c, id, n - 1)
  }

  /** A completion arrives: the program counts, and the reply is credited to the outstanding
      invocation with that id. */
  function Complete<T>(c: Client<T>, id: nat): Client<T>
    requires id in c.callbacks
  {
    var n := Owner(c, id, |c.invocations|);
    var c' := Count(c, id);
    if n < |c.invocations| then
      var i := c.invocations[n].(got := c.invocations[n].got + 1);
      c'.(invocations := c.invocations[n := i], done := if i.got == i.replies then c.done + [n] else c.done)
    else c'
  }

  lemma {:induction false} OwnerIsOutstanding<T>(c: Client<T>, id: nat, n: nat)
    requires n <= |c.invocations|
    ensures var o := Owner(c, id, n);
            && (o < |c.invocations| ==> o < n && Outstanding(c, o) && IdOf(o) == id)
            && (o >= |c.invocations| ==> forall j :: 0 <= j < n ==> !(Outstanding(c, j) && IdOf(j) == id))
  {
    if n != 0 { OwnerIsOutstanding(c, id, n - 1); }
  }

  // ---------------------------------------------------------------------------------------------
  // Ids
  // ---------------------------------------------------------------------------------------------

  /** The counter of the program yields the ids in order. */
  lemma NextIdFollows(n: nat)
    ensures NextId(if n == 0 then 0 else IdOf(n - 1)) == IdOf(n)
    ensures 1 <= IdOf(n) <= ID_COUNT
  {
  }

  /** Two invocations less than 65535 apart have different ids; 65535 apart they clash. */
  lemma IdsClashIff(n: nat, k: nat)
    requires n < k <= n + ID_COUNT
    ensures IdOf(n) == IdOf(k) <==> k == n + ID_COUNT
  {
    var d := k - n;
    assert k % ID_COUNT == (n % ID_COUNT + d) % ID_COUNT;
  }

  /** The id that the next invocation will take belongs to one that is still outstanding. */
  ghost predicate Clashes<T>(c: Client<T>) {
    exists n :: 0 <= n < |c.invocations| && Outstanding(c, n) && IdOf(n) == NextId(c.invocId)
  }

  // ---------------------------------------------------------------------------------------------
  // The invariant
  // ---------------------------------------------------------------------------------------------

  ghost predicate Table<T>(c: Client<T>) {
    && c.invocId == (if c.invocations == [] then 0 else IdOf(|c.invocations| - 1))
    && (forall n :: 0 <= n < |c.invocations| && Outstanding(c, n) ==>
          |c.invocations| <= n + ID_COUNT
          && IdOf(n) in c.callbacks
          && c.callbacks[IdOf(n)] == Entry(c.invocations[n].replies - c.invocations[n].got, c.invocations[n].tag))
    && (forall id :: id in c.callbacks && 0 < c.callbacks[id].count ==>
          exists n :: 0 <= n < |c.invocations| && Outstanding(c, n) && IdOf(n) == id)
  }

  ghost predicate Log<T>(c: Client<T>) {
    && (forall n :: 0 <= n < |c.invocations| ==> c.invocations[n].got <= c.invocations[n].replies)
    && |c.fired| == |c.done|
    && (forall i :: 0 <= i < |c.done| ==>
          && c.done[i] < |c.invocations| && !Outstanding(c, c.done[i])
          && c.fired[i] == Firing(IdOf(c.done[i]), c.invocations[c.done[i]].tag))
    && (forall i, j :: 0 <= i < j < |c.done| ==> c.done[i] != c.done[j])
    && (forall n :: 0 <= n < |c.invocations| && !Outstanding(c, n) ==> n in c.done)
  }

  ghost predicate Inv<T>(c: Client<T>) { Table(c) && Log(c) }

  /** Outstanding invocations have distinct ids. */
  lemma IdsDistinct<T>(c: Client<T>, n: nat, k: nat)
    requires Table(c) && Outstanding(c, n) && Outstanding(c, k) && IdOf(n) == IdOf(k)
    ensures n == k
  {
    if n < k { IdsClashIff(n, k); }
    if k < n { IdsClashIff(k, n); }
  }

  /** The next id clashes exactly when the invocation made 65535 calls earlier is still outstanding. */
  lemma ClashIff<T>(c: Client<T>)
    requires Table(c)
    ensures Clashes(c) <==> ID_COUNT <= |c.invocations| && Outstanding(c, |c.invocations| - ID_COUNT)
  {
    var k := |c.invocations|;
    NextIdFollows(k);
    assert NextId(c.invocId) == IdOf(k);
    if Clashes(c) {
      ClashIsOneRoundAgo(c);
    } else if ID_COUNT <= k {
      IdsClashIff(k - ID_COUNT, k);
    }
  }

  lemma ClashIsOneRoundAgo<T>(c: Client<T>)
    requires Table(c) && Clashes(c) && NextId(c.invocId) == IdOf(|c.invocations|)
    ensures ID_COUNT <= |c.invocations| && Outstanding(c, |c.invocations| - ID_COUNT)
  {
    var k := |c.invocations|;
    var n :| 0 <= n < k && Outstanding(c, n) && IdOf(n) == NextId(c.invocId);
    assert k <= n + ID_COUNT;
    IdsClashIff(n, k);
  }

  lemma InvokeKeeps<T>(c: Client<T>, tag: T, replies: nat)
    requires Inv(c) && 0 < replies && !Clashes(c)
    ensures Inv(Invoke(c, tag, replies))
  {
    InvokeKeepsTable(c, tag, replies);
    InvokeKeepsLog(c, tag, replies);
  }

  lemma InvokeKeepsLog<T>(c: Client<T>, tag: T, replies: nat)
    requires Log(c) && 0 < replies
    ensures Log(Invoke(c, tag, replies))
  {
    var c' := Invoke(c, tag, replies);
    forall n | 0 <= n < |c.invocations| ensures c'.invocations[n] == c.invocations[n] { }
  }

  lemma InvokeKeepsTable<T>(c: Client<T>, tag: T, replies: nat)
    requires Table(c) && 0 < replies && !Clashes(c)
    ensures Table(Invoke(c, tag, replies))
  {
    var k, c' := |c.invocations|, Invoke(c, tag, replies);
    NextIdFollows(k);
    ClashIff(c);
    assert c'.invocId == IdOf(k);
    forall n | 0 <= n < |c'.invocations| && Outstanding(c', n)
      ensures |c'.invocations| <= n + ID_COUNT
      ensures IdOf(n) in c'.callbacks
      ensures c'.callbacks[IdOf(n)] == Entry(c'.invocations[n].replies - c'.invocations[n].got, c'.invocations[n].tag)
    {
      if n < k {
        assert Outstanding(c, n);
        IdsClashIff(n, k);
      }
    }
    forall id | id in c'.callbacks && 0 < c'.callbacks[id].count
      ensures exists n :: 0 <= n < |c'.invocations| && Outstanding(c', n) && IdOf(n) == id
    {
      if id == IdOf(k) {
        assert Outstanding(c', k);
      } else {
        var n :| 0 <= n < k && Outstanding(c, n) && IdOf(n) == id;
        assert Outstanding(c', n);
      }
    }
  }

  /** A reply changes only the invocation that owns its id. */
  lemma CompleteChanges<T>(c: Client<T>, id: nat, n: nat)
    requires Table(c) && id in c.callbacks && n < |c.invocations|
    ensures var c' := Complete(c, id);
            && |c'.invocations| == |c.invocations| && c'.invocId == c.invocId
            && c'.callbacks == c.callbacks[id := Entry(c.callbacks[id].count - 1, c.callbacks[id].tag)]
            && c'.invocations[n] == if Outstanding(c, n) && IdOf(n) == id
                                    then c.invocations[n].(got := c.invocations[n].got + 1) else c.invocations[n]
  {
    var o := Owner(c, id, |c.invocations|);
    OwnerIsOutstanding(c, id, |c.invocations|);
    if Outstanding(c, n) && IdOf(n) == id { IdsDistinct(c, n, o); }
  }

  lemma CompleteKeepsEntry<T>(c: Client<T>, id: nat, n: nat)
    requires Table(c) && id in c.callbacks && n < |c.invocations| && Outstanding(Complete(c, id), n)
    ensures var c' := Complete(c, id);
            && |c'.invocations| <= n + ID_COUNT && IdOf(n) in c'.callbacks && n < |c'.invocations|
            && c'.callbacks[IdOf(n)] == Entry(c'.invocations[n].replies - c'.invocations[n].got, c'.invocations[n].tag)
  {
    CompleteChanges(c, id, n);
    assert Outstanding(c, n);
  }

  lemma CompleteKeepsOwner<T>(c: Client<T>, id: nat, i: nat) returns (n: nat)
    requires Table(c) && id in c.callbacks && i in Complete(c, id).callbacks && 0 < Complete(c, id).callbacks[i].count
    ensures Outstanding(Complete(c, id), n) && IdOf(n) == i
  {
    n :| 0 <= n < |c.invocations| && Outstanding(c, n) && IdOf(n) == i;
    CompleteChanges(c, id, n);
  }

  lemma CompleteKeepsTable<T>(c: Client<T>, id: nat)
    requires Table(c) && id in c.callbacks
    ensures Table(Complete(c, id))
  {
    var c' := Complete(c, id);
    forall n | 0 <= n < |c'.invocations| && Outstanding(c', n)
      ensures |c'.invocations| <= n + ID_COUNT
      ensures IdOf(n) in c'.callbacks
      ensures c'.callbacks[IdOf(n)] == Entry(c'.invocations[n].replies - c'.invocations[n].got, c'.invocations[n].tag)
    {
      CompleteKeepsEntry(c, id, n);
    }
    forall i | i in c'.callbacks && 0 < c'.callbacks[i].count
      ensures exists n :: 0 <= n < |c'.invocations| && Outstanding(c', n) && IdOf(n) == i
    {
      var n := CompleteKeepsOwner(c, id, i);
    }
  }

  lemma CompleteKeeps<T>(c: Client<T>, id: nat)
    requires Inv(c) && id in c.callbacks
    ensures Inv(Complete(c, id))
  {
    CompleteKeepsTable(c, id);
    CompleteKeepsLog(c, id);
  }

  /** What the program itself changes. */
  lemma CompleteFields<T>(c: Client<T>, id: nat)
    requires id in c.callbacks
    ensures var c', e := Complete(c, id), c.callbacks[id];
            && c'.invocId == c.invocId && c'.callbacks == c.callbacks[id := Entry(e.count - 1, e.tag)]
            && c'.fired == if e.count == 1 then c.fired + [Firing(id, e.tag)] else c.fired
  {
  }

  /** A reply that is not the last one of its invocation fires nothing. */
  lemma ReplyKeepsLog<T>(c: Client<T>, c': Client<T>, o: nat)
    requires Log(c) && Outstanding(c, o) && c'.fired == c.fired && c'.done == c.done
    requires c'.invocations == c.invocations[o := c.invocations[o].(got := c.invocations[o].got + 1)]
    requires Outstanding(c', o)
    ensures Log(c')
  {
    forall n | 0 <= n < |c'.invocations| && !Outstanding(c', n) ensures n in c'.done {
      assert !Outstanding(c, n);
    }
  }

  /** The last reply fires the callback. */
  lemma LastReplyKeepsLog<T>(c: Client<T>, c': Client<T>, o: nat)
    requires Log(c) && Outstanding(c, o) && c'.done == c.done + [o]
    requires c'.invocations == c.invocations[o := c.invocations[o].(got := c.invocations[o].got + 1)]
    requires !Outstanding(c', o) && c'.fired == c.fired + [Firing(IdOf(o), c.invocations[o].tag)]
    ensures Log(c')
  {
    assert o !in c.done;
    forall n | 0 <= n < |c'.invocations| && !Outstanding(c', n) ensures n in c'.done {
      if n != o { assert !Outstanding(c, n); }
    }
  }

  /** Without an outstanding invocation of that id, its count has run out. */
  lemma UnownedIsCounted<T>(c: Client<T>, id: nat)
    requires Table(c) && id in c.callbacks && Owner(c, id, |c.invocations|) >= |c.invocations|
    ensures c.callbacks[id].count <= 0
  {
    OwnerIsOutstanding(c, id, |c.invocations|);
  }

  lemma OwnedEntry<T>(c: Client<T>, id: nat)
    requires Table(c) && id in c.callbacks && Owner(c, id, |c.invocations|) < |c.invocations|
    ensures var o := Owner(c, id, |c.invocations|);
            && Outstanding(c, o) && IdOf(o) == id
            && c.callbacks[id] == Entry(c.invocations[o].replies - c.invocations[o].got, c.invocations[o].tag)
  {
    OwnerIsOutstanding(c, id, |c.invocations|);
  }

  lemma SameLog<T>(c: Client<T>, c': Client<T>)
    requires Log(c) && c'.invocations == c.invocations && c'.done == c.done && c'.fired == c.fired
    ensures Log(c')
  {
  }

  lemma CompleteUnowned<T>(c: Client<T>, id: nat)
    requires Table(c) && id in c.callbacks && Owner(c, id, |c.invocations|) >= |c.invocations|
    ensures var c' := Complete(c, id);
            c'.invocations == c.invocations && c'.done == c.done && c'.fired == c.fired
  {
    UnownedIsCounted(c, id);
  }

  lemma CompleteOwned<T>(c: Client<T>, id: nat, o: nat)
    requires Table(c) && id in c.callbacks && Owner(c, id, |c.invocations|) == o < |c.invocations|
    ensures Outstanding(c, o)
    ensures var c', i := Complete(c, id), c.invocations[o];
            && c'.invocations == c.invocations[o := i.(got := i.got + 1)]
            && (if i.got + 1 == i.replies
                then c'.done == c.done + [o] && c'.fired == c.fired + [Firing(IdOf(o), i.tag)]
                else c'.done == c.done && c'.fired == c.fired)
  {
    OwnedEntry(c, id);
  }

  lemma CompleteKeepsLog<T>(c: Client<T>, id: nat)
    requires Inv(c) && id in c.callbacks
    ensures Log(Complete(c, id))
  {
    var c', o := Complete(c, id), Owner(c, id, |c.invocations|);
    if o >= |c.invocations| {
      CompleteUnowned(c, id);
      SameLog(c, c');
    } else {
      CompleteOwned(c, id, o);
      if c.invocations[o].got + 1 == c.invocations[o].replies {
        LastReplyKeepsLog(c, c', o);
      } else {
        ReplyKeepsLog(c, c', o);
      }
    }
  }

  /** What one completion does, in every state a run can reach: it fires the callback of the
      outstanding invocation with that id when it is the last reply that one waits for, with that
      invocation's own tag; in all other cases, duplicates included, nothing fires. */
  lemma CompletionFires<T>(c: Client<T>, id: nat)
    requires Inv(c) && id in c.callbacks
    ensures forall n :: 0 <= n < |c.invocations| && Outstanding(c, n) && IdOf(n) == id ==>
              Complete(c, id).fired == c.fired
                + if c.invocations[n].got + 1 == c.invocations[n].replies
                  then [Firing(id, c.invocations[n].tag)] else []
    ensures (forall n :: 0 <= n < |c.invocations| && IdOf(n) == id ==> !Outstanding(c, n)) ==>
              Complete(c, id).fired == c.fired
  {
  }

  // ---------------------------------------------------------------------------------------------
  // Runs
  // ---------------------------------------------------------------------------------------------

  datatype Event<T> = Invoked(tag: T, replies: nat) | Completed(id: nat)

  /** Calls that expect at least one reply and do not clash; completions of registered ids. */
  ghost predicate Legal<T>(c: Client<T>, e: Event<T>) {
    match e
    case Invoked(_, replies) => 0 < replies && !Clashes(c)
    case Completed(id) => id in c.callbacks
  }

  ghost function Apply<T>(c: Client<T>, e: Event<T>): Client<T>
    requires Legal(c, e)
  {
    match e
    case Invoked(tag, replies) => Invoke(c, tag, replies)
    case Completed(id) => Complete(c, id)
  }

  ghost predicate StepAt<T>(run: seq<Client<T>>, events: seq<Event<T>>, i: nat)
    requires i < |events| && |run| == |events| + 1
  {
    Legal(run[i], events[i]) && run[i + 1] == Apply(run[i], events[i])
  }

  ghost predicate IsRun<T>(run: seq<Client<T>>, events: seq<Event<T>>) {
    && |run| == |events| + 1
    && run[0] == Start()
    && forall i :: 0 <= i < |events| ==> StepAt(run, events, i)
  }

  lemma {:induction false} RunInvariant<T>(run: seq<Client<T>>, events: seq<Event<T>>, i: nat)
    requires IsRun(run, events) && i < |run|
    ensures Inv(run[i])
    decreases i
  {
    if 0 < i {
      assert StepAt(run, events, i - 1);
      RunInvariant(run, events, i - 1);
      match events[i - 1]
      case Invoked(tag, replies) => InvokeKeeps(run[i - 1], tag, replies);
      case Completed(id) => CompleteKeeps(run[i - 1], id);
    }
  }

  /** Exactly-once dispatch over every run: the callbacks fired so far are those of the invocations
      that have all their replies, each of them once, each with its own id and tag. */
  lemma ExactlyOnce<T>(run: seq<Client<T>>, events: seq<Event<T>>, i: nat)
    requires IsRun(run, events) && i < |run|
    ensures var c := run[i];
            && |c.fired| == |c.done|
            && (forall j :: 0 <= j < |c.done| ==>
                  c.done[j] < |c.invocations| && c.fired[j] == Firing(IdOf(c.done[j]), c.invocations[c.done[j]].tag))
            && (forall j, k :: 0 <= j < k < |c.done| ==> c.done[j] != c.done[k])
            && (forall n :: 0 <= n < |c.invocations| ==>
                  (n in c.done <==> c.invocations[n].got == c.invocations[n].replies))
  {
    RunInvariant(run, events, i);
  }

  /** The calls among the first `i` events, in order. */
  function Calls<T>(events: seq<Event<T>>, i: nat): seq<Event<T>>
    requires i <= |events|
  {
    if i == 0 then []
    else if events[i - 1].Invoked? then Calls(events, i - 1) + [events[i - 1]]
    else Calls(events, i - 1)
  }

  /** A completion is credited to invocation `n`: it carries its id, and `n` is still owed replies. */
  predicate CreditedAt<T>(run: seq<Client<T>>, events: seq<Event<T>>, j: nat, n: nat)
    requires j < |events| && |run| == |events| + 1
  {
    events[j].Completed? && events[j].id == IdOf(n) && Outstanding(run[j], n)
  }

  function Credits<T>(run: seq<Client<T>>, events: seq<Event<T>>, i: nat, n: nat): nat
    requires i <= |events| && |run| == |events| + 1
  {
    if i == 0 then 0 else Credits(run, events, i - 1, n) + if CreditedAt(run, events, i - 1, n) then 1 else 0
  }

  ghost predicate AsCalled<T>(c: Client<T>, calls: seq<Event<T>>) {
    && |c.invocations| == |calls|
    && forall n :: 0 <= n < |calls| ==>
         calls[n].Invoked? && c.invocations[n].tag == calls[n].tag && c.invocations[n].replies == calls[n].replies
  }

  lemma CompleteKeepsCalls<T>(c: Client<T>, id: nat, calls: seq<Event<T>>)
    requires Inv(c) && id in c.callbacks && AsCalled(c, calls)
    ensures AsCalled(Complete(c, id), calls)
  {
    var c' := Complete(c, id);
    forall n | 0 <= n < |calls|
      ensures |c'.invocations| == |calls|
      ensures c'.invocations[n].tag == calls[n].tag && c'.invocations[n].replies == calls[n].replies
    {
      CompleteChanges(c, id, n);
    }
  }

  lemma {:induction false} RunIsAsCalled<T>(run: seq<Client<T>>, events: seq<Event<T>>, i: nat)
    requires IsRun(run, events) && i < |run|
    ensures AsCalled(run[i], Calls(events, i))
    decreases i
  {
    if 0 < i {
      RunIsAsCalled(run, events, i - 1);
      RunInvariant(run, events, i - 1);
      assert StepAt(run, events, i - 1);
      match events[i - 1]
      case Invoked(tag, replies) => InvokeKeepsCalls(run[i - 1], tag, replies, Calls(events, i - 1));
      case Completed(id) => CompleteKeepsCalls(run[i - 1], id, Calls(events, i));
    }
  }

  lemma InvokeKeepsCalls<T>(c: Client<T>, tag: T, replies: nat, calls: seq<Event<T>>)
    requires AsCalled(c, calls)
    ensures AsCalled(Invoke(c, tag, replies), calls + [Invoked(tag, replies)])
  {
  }

  lemma {:induction false} NoCreditBefore<T>(run: seq<Client<T>>, events: seq<Event<T>>, i: nat, n: nat)
    requires IsRun(run, events) && i < |run| && |run[i].invocations| <= n
    ensures Credits(run, events, i, n) == 0
    decreases i
  {
    if 0 < i {
      assert StepAt(run, events, i - 1);
      NoCreditBefore(run, events, i - 1, n);
    }
  }

  lemma {:induction false} GotIsCredits<T>(run: seq<Client<T>>, events: seq<Event<T>>, i: nat, n: nat)
    requires IsRun(run, events) && i < |run| && n < |run[i].invocations|
    ensures run[i].invocations[n].got == Credits(run, events, i, n)
    decreases i
  {
    if 0 < i {
      assert StepAt(run, events, i - 1);
      RunInvariant(run, events, i - 1);
      match events[i - 1]
      case Invoked(tag, replies) =>
        if n < |run[i - 1].invocations| {
          GotIsCredits(run, events, i - 1, n);
        } else {
          NoCreditBefore(run, events, i - 1, n);
        }
      case Completed(id) =>
        GotIsCredits(run, events, i - 1, n);
        CompleteChanges(run[i - 1], id, n);
    }
  }

  /** What the caller gets, over every run: the callback of the n-th call, which asked for `r` replies, has
      fired, once, with the id and the tag of that call, if and only if exactly `r` completions have been
      credited to it; before, fewer have. */
  lemma CallbackFiresIff<T>(run: seq<Client<T>>, events: seq<Event<T>>, i: nat, n: nat)
    requires IsRun(run, events) && i < |run| && n < |Calls(events, i)|
    ensures Calls(events, i)[n].Invoked? && n < |run[i].invocations|
    ensures var r := Calls(events, i)[n].replies;
            Credits(run, events, i, n) <= r && (n in run[i].done <==> Credits(run, events, i, n) == r)
    ensures |run[i].fired| == |run[i].done|
    ensures forall j :: 0 <= j < |run[i].done| && run[i].done[j] == n ==>
              run[i].fired[j] == Firing(IdOf(n), Calls(events, i)[n].tag)
  {
    RunIsAsCalled(run, events, i);
    GotIsCredits(run, events, i, n);
    RunInvariant(run, events, i);
  }

  /** In every run, the next call would reuse the id of an outstanding invocation if and only if the
      one made 65535 calls before it is still outstanding. */
  lemma NextIdIsFreeIff<T>(run: seq<Client<T>>, events: seq<Event<T>>, i: nat)
    requires IsRun(run, events) && i < |run|
    ensures Clashes(run[i]) <==>
              ID_COUNT <= |run[i].invocations| && Outstanding(run[i], |run[i].invocations| - ID_COUNT)
  {
    RunInvariant(run, events, i);
    ClashIff(run[i]);
  }

  // ---------------------------------------------------------------------------------------------
  // Few outstanding invocations are not enough
  // ---------------------------------------------------------------------------------------------

  /** Only the first invocation is outstanding, after `k` more that came and went. */
  ghost predicate Lingers<T>(c: Client<T>, k: nat) {
    |c.invocations| == k + 1 && forall n :: 0 <= n <= k ==> (Outstanding(c, n) <==> n == 0)
  }

  lemma Extend<T>(run: seq<Client<T>>, events: seq<Event<T>>, e: Event<T>)
    returns (run': seq<Client<T>>, events': seq<Event<T>>)
    requires IsRun(run, events) && Legal(run[|events|], e)
    ensures IsRun(run', events') && run'[|events'|] == Apply(run[|events|], e)
  {
    run', events' := run + [Apply(run[|events|], e)], events + [e];
    forall i | 0 <= i < |events'| ensures StepAt(run', events', i) {
      assert i < |events| ==> StepAt(run, events, i);
    }
  }

  lemma {:induction false} LingeringRun<T>(tag: T, k: nat) returns (run: seq<Client<T>>, events: seq<Event<T>>)
    requires k < ID_COUNT
    ensures IsRun(run, events) && Lingers(run[|events|], k)
    decreases k
  {
    if k == 0 {
      run, events := [Start()], [];
      run, events := Extend(run, events, Invoked(tag, 1));
    } else {
      run, events := LingeringRun(tag, k - 1);
      NextIdIsFreeIff(run, events, |events|);
      var c := run[|events|];
      run, events := Extend(run, events, Invoked(tag, 1));
      RunInvariant(run, events, |events|);
      var c' := run[|events|];
      assert Outstanding(c', k);
      IdsOfLast(c', k);
      run, events := Extend(run, events, Completed(IdOf(k)));
      var last := run[|events|];
      assert last.invocations == c.invocations + [Invocation(tag, 1, 1)];
      forall n | 0 <= n <= k ensures Outstanding(last, n) <==> n == 0 {
        assert n < k ==> (Outstanding(c, n) <==> n == 0);
      }
    }
  }

  /** Right after a call, its invocation owns its id. */
  lemma IdsOfLast<T>(c: Client<T>, k: nat)
    requires Table(c) && |c.invocations| == k + 1 && Outstanding(c, k)
    ensures IdOf(k) in c.callbacks && Owner(c, IdOf(k), |c.invocations|) == k
  {
  }

  /** Fewer than 65535 outstanding invocations do not rule out a clash: here a single one is
      outstanding, and the next call takes its id. */
  lemma FewOutstandingStillClash<T>(tag: T) returns (run: seq<Client<T>>, events: seq<Event<T>>)
    ensures IsRun(run, events) && Clashes(run[|events|])
    ensures forall n :: 0 <= n < |run[|events|].invocations| && Outstanding(run[|events|], n) ==> n == 0
  {
    run, events := LingeringRun(tag, ID_COUNT - 1);
    NextIdIsFreeIff(run, events, |events|);
    assert Outstanding(run[|events|], 0);
  }
}
