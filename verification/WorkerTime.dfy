/** Where the time goes: every nanosecond of a run is billed, will be, or is one that is not to be. */
module WorkerTime {
  import opened Worker
  import opened WorkerBilling

  /** Time that has passed in an interval which is not billed yet. */
  function Pending(s: State): nat {
    match s.pc
    case HotPoll(start, _) => Span(start, s.clock)
    case HotItem(start, _, _, _) => Span(start, s.clock)
    case HotCall(start, _, _, _, seen) => Span(start, seen)
    case HotReturn(start, _, _, _, seen, began) => Span(start, seen) + Span(began, s.clock)
    case HotBill(start, _, _, _, seen, ended) => Span(start, seen) + Span(ended, s.clock)
    case HotRefill(start, _) => Span(start, s.clock)
    case HotTick(start, _) => Span(start, s.clock)
    case WarmReturn(_, _, began) => Span(began, s.clock)
    case _ => 0
  }

  /** Time of a step that no client is to pay for: during the set-up and in the warm state, between polling
      and the call of the function, and what a hot thread has polled since its last bill when it stops. */
  function Free(s: State, s': State): nat {
    if s.pc.HotPoll? && s'.pc.Dispatch? then Span(s.pc.start, s'.clock)
    else if s.pc.HotCall? || Timeless(s.pc) then Span(s.clock, s'.clock)
    else 0
  }

  /** The clock readings that a thread holds are in order. */
  predicate InOrder(s: State) {
    match s.pc
    case HotPoll(start, _) => start <= s.clock
    case HotItem(start, _, _, _) => start <= s.clock
    case HotCall(start, _, _, _, seen) => start <= seen <= s.clock
    case HotReturn(start, _, _, _, seen, began) => start <= seen <= began <= s.clock
    case HotBill(start, _, _, _, seen, ended) => start <= seen <= ended <= s.clock
    case HotRefill(start, _) => start <= s.clock
    case HotTick(start, _) => start <= s.clock
    case WarmReturn(_, _, began) => began <= s.clock
    case _ => true
  }

  lemma TimelineInOrder(s: State, t0: nat)
    requires OnTime(s, t0)
    ensures InOrder(s)
  {
  }

  predicate Bought(s: State) {
    s.pc.HotReturn? || s.pc.HotBill? || s.pc.HotTick? || s.pc.WarmReturn?
  }

  /** A step that bills. */
  lemma BilledTimeStep(s: State, s': State)
    requires InOrder(s) && BillingStep(s, s') && Bought(s)
    ensures Spent(s'.billed) + Pending(s') + Free(s, s') == Spent(s.billed) + Pending(s) + Span(s.clock, s'.clock)
  {
    if s.pc.HotTick? {
      TickTimeStep(s, s');
    } else if s.pc.HotBill? {
      PollTimeStep(s, s');
    } else {
      WorkTimeStep(s, s');
    }
  }

  lemma TickTimeStep(s: State, s': State)
    requires s.pc.HotTick? && s.pc.start <= s.clock <= s'.clock
    requires || (s'.billed == s.billed && s'.pc.HotPoll? && s'.pc.start == s.pc.start)
             || (s'.billed == s.billed + [Interval(true, s.pc.start, s'.clock)]
                 && (s'.pc.HotNotify? || (s'.pc.HotPoll? && s'.pc.start == s'.clock)))
    ensures Spent(s'.billed) + Pending(s') + Free(s, s') == Spent(s.billed) + Pending(s) + Span(s.clock, s'.clock)
  {
    var now := s'.clock - s.pc.start;
    assert Free(s, s') == 0;
    assert Pending(s) + Span(s.clock, s'.clock) == now;
    if s'.billed == s.billed {
      assert Pending(s') == now;
    } else {
      Append(s.billed, Interval(true, s.pc.start, s'.clock));
      assert Spent(s'.billed) == Spent(s.billed) + now;
      assert Pending(s') == 0;
    }
  }

  lemma WorkTimeStep(s: State, s': State)
    requires InOrder(s) && s.clock <= s'.clock && (s.pc.HotReturn? || s.pc.WarmReturn?)
    requires s'.billed == s.billed + [Interval(false, s.pc.began, s'.clock)]
    requires s.pc.HotReturn? ==>
               s'.pc.HotBill? && s'.pc.start == s.pc.start && s'.pc.now == s.pc.now && s'.pc.ended == s'.clock
    requires s.pc.WarmReturn? ==> s'.pc.WarmItem?
    ensures Spent(s'.billed) + Pending(s') + Free(s, s') == Spent(s.billed) + Pending(s) + Span(s.clock, s'.clock)
  {
    Append(s.billed, Interval(false, s.pc.began, s'.clock));
  }

  lemma PollTimeStep(s: State, s': State)
    requires InOrder(s) && s.clock <= s'.clock && s.pc.HotBill? && s'.pc.HotItem? && s'.pc.start == s.pc.ended
    requires s'.billed == s.billed + [Interval(true, s.pc.start, s.pc.now)]
    ensures Spent(s'.billed) + Pending(s') + Free(s, s') == Spent(s.billed) + Pending(s) + Span(s.clock, s'.clock)
  {
    Append(s.billed, Interval(true, s.pc.start, s.pc.now));
  }

  lemma OtherTimeStep(s: State, s': State)
    requires InOrder(s) && BillingStep(s, s') && !Bought(s)
    ensures Spent(s'.billed) + Pending(s') + Free(s, s') == Spent(s.billed) + Pending(s) + Span(s.clock, s'.clock)
  {
  }

  function FreeTime(run: seq<State>, i: nat): nat
    requires i < |run|
  {
    if i == 0 then 0 else FreeTime(run, i - 1) + Free(run[i - 1], run[i])
  }

  /** Nothing is billed short, in every run: the time that has passed is what is billed, plus what the
      thread has yet to bill, plus what is not to be billed. */
  lemma {:induction false} TimeIsAccounted(run: seq<State>, cfg: Config, i: nat)
    requires IsRun(run, cfg) && i < |run|
    ensures run[0].clock <= run[i].clock
    ensures Spent(run[i].billed) + Pending(run[i]) + FreeTime(run, i) == run[i].clock - run[0].clock
    decreases i
  {
    if 0 < i {
      TimeIsAccounted(run, cfg, i - 1);
      RunInvariant(run, cfg, i - 1);
      var s, s' := run[i - 1], run[i];
      TimelineInOrder(s, run[0].clock);
      assert StepAt(run, i, cfg);
      NextBills(s, s', cfg);
      if BillingStep(s, s') {
        if Bought(s) { BilledTimeStep(s, s'); } else { OtherTimeStep(s, s'); }
      }
    }
  }
}
