/** What a client is billed over whole runs of a thread. */
module WorkerBilling {
  import opened Accounting
  import opened Worker

  // ---------------------------------------------------------------------------------------------
  // Billed time
  // ---------------------------------------------------------------------------------------------

  /** The length of all billed intervals together. */
  function Spent(billed: seq<Interval>): nat {
    if billed == [] then 0
    else var n := |billed| - 1; Spent(billed[..n]) + Span(billed[n].start, billed[n].end)
  }

  /** The execution time in them. */
  function Executed(billed: seq<Interval>): nat {
    if billed == [] then 0
    else
      var n := |billed| - 1;
      Executed(billed[..n]) + if billed[n].polling then 0 else Span(billed[n].start, billed[n].end)
  }

  /** The polling time in them, each interval cut to 32 bits. */
  function PolledTime(billed: seq<Interval>): nat {
    if billed == [] then 0
    else
      var n := |billed| - 1;
      PolledTime(billed[..n]) + if billed[n].polling then Truncated(Span(billed[n].start, billed[n].end)) else 0
  }

  lemma Append(billed: seq<Interval>, x: Interval)
    ensures Spent(billed + [x]) == Spent(billed) + Span(x.start, x.end)
    ensures Executed(billed + [x]) == Executed(billed) + if x.polling then 0 else Span(x.start, x.end)
    ensures PolledTime(billed + [x]) == PolledTime(billed) + if x.polling then Truncated(Span(x.start, x.end)) else 0
  {
    assert (billed + [x])[..|billed|] == billed;
  }

  lemma {:induction false} PartsWithinWhole(billed: seq<Interval>)
    ensures Executed(billed) + PolledTime(billed) <= Spent(billed)
  {
    if billed != [] {
      PartsWithinWhole(billed[..|billed| - 1]);
    }
  }

  // ---------------------------------------------------------------------------------------------
  // Disjointness
  // ---------------------------------------------------------------------------------------------

  ghost predicate Disjoint(billed: seq<Interval>) {
    && (forall i :: 0 <= i < |billed| ==> billed[i].start <= billed[i].end)
    && (forall i, j :: 0 <= i < j < |billed| ==> billed[i].end <= billed[j].start || billed[j].end <= billed[i].start)
  }

  /** No billed interval reaches into the time between `lo` and `hi`, or beyond `top`. */
  ghost predicate Clear(billed: seq<Interval>, lo: nat, hi: nat, top: nat) {
    forall i :: 0 <= i < |billed| ==> billed[i].end <= lo || (hi <= billed[i].start && billed[i].end <= top)
  }

  lemma AppendDisjoint(billed: seq<Interval>, x: Interval, top: nat)
    requires Disjoint(billed) && Clear(billed, x.start, x.end, top) && x.start <= x.end
    ensures Disjoint(billed + [x])
  {
  }

  // ---------------------------------------------------------------------------------------------
  // What a thread step does to the bill
  // ---------------------------------------------------------------------------------------------

  predicate Worked(s: State, s': State, began: nat) {
    && s'.bill == SendExecution(UpdateExecution(s.bill, Span(began, s'.clock)), false)
    && s'.billed == s.billed + [Interval(false, began, s'.clock)]
  }

  predicate Unbilled(s: State, s': State) { s'.bill == s.bill && s'.billed == s.billed }

  /** Points at which no clock reading is held. */
  predicate Timeless(pc: Pc) {
    !(pc.HotPoll? || pc.HotItem? || pc.HotCall? || pc.HotReturn? || pc.HotBill? || pc.HotRefill? || pc.HotTick?
      || pc.WarmReturn?)
  }

  /** The part of a thread step that matters for billing: how the clock readings move on, what is
      added to the record and which interval that stands for. */
  predicate BillingStep(s: State, s': State) {
    var now, next := s'.clock, s'.pc;
    && s.clock <= now
    && match s.pc
       case HotEnter => Unbilled(s, s') && next == HotPoll(now, 0)
       case HotPoll(start, _) =>
         Unbilled(s, s') && (next == Dispatch || ((next.HotTick? || next.HotItem?) && next.start == start))
       case HotItem(start, _, _, _) =>
         && Unbilled(s, s') && (next.HotRefill? || next.HotItem? || (next.HotCall? && next.now == now))
         && next.start == start
       case HotCall(start, _, _, _, seen) =>
         Unbilled(s, s') && next.HotReturn? && next.start == start && next.now == seen && next.began == now
       case HotReturn(start, _, _, _, seen, began) =>
         Worked(s, s', began) && next.HotBill? && next.start == start && next.now == seen && next.ended == now
       case HotBill(start, _, _, _, seen, ended) =>
         && s'.bill == UpdatePolling(s.bill, Span(start, seen))
         && s'.billed == s.billed + [Interval(true, start, seen)]
         && next.HotItem? && next.start == ended
       case HotRefill(start, _) => Unbilled(s, s') && next.HotTick? && next.start == start
       case HotTick(start, _) =>
         || (Unbilled(s, s') && next.HotPoll? && next.start == start)
         || (&& s'.bill == SendPolling(UpdatePolling(s.bill, Span(start, now)), false)
             && s'.billed == s.billed + [Interval(true, start, now)]
             && (next == HotNotify || next == HotPoll(now, 0)))
       case WarmCall(_, _) => Unbilled(s, s') && next.WarmReturn? && next.began == now
       case WarmReturn(_, _, began) => Worked(s, s', began) && next.WarmItem?
       case FlushExecution => s'.bill == SendExecution(s.bill, true) && s'.billed == s.billed && next == FlushPolling
       case FlushPolling => s'.bill == SendPolling(s.bill, true) && s'.billed == s.billed && next == Done
       case Done => Unbilled(s, s') && next == Done
       case _ => Unbilled(s, s') && Timeless(next) && next != FlushPolling && next != Done
  }

  lemma HotIsBillingStep(s: State, cfg: Config, dt: nat)
    requires !Timeless(s.pc) && !s.pc.WarmReturn?
    ensures BillingStep(s, ThreadStep(s, cfg, dt))
  {
  }

  lemma ThreadIsBillingStep(s: State, cfg: Config, dt: nat)
    requires !Blocked(s)
    ensures BillingStep(s, ThreadStep(s, cfg, dt))
  {
    if Timeless(s.pc) || s.pc.WarmReturn? {
      OtherIsBillingStep(s, cfg, dt);
    } else {
      HotIsBillingStep(s, cfg, dt);
    }
  }

  lemma FailedPollIsBillingStep(s: State, dt: nat)
    requires Polls(s)
    ensures BillingStep(s, FailedPoll(s, dt))
  {
  }

  lemma OtherIsBillingStep(s: State, cfg: Config, dt: nat)
    requires !Blocked(s) && (Timeless(s.pc) || s.pc.WarmReturn?)
    ensures BillingStep(s, ThreadStep(s, cfg, dt))
  {
    if s.pc.SetupNotify? || s.pc.SetupPollCode? || s.pc.SetupRefill? || s.pc.Dispatch? {
      SetupIsBillingStep(s, cfg, dt);
    } else {
      WarmIsBillingStep(s, cfg, dt);
    }
  }

  lemma SetupIsBillingStep(s: State, cfg: Config, dt: nat)
    requires !Blocked(s) && (s.pc.SetupNotify? || s.pc.SetupPollCode? || s.pc.SetupRefill? || s.pc.Dispatch?)
    ensures BillingStep(s, ThreadStep(s, cfg, dt))
  {
  }

  lemma WarmIsBillingStep(s: State, cfg: Config, dt: nat)
    requires !Blocked(s) && (Timeless(s.pc) || s.pc.WarmReturn?)
    requires !s.pc.SetupNotify? && !s.pc.SetupPollCode? && !s.pc.SetupRefill? && !s.pc.Dispatch?
    ensures BillingStep(s, ThreadStep(s, cfg, dt))
  {
  }

  // ---------------------------------------------------------------------------------------------
  // The invariant of one thread
  // ---------------------------------------------------------------------------------------------

  /** Everything billed lies before `t`, and adds up to no more than the time since `t0`. */
  ghost predicate Settled(billed: seq<Interval>, t0: nat, t: nat) {
    Clear(billed, t, t, t) && t0 <= t && Spent(billed) <= t - t0
  }

  /** Where the billed intervals may lie, and how the live clock readings are ordered. */
  ghost predicate Timeline(pc: Pc, billed: seq<Interval>, clock: nat, t0: nat) {
    && Disjoint(billed)
    && match pc
       case HotPoll(start, _) => Settled(billed, t0, start) && start <= clock
       case HotItem(start, _, _, _) => Settled(billed, t0, start) && start <= clock
       case HotCall(start, _, _, _, now) => Settled(billed, t0, start) && start <= now <= clock
       case HotReturn(start, _, _, _, now, began) =>
         Settled(billed, t0, start) && start <= now <= began <= clock
       case HotBill(start, _, _, _, now, ended) =>
         && t0 <= start <= now <= ended <= clock
         && Clear(billed, start, now, ended)
         && Spent(billed) <= start - t0 + (ended - now)
       case HotRefill(start, _) => Settled(billed, t0, start) && start <= clock
       case HotTick(start, _) => Settled(billed, t0, start) && start <= clock
       case WarmReturn(_, _, began) => Settled(billed, t0, began) && began <= clock
       case _ => Settled(billed, t0, clock)
  }

  ghost predicate OnTime(s: State, t0: nat) { Timeline(s.pc, s.billed, s.clock, t0) }

  /** Billing the time right after everything billed so far. */
  lemma Extends(billed: seq<Interval>, t0: nat, x: Interval)
    requires x.start <= x.end && Settled(billed, t0, x.start) && Disjoint(billed)
    ensures Disjoint(billed + [x]) && Settled(billed + [x], t0, x.end)
  {
    AppendDisjoint(billed, x, x.end);
    Append(billed, x);
  }

  /** In `hot` the execution is billed before the polling that led to it. */
  lemma HotWorkKeepsTimeline(s: State, s': State, t0: nat)
    requires OnTime(s, t0) && s.pc.HotReturn? && BillingStep(s, s')
    ensures OnTime(s', t0)
  {
    var x := Interval(false, s.pc.began, s'.clock);
    AppendDisjoint(s.billed, x, s'.clock);
    Append(s.billed, x);
  }

  lemma HotBillKeepsTimeline(s: State, s': State, t0: nat)
    requires OnTime(s, t0) && s.pc.HotBill? && BillingStep(s, s')
    ensures OnTime(s', t0)
  {
    var x := Interval(true, s.pc.start, s.pc.now);
    AppendDisjoint(s.billed, x, s.pc.ended);
    Append(s.billed, x);
  }

  lemma TickKeepsTimeline(s: State, s': State, t0: nat)
    requires OnTime(s, t0) && s.pc.HotTick? && BillingStep(s, s')
    ensures OnTime(s', t0)
  {
    Extends(s.billed, t0, Interval(true, s.pc.start, s'.clock));
  }

  lemma WarmWorkKeepsTimeline(s: State, s': State, t0: nat)
    requires OnTime(s, t0) && s.pc.WarmReturn? && BillingStep(s, s')
    ensures OnTime(s', t0)
  {
    Extends(s.billed, t0, Interval(false, s.pc.began, s'.clock));
  }

  /** Nothing billed now can be overtaken by a later reading. */
  lemma Later(s: State, t0: nat, now: nat)
    requires OnTime(s, t0) && s.clock <= now && !s.pc.HotBill?
    ensures Settled(s.billed, t0, now)
  {
  }

  lemma QuietKeepsTimeline(s: State, s': State, t0: nat)
    requires OnTime(s, t0) && BillingStep(s, s')
    requires !s.pc.HotReturn? && !s.pc.HotBill? && !s.pc.HotTick? && !s.pc.WarmReturn?
    ensures OnTime(s', t0)
  {
    Later(s, t0, s'.clock);
    assert s'.billed == s.billed;
  }

  lemma StepKeepsTimeline(s: State, s': State, t0: nat)
    requires OnTime(s, t0) && BillingStep(s, s')
    ensures OnTime(s', t0)
  {
    if s.pc.HotReturn? {
      HotWorkKeepsTimeline(s, s', t0);
    } else if s.pc.HotBill? {
      HotBillKeepsTimeline(s, s', t0);
    } else if s.pc.HotTick? {
      TickKeepsTimeline(s, s', t0);
    } else if s.pc.WarmReturn? {
      WarmWorkKeepsTimeline(s, s', t0);
    } else {
      QuietKeepsTimeline(s, s', t0);
    }
  }

  /** The record is balanced and is exactly what the billed intervals say; at most one second of
      execution is ever unsent, and nothing at all once the thread is done. */
  predicate Accounts(bill: Bill, billed: seq<Interval>) {
    && Balanced(bill)
    && bill.totalExecution == Executed(billed) % U64
    && bill.totalPolling == PolledTime(billed) % U64
    && bill.execution <= BILLING_GRANULARITY
  }

  predicate Flushed(s: State) {
    && (s.pc.FlushPolling? || s.pc.Done? ==> s.bill.execution == 0)
    && (s.pc.Done? ==> s.bill.polling == 0)
  }

  lemma WorkKeepsAccounts(bill: Bill, billed: seq<Interval>, began: nat, ended: nat)
    requires Accounts(bill, billed)
    ensures Accounts(SendExecution(UpdateExecution(bill, Span(began, ended)), false),
                     billed + [Interval(false, began, ended)])
  {
    var time := Span(began, ended);
    Append(billed, Interval(false, began, ended));
    UpdateExecutionBalances(bill, time);
    SendsBalance(UpdateExecution(bill, time), false);
    TotalAfter(Executed(billed), time);
  }

  lemma PollingKeepsAccounts(bill: Bill, billed: seq<Interval>, start: nat, end: nat)
    requires Accounts(bill, billed)
    ensures Accounts(UpdatePolling(bill, Span(start, end)), billed + [Interval(true, start, end)])
  {
    var time := Span(start, end);
    Append(billed, Interval(true, start, end));
    UpdatePollingBalances(bill, time);
    TotalAfter(PolledTime(billed), Truncated(time));
  }

  lemma SendsKeepAccounts(bill: Bill, billed: seq<Interval>, force: bool)
    requires Accounts(bill, billed)
    ensures Accounts(SendExecution(bill, force), billed) && Accounts(SendPolling(bill, force), billed)
  {
    SendsBalance(bill, force);
  }

  lemma StepKeepsAccounts(s: State, s': State)
    requires Accounts(s.bill, s.billed) && BillingStep(s, s')
    ensures Accounts(s'.bill, s'.billed)
  {
    match s.pc
    case HotReturn(_, _, _, _, _, began) => WorkKeepsAccounts(s.bill, s.billed, began, s'.clock);
    case WarmReturn(_, _, began) => WorkKeepsAccounts(s.bill, s.billed, began, s'.clock);
    case HotBill(start, _, _, _, seen, _) => PollingKeepsAccounts(s.bill, s.billed, start, seen);
    case HotTick(start, _) =>
      PollingKeepsAccounts(s.bill, s.billed, start, s'.clock);
      SendsKeepAccounts(UpdatePolling(s.bill, Span(start, s'.clock)),
                        s.billed + [Interval(true, start, s'.clock)], false);
    case FlushExecution => SendsKeepAccounts(s.bill, s.billed, true);
    case FlushPolling => SendsKeepAccounts(s.bill, s.billed, true);
    case _ =>
  }

  lemma StepFlushes(s: State, s': State)
    requires Flushed(s) && BillingStep(s, s')
    ensures Flushed(s')
  {
  }

  ghost predicate Inv(s: State, t0: nat) {
    OnTime(s, t0) && Accounts(s.bill, s.billed) && Flushed(s)
  }

  lemma StepKeeps(s: State, s': State, t0: nat)
    requires Inv(s, t0) && BillingStep(s, s')
    ensures Inv(s', t0)
  {
    StepKeepsAccounts(s, s');
    StepKeepsTimeline(s, s', t0);
    StepFlushes(s, s');
  }

  predicate SameBilling(s: State, s': State) {
    s'.pc == s.pc && s'.bill == s.bill && s'.billed == s.billed && s'.clock == s.clock
  }

  /** What any step of a run is for billing. */
  predicate Bills(s: State, s': State) { BillingStep(s, s') || SameBilling(s, s') }

  lemma NextBills(s: State, s': State, cfg: Config)
    requires Next(s, s', cfg)
    ensures Bills(s, s')
  {
    if dt: nat :| !Blocked(s) && s' == ThreadStep(s, cfg, dt) {
      ThreadIsBillingStep(s, cfg, dt);
    } else if dt: nat :| Polls(s) && s' == FailedPoll(s, dt) {
      FailedPollIsBillingStep(s, dt);
    }
  }

  lemma BillsKeeps(s: State, s': State, t0: nat)
    requires Inv(s, t0) && Bills(s, s')
    ensures Inv(s', t0)
  {
    if BillingStep(s, s') { StepKeeps(s, s', t0); }
  }

  lemma StartHolds(s: State, cfg: Config)
    requires Init(s, cfg)
    ensures Inv(s, s.clock)
  {
  }

  predicate BillsAt(run: seq<State>, i: nat)
    requires 0 < i < |run|
  {
    Bills(run[i - 1], run[i])
  }

  lemma {:induction false} KeepsOn(run: seq<State>, t0: nat, i: nat)
    requires (forall j :: 0 < j < |run| ==> BillsAt(run, j)) && i < |run| && Inv(run[0], t0)
    ensures Inv(run[i], t0)
    decreases i
  {
    if 0 < i {
      assert BillsAt(run, i);
      KeepsOn(run, t0, i - 1);
      BillsKeeps(run[i - 1], run[i], t0);
    }
  }

  lemma RunInvariant(run: seq<State>, cfg: Config, i: nat)
    requires IsRun(run, cfg) && i < |run|
    ensures Inv(run[i], run[0].clock)
  {
    StartHolds(run[0], cfg);
    forall j | 0 < j < |run| ensures BillsAt(run, j) {
      assert StepAt(run, j, cfg);
      NextBills(run[j - 1], run[j], cfg);
    }
    KeepsOn(run, run[0].clock, i);
  }

  // ---------------------------------------------------------------------------------------------
  // What every run of a thread keeps
  // ---------------------------------------------------------------------------------------------

  /** No double billing: for any sequence of hot and warm polling, batches of any size, all billed
      intervals are pairwise disjoint, so that polling and execution together never exceed the time
      that has passed. */
  lemma NoDoubleBilling(run: seq<State>, cfg: Config, i: nat)
    requires IsRun(run, cfg) && i < |run|
    ensures Disjoint(run[i].billed)
    ensures run[i].bill.totalPolling + run[i].bill.totalExecution <= run[i].clock - run[0].clock
  {
    RunInvariant(run, cfg, i);
    var s := run[i];
    PartsWithinWhole(s.billed);
    RemainderSmaller(Executed(s.billed));
    RemainderSmaller(PolledTime(s.billed));
  }

  /** The lengths of the polling intervals. */
  function PollingSpent(billed: seq<Interval>): nat {
    if billed == [] then 0
    else
      var n := |billed| - 1;
      PollingSpent(billed[..n]) + if billed[n].polling then Span(billed[n].start, billed[n].end) else 0
  }

  /** Polling intervals shorter than 2^32 ns. */
  ghost predicate AllShort(billed: seq<Interval>) {
    forall i :: 0 <= i < |billed| && billed[i].polling ==> Span(billed[i].start, billed[i].end) < 0x1_0000_0000
  }

  lemma {:induction false} ShortIsWhole(billed: seq<Interval>)
    requires AllShort(billed)
    ensures PolledTime(billed) == PollingSpent(billed)
  {
    if billed != [] {
      var n := |billed| - 1;
      ShortIsWhole(billed[..n]);
      TruncatedCuts(Span(billed[n].start, billed[n].end));
    }
  }

  /** Billing conservation at every point of every run: the totals are the billed times, polling in full
      when its intervals are shorter than 2^32 ns, and each is the unsent remainder plus what was sent; at
      most one second of execution stays unsent, and nothing after the final flush. */
  lemma BillingConservation(run: seq<State>, cfg: Config, i: nat)
    requires IsRun(run, cfg) && i < |run|
    ensures var b := run[i].bill;
            && b.totalExecution == Executed(run[i].billed) % 0x1_0000_0000_0000_0000
            && b.totalExecution == (b.execution + b.sentExecution) % 0x1_0000_0000_0000_0000
            && b.totalPolling == PolledTime(run[i].billed) % 0x1_0000_0000_0000_0000
            && b.totalPolling == (b.polling + b.sentPolling) % 0x1_0000_0000_0000_0000
            && b.execution <= 1_000_000_000
    ensures AllShort(run[i].billed) ==>
              run[i].bill.totalPolling == PollingSpent(run[i].billed) % 0x1_0000_0000_0000_0000
    ensures run[i].pc.Done? ==> run[i].bill.execution == 0 && run[i].bill.polling == 0
  {
    RunInvariant(run, cfg, i);
    if AllShort(run[i].billed) { ShortIsWhole(run[i].billed); }
  }
}
