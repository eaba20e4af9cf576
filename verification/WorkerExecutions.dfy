/** Every invocation that arrives is executed: what has arrived is executed, or being handled, or waiting. */
module WorkerExecutions {
  import opened Accounting
  import opened Worker
  import WorkerStop

  // ---------------------------------------------------------------------------------------------
  // Counting
  // ---------------------------------------------------------------------------------------------

  /** Successful completions from position `i` on. */
  function Successes(batch: seq<Completion>, i: nat): nat
    decreases |batch| - i
  {
    if |batch| <= i then 0 else Successes(batch, i + 1) + if batch[i] == Success then 1 else 0
  }

  /** Executions among the billed intervals. */
  function Executions(billed: seq<Interval>): nat {
    if billed == [] then 0
    else Executions(billed[..|billed| - 1]) + if billed[|billed| - 1].polling then 0 else 1
  }

  /** Successful completions of the current batch that the thread will still execute. */
  function Remaining(pc: Pc): nat {
    match pc
    case HotItem(_, _, batch, i) => Successes(batch, i)
    case HotCall(_, _, batch, i, _) => Successes(batch, i)
    case HotReturn(_, _, batch, i, _, _) => Successes(batch, i)
    case HotBill(_, _, batch, _, _, _) => Successes(batch, 1)
    case WarmItem(batch, i) => Successes(batch, i)
    case WarmCall(batch, i) => Successes(batch, i)
    case WarmReturn(batch, i, _) => Successes(batch, i)
    case _ => 0
  }

  predicate InSetup(pc: Pc) { pc.SetupNotify? || pc.SetupPollCode? || pc.SetupRefill? }

  /** Invocations in the completion queue; during the set-up it holds the function code at most. */
  function Queued(s: State): nat { if InSetup(s.pc) then 0 else Successes(s.cq, 0) }

  lemma {:induction false} SuccessesSplit(cq: seq<Completion>, n: nat, i: nat)
    requires n <= |cq|
    ensures i <= n ==> Successes(cq, i) == Successes(cq[..n], i) + Successes(cq[n..], 0)
    ensures n <= i ==> Successes(cq, i) == Successes(cq[n..], i - n)
    decreases |cq| - i
  {
    if i < |cq| {
      SuccessesSplit(cq, n, i + 1);
    }
  }

  lemma SuccessesAppend(cq: seq<Completion>, c: Completion)
    ensures Successes(cq + [c], 0) == Successes(cq, 0) + if c == Success then 1 else 0
  {
    SuccessesSplit(cq + [c], |cq|, 0);
    assert (cq + [c])[..|cq|] == cq && (cq + [c])[|cq|..] == [c];
  }

  lemma ExecutionsAppend(billed: seq<Interval>, x: Interval)
    ensures Executions(billed + [x]) == Executions(billed) + if x.polling then 0 else 1
  {
    assert (billed + [x])[..|billed|] == billed;
  }

  lemma {:induction false} PassedHasNone(batch: seq<Completion>, i: nat, k: nat)
    requires WorkerStop.PassedFailed(batch, i) && 1 <= k <= i
    ensures Successes(batch, k) == Successes(batch, i)
    decreases i - k
  {
    if k < i { PassedHasNone(batch, i, k + 1); }
  }

  // ---------------------------------------------------------------------------------------------
  // Steps
  // ---------------------------------------------------------------------------------------------

  function Account(s: State): nat { Executions(s.billed) + Remaining(s.pc) + Queued(s) }

  /** An invocation arrives. */
  predicate Arrives(s: State, s': State) {
    |s.cq| < |s'.cq| && s'.cq[|s.cq|] == Success && !InSetup(s.pc)
  }

  /** `hot` executes a completion behind the first one, and will come back to it. */
  predicate Repeats(s: State, s': State) {
    s.pc.HotReturn? && 1 <= s.pc.i && s'.pc.HotBill?
  }

  /** What the set-up leaves behind. */
  predicate SettingUp(s: State) {
    match s.pc
    case SetupNotify => s.posted == 0 && s.cq == []
    case SetupPollCode => s.posted + |s.cq| == 1
    case SetupRefill => s.posted == 0 && s.cq == []
    case _ => true
  }

  lemma PollKeepsAccount(s: State, cfg: Config, dt: nat)
    requires s.pc.HotPoll? || s.pc.WarmPoll?
    ensures Account(ThreadStep(s, cfg, dt)) == Account(s)
    ensures Quiet(s, ThreadStep(s, cfg, dt))
  {
    SuccessesSplit(s.cq, |Polled(s)|, 0);
    PollEffect(s, cfg, dt);
  }

  /** What a poll does: it moves the first completions of the queue into the batch. */
  lemma PollEffect(s: State, cfg: Config, dt: nat)
    requires s.pc.HotPoll? || s.pc.WarmPoll?
    ensures var s' := ThreadStep(s, cfg, dt);
            && s'.billed == s.billed && !InSetup(s'.pc) && !s'.pc.HotBill? && |s'.cq| <= |s.cq|
            && (if s.term then s'.cq == s.cq && Remaining(s'.pc) == 0
                else s'.cq == s.cq[|Polled(s)|..] && Polled(s) == s.cq[..|Polled(s)|]
                     && Remaining(s'.pc) == Successes(Polled(s), 0))
  {
  }

  /** An execution is billed, and the completion is behind. */
  lemma HotReturnKeepsAccount(s: State, cfg: Config, dt: nat)
    requires WorkerStop.Placed(s) && s.pc.HotReturn?
    ensures var s' := ThreadStep(s, cfg, dt);
            Account(s') == Account(s) + (if Repeats(s, s') then 1 else 0) && !Arrives(s, s')
  {
    var s' := ThreadStep(s, cfg, dt);
    ExecutionsAppend(s.billed, Interval(false, s.pc.began, s.clock + dt));
    ReturnEffect(s, cfg, dt);
    HotReturnIsBehind(s, s');
  }

  /** What a return does, apart from the record. */
  lemma ReturnEffect(s: State, cfg: Config, dt: nat)
    requires s.pc.HotReturn? || s.pc.WarmReturn?
    ensures var s' := ThreadStep(s, cfg, dt);
            && s'.billed == s.billed + [Interval(false, s.pc.began, s.clock + dt)] && s'.cq == s.cq
            && (if s.pc.HotReturn? then s'.pc.HotBill? && s'.pc.batch == s.pc.batch
                else s'.pc == WarmItem(s.pc.batch, s.pc.i + 1))
  {
  }

  lemma HotReturnIsBehind(s: State, s': State)
    requires WorkerStop.Placed(s) && s.pc.HotReturn? && s'.pc.HotBill? && s'.pc.batch == s.pc.batch
    ensures Remaining(s'.pc) + 1 == Remaining(s.pc) + if 1 <= s.pc.i then 1 else 0
  {
    if 1 <= s.pc.i { PassedHasNone(s.pc.batch, s.pc.i, 1); }
  }

  lemma WarmReturnKeepsAccount(s: State, cfg: Config, dt: nat)
    requires WorkerStop.Placed(s) && s.pc.WarmReturn?
    ensures Account(ThreadStep(s, cfg, dt)) == Account(s) && Quiet(s, ThreadStep(s, cfg, dt))
  {
    ExecutionsAppend(s.billed, Interval(false, s.pc.began, s.clock + dt));
    ReturnEffect(s, cfg, dt);
  }

  predicate Quiet(s: State, s': State) { !Repeats(s, s') && !Arrives(s, s') }

  lemma HotBillKeepsAccount(s: State, cfg: Config, dt: nat)
    requires s.pc.HotBill?
    ensures Account(ThreadStep(s, cfg, dt)) == Account(s) && Quiet(s, ThreadStep(s, cfg, dt))
  {
    ExecutionsAppend(s.billed, Interval(true, s.pc.start, s.pc.now));
    BillEffect(s, cfg, dt);
  }

  lemma BillEffect(s: State, cfg: Config, dt: nat)
    requires s.pc.HotBill?
    ensures var s' := ThreadStep(s, cfg, dt);
            && s'.billed == s.billed + [Interval(true, s.pc.start, s.pc.now)] && s'.cq == s.cq
            && s'.pc.HotItem? && s'.pc.batch == s.pc.batch && s'.pc.i == 1
  {
  }

  lemma HotTickKeepsAccount(s: State, cfg: Config, dt: nat)
    requires s.pc.HotTick?
    ensures Account(ThreadStep(s, cfg, dt)) == Account(s) && Quiet(s, ThreadStep(s, cfg, dt))
  {
    ExecutionsAppend(s.billed, Interval(true, s.pc.start, s.clock + dt));
    WorkerStop.TickEntersNoBatch(s, cfg, dt);
    TickEffect(s, cfg, dt);
  }

  lemma TickEffect(s: State, cfg: Config, dt: nat)
    requires s.pc.HotTick?
    ensures var s' := ThreadStep(s, cfg, dt);
            && s'.cq == s.cq
            && (s'.billed == s.billed || s'.billed == s.billed + [Interval(true, s.pc.start, s.clock + dt)])
  {
  }

  /** Looking at a completion, and calling the function. */
  lemma ItemKeepsAccount(s: State, cfg: Config, dt: nat)
    requires WorkerStop.Placed(s)
    requires s.pc.HotItem? || s.pc.HotCall? || s.pc.WarmItem? || s.pc.WarmCall?
    ensures Account(ThreadStep(s, cfg, dt)) == Account(s) && Quiet(s, ThreadStep(s, cfg, dt))
  {
  }

  predicate Bookkeeps(pc: Pc) {
    !WorkerStop.InBatch(pc) && !pc.HotPoll? && !pc.WarmPoll? && !pc.HotTick?
  }

  lemma OtherKeepsAccount(s: State, cfg: Config, dt: nat)
    requires SettingUp(s) && !Blocked(s) && Bookkeeps(s.pc)
    ensures Account(ThreadStep(s, cfg, dt)) == Account(s) && Quiet(s, ThreadStep(s, cfg, dt))
  {
    if InSetup(s.pc) {
      SetupKeepsAccount(s, cfg, dt);
    } else {
      MovesOnly(s, cfg, dt);
    }
  }

  lemma SetupKeepsAccount(s: State, cfg: Config, dt: nat)
    requires SettingUp(s) && !Blocked(s) && InSetup(s.pc)
    ensures Account(ThreadStep(s, cfg, dt)) == Account(s) && Quiet(s, ThreadStep(s, cfg, dt))
  {
    assert Successes([], 0) == 0;
  }

  /** Steps that change neither the queue nor the intervals, and enter no batch. */
  lemma MovesOnly(s: State, cfg: Config, dt: nat)
    requires !Blocked(s) && Bookkeeps(s.pc) && !InSetup(s.pc)
    ensures var s' := ThreadStep(s, cfg, dt);
            && s'.cq == s.cq && s'.billed == s.billed && s'.repetitions == s.repetitions
            && s'.bill.totalRequests == s.bill.totalRequests
            && !WorkerStop.InBatch(s'.pc) && !InSetup(s'.pc)
  {
    WorkerStop.EntersNoBatch(s, cfg, dt);
  }

  lemma ThreadKeepsAccount(s: State, cfg: Config, dt: nat)
    requires WorkerStop.Placed(s) && SettingUp(s) && !Blocked(s)
    ensures var s' := ThreadStep(s, cfg, dt);
            Account(s') == Account(s) + (if Repeats(s, s') then 1 else 0) && !Arrives(s, s')
  {
    match s.pc
    case HotPoll(_, _) => PollKeepsAccount(s, cfg, dt);
    case WarmPoll => PollKeepsAccount(s, cfg, dt);
    case HotReturn(_, _, _, _, _, _) => HotReturnKeepsAccount(s, cfg, dt);
    case WarmReturn(_, _, _) => WarmReturnKeepsAccount(s, cfg, dt);
    case HotBill(_, _, _, _, _, _) => HotBillKeepsAccount(s, cfg, dt);
    case HotTick(_, _) => HotTickKeepsAccount(s, cfg, dt);
    case HotItem(_, _, _, _) => ItemKeepsAccount(s, cfg, dt);
    case HotCall(_, _, _, _, _) => ItemKeepsAccount(s, cfg, dt);
    case WarmItem(_, _) => ItemKeepsAccount(s, cfg, dt);
    case WarmCall(_, _) => ItemKeepsAccount(s, cfg, dt);
    case _ => OtherKeepsAccount(s, cfg, dt);
  }

  lemma ArriveKeepsAccount(s: State, c: Completion)
    requires 0 < s.posted
    ensures var s' := Arrive(s, c);
            Account(s') == Account(s) + (if Arrives(s, s') then 1 else 0) && !Repeats(s, s')
  {
    SuccessesAppend(s.cq, c);
  }

  lemma FailedPollKeepsAccount(s: State, dt: nat)
    requires Polls(s)
    ensures Account(FailedPoll(s, dt)) == Account(s) && Quiet(s, FailedPoll(s, dt))
  {
  }

  lemma NextKeepsAccount(s: State, s': State, cfg: Config)
    requires WorkerStop.Placed(s) && SettingUp(s) && Next(s, s', cfg)
    ensures Account(s') == Account(s) + (if Repeats(s, s') then 1 else 0) + (if Arrives(s, s') then 1 else 0)
  {
    if dt: nat :| !Blocked(s) && s' == ThreadStep(s, cfg, dt) {
      ThreadKeepsAccount(s, cfg, dt);
    } else if c :| 0 < s.posted && s' == Arrive(s, c) {
      ArriveKeepsAccount(s, c);
    } else if dt: nat :| Polls(s) && s' == FailedPoll(s, dt) {
      FailedPollKeepsAccount(s, dt);
    }
  }

  // ---------------------------------------------------------------------------------------------
  // The counters of the program
  // ---------------------------------------------------------------------------------------------

  /** `repetitions` and the number of billed requests follow the executions. */
  predicate Counted(s: State) {
    && Executions(s.billed) == s.repetitions + (if s.pc.HotBill? then 1 else 0)
    && s.bill.totalRequests == Executions(s.billed) % 0x1_0000_0000_0000_0000
  }

  /** What a step does to them. */
  ghost predicate Counts(s: State, s': State) {
    if s.pc.HotReturn? || s.pc.WarmReturn? then
      && (exists x: Interval :: !x.polling && s'.billed == s.billed + [x])
      && s'.bill.totalRequests == (s.bill.totalRequests + 1) % 0x1_0000_0000_0000_0000
      && s'.repetitions == s.repetitions + (if s.pc.WarmReturn? then 1 else 0)
      && s'.pc.HotBill? == s.pc.HotReturn?
    else
      && (s'.billed == s.billed || exists x: Interval :: x.polling && s'.billed == s.billed + [x])
      && s'.bill.totalRequests == s.bill.totalRequests
      && s'.repetitions == s.repetitions + (if s.pc.HotBill? then 1 else 0)
      && !s'.pc.HotBill?
  }

  lemma ReturnCounts(s: State, cfg: Config, dt: nat)
    requires s.pc.HotReturn? || s.pc.WarmReturn?
    ensures Counts(s, ThreadStep(s, cfg, dt))
  {
    var s' := ThreadStep(s, cfg, dt);
    assert s'.billed == s.billed + [Interval(false, s.pc.began, s.clock + dt)];
  }

  lemma PollingCounts(s: State, cfg: Config, dt: nat)
    requires s.pc.HotBill? || s.pc.HotTick?
    ensures Counts(s, ThreadStep(s, cfg, dt))
  {
    var s' := ThreadStep(s, cfg, dt);
    assert || s'.billed == s.billed || s'.billed == s.billed + [Interval(true, s.pc.start, s.clock + dt)]
           || (s.pc.HotBill? && s'.billed == s.billed + [Interval(true, s.pc.start, s.pc.now)]);
  }

  lemma LookingCounts(s: State, cfg: Config, dt: nat)
    requires s.pc.HotItem? || s.pc.HotCall? || s.pc.WarmItem? || s.pc.WarmCall? || s.pc.HotPoll? || s.pc.WarmPoll?
    ensures Counts(s, ThreadStep(s, cfg, dt))
  {
  }

  lemma SetupCounts(s: State, cfg: Config, dt: nat)
    requires !Blocked(s) && InSetup(s.pc)
    ensures Counts(s, ThreadStep(s, cfg, dt))
  {
  }

  lemma ThreadCounts(s: State, cfg: Config, dt: nat)
    requires !Blocked(s)
    ensures Counts(s, ThreadStep(s, cfg, dt))
  {
    if s.pc.HotReturn? || s.pc.WarmReturn? {
      ReturnCounts(s, cfg, dt);
    } else if s.pc.HotBill? || s.pc.HotTick? {
      PollingCounts(s, cfg, dt);
    } else if InSetup(s.pc) {
      SetupCounts(s, cfg, dt);
    } else if Bookkeeps(s.pc) {
      MovesOnly(s, cfg, dt);
    } else {
      LookingCounts(s, cfg, dt);
    }
  }

  lemma CountsKeeps(s: State, s': State)
    requires Counted(s) && Counts(s, s')
    ensures Counted(s')
  {
    if s.pc.HotReturn? || s.pc.WarmReturn? {
      var x: Interval :| !x.polling && s'.billed == s.billed + [x];
      ExecutionIsCounted(s, s', x);
    } else if s'.billed != s.billed {
      var x: Interval :| x.polling && s'.billed == s.billed + [x];
      ExecutionsAppend(s.billed, x);
    }
  }

  lemma ExecutionIsCounted(s: State, s': State, x: Interval)
    requires Counted(s) && !x.polling && s'.billed == s.billed + [x] && !s.pc.HotBill?
    requires s'.bill.totalRequests == (s.bill.totalRequests + 1) % 0x1_0000_0000_0000_0000
    requires s'.repetitions + (if s'.pc.HotBill? then 1 else 0) == s.repetitions + 1
    ensures Counted(s')
  {
    ExecutionsAppend(s.billed, x);
    OneMore(Executions(s.billed));
  }

  lemma OneMore(n: nat)
    ensures (n % 0x1_0000_0000_0000_0000 + 1) % 0x1_0000_0000_0000_0000 == (n + 1) % 0x1_0000_0000_0000_0000
  {
    TotalAfter(n, 1);
  }

  predicate Uncounted(s: State, s': State) {
    s'.billed == s.billed && s'.bill == s.bill && s'.repetitions == s.repetitions && s'.pc.HotBill? == s.pc.HotBill?
  }

  lemma NextCounts(s: State, s': State, cfg: Config)
    requires Next(s, s', cfg)
    ensures Counts(s, s') || Uncounted(s, s')
  {
    if dt: nat :| !Blocked(s) && s' == ThreadStep(s, cfg, dt) {
      ThreadCounts(s, cfg, dt);
    }
  }

  // ---------------------------------------------------------------------------------------------
  // Runs
  // ---------------------------------------------------------------------------------------------

  lemma SetupStep(s: State, s': State, cfg: Config)
    requires SettingUp(s) && Next(s, s', cfg)
    ensures SettingUp(s')
  {
    if dt: nat :| !Blocked(s) && s' == ThreadStep(s, cfg, dt) {
      if InSetup(s.pc) { SetupGoesOn(s, cfg, dt); } else { SetupIsOver(s, cfg, dt); }
    }
  }

  lemma SetupGoesOn(s: State, cfg: Config, dt: nat)
    requires SettingUp(s) && !Blocked(s) && InSetup(s.pc)
    ensures SettingUp(ThreadStep(s, cfg, dt))
  {
  }

  lemma SetupIsOver(s: State, cfg: Config, dt: nat)
    requires !Blocked(s) && !InSetup(s.pc)
    ensures !InSetup(ThreadStep(s, cfg, dt).pc)
  {
    if Bookkeeps(s.pc) { MovesOnly(s, cfg, dt); }
    if s.pc.HotTick? { WorkerStop.TickEntersNoBatch(s, cfg, dt); }
  }

  /** Invocations that have arrived, up to state `i`. */
  function Arrived(run: seq<State>, i: nat): nat
    requires i < |run|
  {
    if i == 0 then 0 else Arrived(run, i - 1) + if Arrives(run[i - 1], run[i]) then 1 else 0
  }

  /** Executions, up to state `i`, of a completion that `hot` comes back to. */
  function Repeated(run: seq<State>, i: nat): nat
    requires i < |run|
  {
    if i == 0 then 0 else Repeated(run, i - 1) + if Repeats(run[i - 1], run[i]) then 1 else 0
  }

  lemma {:induction false} RunKeepsAccount(run: seq<State>, cfg: Config, i: nat)
    requires IsRun(run, cfg) && i < |run|
    ensures SettingUp(run[i]) && Account(run[i]) == Arrived(run, i) + Repeated(run, i)
    decreases i
  {
    if 0 < i {
      RunKeepsAccount(run, cfg, i - 1);
      WorkerStop.RunIsPlaced(run, cfg, i - 1);
      assert StepAt(run, i, cfg);
      NextKeepsAccount(run[i - 1], run[i], cfg);
      SetupStep(run[i - 1], run[i], cfg);
    }
  }

  lemma {:induction false} RunIsCounted(run: seq<State>, cfg: Config, i: nat)
    requires IsRun(run, cfg) && i < |run|
    ensures Counted(run[i])
    decreases i
  {
    if 0 < i {
      RunIsCounted(run, cfg, i - 1);
      assert StepAt(run, i, cfg);
      NextCounts(run[i - 1], run[i], cfg);
      if Counts(run[i - 1], run[i]) { CountsKeeps(run[i - 1], run[i]); }
    }
  }

  /** Every invocation is executed, in every run: executions, plus the invocations that the thread is about
      to handle, plus those in its completion queue, are those that arrived, plus one for each time `hot`
      executed a completion that it comes back to.  The two counters of the program count executions. */
  lemma ExecutionsExact(run: seq<State>, cfg: Config, i: nat)
    requires IsRun(run, cfg) && i < |run|
    ensures Executions(run[i].billed) + Remaining(run[i].pc) + Queued(run[i]) == Arrived(run, i) + Repeated(run, i)
    ensures Executions(run[i].billed) == run[i].repetitions + (if run[i].pc.HotBill? then 1 else 0)
    ensures run[i].bill.totalRequests == Executions(run[i].billed) % 0x1_0000_0000_0000_0000
  {
    RunKeepsAccount(run, cfg, i);
    RunIsCounted(run, cfg, i);
  }
}
