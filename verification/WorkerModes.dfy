/** When a thread polls hot and when it polls warm, and that it keeps its receives posted. */
module WorkerModes {
  import opened Worker
  import WorkerBilling
  import WorkerTime
  import WorkerWakeup

  // ---------------------------------------------------------------------------------------------
  // Modes
  // ---------------------------------------------------------------------------------------------

  /** Polls since the thread last looked at the time. */
  function Rounds(pc: Pc): nat {
    match pc
    case HotPoll(_, iter) => iter
    case HotItem(_, iter, _, _) => iter
    case HotCall(_, iter, _, _, _) => iter
    case HotReturn(_, iter, _, _, _, _) => iter
    case HotBill(_, iter, _, _, _, _) => iter
    case HotRefill(_, iter) => iter
    case HotTick(_, iter) => iter
    case _ => 0
  }

  /** The mode belongs to the argument of the thread and to the place where it stands. */
  predicate Fitting(s: State, cfg: Config) {
    && (if cfg.timeout == -1 then s.mode == HOT_ALWAYS
        else if cfg.timeout == 0 then s.mode == WARM_ALWAYS
        else s.mode == HOT || s.mode == WARM)
    && (s.pc.HotNotify? ==> s.mode == WARM)
    && (WorkerWakeup.InHot(s.pc) && !s.pc.HotNotify? ==> s.mode == HOT || s.mode == HOT_ALWAYS)
    && (WorkerWakeup.InWarm(s.pc) ==> s.mode == WARM || s.mode == WARM_ALWAYS)
    && Rounds(s.pc) < 10000
  }

  /** The time since `start`, as the program's 32-bit variable has it, has reached the timeout. */
  predicate TimedOut(start: nat, now: nat, timeout: int) {
    start <= now ==> timeout % 0x1_0000_0000 <= (now - start) % 0x1_0000_0000
  }

  /** One round of hot polling ends.  At the 10000th the time since `start` is billed, and a thread that is
      not always hot, and whose time has reached the timeout, arms the queue and goes warm; before that the
      thread just polls again. */
  predicate Ticks(s: State, s': State, cfg: Config) {
    s.pc.HotTick? && s.pc.start <= s'.clock ==>
      if s.pc.iter + 1 == 10000 then
        && s'.billed == s.billed + [Interval(true, s.pc.start, s'.clock)]
        && (if s.mode != HOT_ALWAYS && TimedOut(s.pc.start, s'.clock, cfg.timeout)
            then s'.mode == WARM && s'.pc == HotNotify
            else s'.mode == s.mode && s'.pc == HotPoll(s'.clock, 0))
      else
        s'.billed == s.billed && s'.mode == s.mode && s'.pc == HotPoll(s.pc.start, s.pc.iter + 1)
  }

  lemma TickStep(s: State, cfg: Config, dt: nat)
    requires s.pc.HotTick?
    ensures Ticks(s, ThreadStep(s, cfg, dt), cfg)
  {
  }

  /** Every other step keeps the mode, except that a batch sends a warm thread back to hot. */
  predicate KeepsMode(s: State, s': State) {
    s'.mode == if s.pc.WarmRefill? && s'.pc.Dispatch? && s.mode != WARM_ALWAYS then HOT else s.mode
  }

  lemma OtherKeepsMode(s: State, cfg: Config, dt: nat)
    requires !Blocked(s) && !s.pc.HotTick?
    ensures KeepsMode(s, ThreadStep(s, cfg, dt))
    ensures s.pc.WarmRefill? ==> (ThreadStep(s, cfg, dt).pc.Dispatch? <==> s.mode != WARM_ALWAYS)
  {
  }

  lemma TickFits(s: State, cfg: Config, dt: nat)
    requires Fitting(s, cfg) && s.pc.HotTick?
    ensures Fitting(ThreadStep(s, cfg, dt), cfg)
  {
  }

  lemma HotFits(s: State, cfg: Config, dt: nat)
    requires Fitting(s, cfg) && WorkerWakeup.InHot(s.pc) && !s.pc.HotTick?
    ensures Fitting(ThreadStep(s, cfg, dt), cfg)
  {
  }

  lemma WarmFits(s: State, cfg: Config, dt: nat)
    requires Fitting(s, cfg) && WorkerWakeup.InWarm(s.pc) && !Blocked(s)
    ensures Fitting(ThreadStep(s, cfg, dt), cfg)
  {
  }

  lemma OtherFits(s: State, cfg: Config, dt: nat)
    requires Fitting(s, cfg) && !WorkerWakeup.InHot(s.pc) && !WorkerWakeup.InWarm(s.pc) && !Blocked(s)
    ensures Fitting(ThreadStep(s, cfg, dt), cfg)
  {
  }

  lemma NextFits(s: State, s': State, cfg: Config)
    requires Fitting(s, cfg) && Next(s, s', cfg)
    ensures Fitting(s', cfg)
  {
    if dt: nat :| !Blocked(s) && s' == ThreadStep(s, cfg, dt) {
      if s.pc.HotTick? {
        TickFits(s, cfg, dt);
      } else if WorkerWakeup.InHot(s.pc) {
        HotFits(s, cfg, dt);
      } else if WorkerWakeup.InWarm(s.pc) {
        WarmFits(s, cfg, dt);
      } else {
        OtherFits(s, cfg, dt);
      }
    }
  }

  lemma {:induction false} RunFits(run: seq<State>, cfg: Config, i: nat)
    requires IsRun(run, cfg) && i < |run|
    ensures Fitting(run[i], cfg)
    decreases i
  {
    if 0 < i {
      RunFits(run, cfg, i - 1);
      assert StepAt(run, i, cfg);
      NextFits(run[i - 1], run[i], cfg);
    }
  }

  /** What a step of a run can be, as far as modes go. */
  lemma ModeStep(s: State, s': State, cfg: Config)
    requires Next(s, s', cfg)
    ensures if s.pc.HotTick? && s'.pc != s.pc then Ticks(s, s', cfg) else KeepsMode(s, s')
    ensures s.pc.WarmRefill? && s'.pc != s.pc ==> (s'.pc.Dispatch? <==> s.mode != WARM_ALWAYS)
  {
    if dt: nat :| !Blocked(s) && s' == ThreadStep(s, cfg, dt) {
      if s.pc.HotTick? { TickStep(s, cfg, dt); } else { OtherKeepsMode(s, cfg, dt); }
    }
  }

  /** Over every run: a thread that is always hot or always warm stays so.  Any other goes from hot to warm
      exactly when its 10000th poll since it last looked at the time ends with the timeout reached, and
      that polling is billed; and from warm to hot exactly when it is done with a batch. */
  lemma ModesChangeIff(run: seq<State>, cfg: Config, i: nat)
    requires IsRun(run, cfg) && 0 < i < |run|
    ensures if cfg.timeout == -1 then run[i].mode == HOT_ALWAYS
            else if cfg.timeout == 0 then run[i].mode == WARM_ALWAYS
            else run[i].mode == HOT || run[i].mode == WARM
    ensures var s, s' := run[i - 1], run[i];
            && (s.mode == HOT ==>
                  (s'.mode == WARM <==>
                     && s.pc.HotTick? && s'.pc != s.pc && s.pc.iter + 1 == 10000 && s.pc.start <= s'.clock
                     && cfg.timeout % 0x1_0000_0000 <= (s'.clock - s.pc.start) % 0x1_0000_0000))
            && (s.mode == WARM ==> (s'.mode == HOT <==> s.pc.WarmRefill? && s'.pc != s.pc))
    ensures run[i - 1].pc.HotTick? && run[i].pc != run[i - 1].pc ==>
              run[i - 1].pc.iter < 10000 && run[i - 1].pc.start <= run[i].clock && Ticks(run[i - 1], run[i], cfg)
  {
    var s, s' := run[i - 1], run[i];
    RunFits(run, cfg, i - 1);
    RunFits(run, cfg, i);
    WorkerBilling.RunInvariant(run, cfg, i - 1);
    WorkerTime.TimelineInOrder(s, run[0].clock);
    assert StepAt(run, i, cfg);
    ModeStep(s, s', cfg);
    ClockGoesOn(s, s', cfg);
  }

  lemma ClockGoesOn(s: State, s': State, cfg: Config)
    requires Next(s, s', cfg)
    ensures s.clock <= s'.clock
  {
    WorkerBilling.NextBills(s, s', cfg);
  }

  // ---------------------------------------------------------------------------------------------
  // Receives
  // ---------------------------------------------------------------------------------------------

  predicate InSetup(pc: Pc) { pc.SetupNotify? || pc.SetupPollCode? || pc.SetupRefill? }

  /** After the set-up every receive that is counted, except for `excess` of them, is posted or has been
      completed. */
  predicate Credited(s: State, cfg: Config, excess: nat) {
    match s.pc
    case SetupNotify => s.posted == 0 && s.cq == [] && s.requests == 0 && excess == 0
    case SetupPollCode => s.posted + |s.cq| == 1 && s.requests == 0 && excess == 0
    case SetupRefill => s.posted == 0 && s.cq == [] && s.requests == 0 && excess == 0
    case _ => s.requests == s.posted + |s.cq| + excess && s.posted + |s.cq| <= cfg.recvBuffer
  }

  predicate Moves(pc: Pc) { !InSetup(pc) && !pc.HotPoll? && !pc.WarmPoll? && !Refills(pc) }

  lemma ThreadKeepsCredit(s: State, cfg: Config, dt: nat, excess: nat)
    requires Credited(s, cfg, excess) && !Blocked(s)
    ensures Credited(ThreadStep(s, cfg, dt), cfg, excess)
  {
    if Moves(s.pc) {
      MoveKeepsReceives(s, cfg, dt);
    } else if s.pc.HotPoll? || s.pc.WarmPoll? {
      PollKeepsCredit(s, cfg, dt, excess);
    } else if InSetup(s.pc) {
      SetupKeepsCredit(s, cfg, dt, excess);
    } else {
      RefillStep(s, cfg, dt);
    }
  }

  lemma PollKeepsCredit(s: State, cfg: Config, dt: nat, excess: nat)
    requires Credited(s, cfg, excess) && (s.pc.HotPoll? || s.pc.WarmPoll?)
    ensures Credited(ThreadStep(s, cfg, dt), cfg, excess)
  {
  }

  lemma SetupKeepsCredit(s: State, cfg: Config, dt: nat, excess: nat)
    requires Credited(s, cfg, excess) && !Blocked(s) && InSetup(s.pc)
    ensures Credited(ThreadStep(s, cfg, dt), cfg, excess)
  {
  }

  lemma MoveKeepsReceives(s: State, cfg: Config, dt: nat)
    requires !Blocked(s) && Moves(s.pc)
    ensures var s' := ThreadStep(s, cfg, dt);
            s'.posted == s.posted && s'.cq == s.cq && s'.requests == s.requests && !InSetup(s'.pc)
  {
    if s.pc.HotTick? { TickKeepsReceives(s, cfg, dt); }
  }

  lemma TickKeepsReceives(s: State, cfg: Config, dt: nat)
    requires s.pc.HotTick?
    ensures var s' := ThreadStep(s, cfg, dt);
            s'.posted == s.posted && s'.cq == s.cq && s'.requests == s.requests && !InSetup(s'.pc)
  {
  }

  predicate Refills(pc: Pc) { pc.SetupRefill? || pc.HotRefill? || pc.WarmRefill? }

  lemma RefillStep(s: State, cfg: Config, dt: nat)
    requires Refills(s.pc)
    ensures var s', least := ThreadStep(s, cfg, dt), if cfg.recvBuffer <= 256 then cfg.recvBuffer else 256;
            && s'.cq == s.cq && !InSetup(s'.pc)
            && (if s.requests < least
                then s'.requests == cfg.recvBuffer && s'.posted - s.posted == cfg.recvBuffer - s.requests
                else s'.requests == s.requests && s'.posted == s.posted)
  {
  }

  /** A step in which a poll fails: it takes nothing, and counts one more. */
  predicate PollFails(s: State, s': State) {
    Polls(s) && s'.requests == s.requests + 1 && s'.cq == s.cq && s'.posted == s.posted
  }

  lemma NextKeepsCredit(s: State, s': State, cfg: Config, excess: nat)
    requires Credited(s, cfg, excess) && Next(s, s', cfg)
    ensures Credited(s', cfg, excess + if PollFails(s, s') then 1 else 0)
  {
    if dt: nat :| !Blocked(s) && s' == ThreadStep(s, cfg, dt) {
      ThreadKeepsCredit(s, cfg, dt, excess);
      if s.pc.HotPoll? || s.pc.WarmPoll? { PollDoesNotFail(s, cfg, dt); }
    } else if c :| 0 < s.posted && s' == Arrive(s, c) {
      ArriveKeepsCredit(s, c, cfg, excess);
    } else if dt: nat :| Polls(s) && s' == FailedPoll(s, dt) {
      FailureIsExcess(s, cfg, dt, excess);
    }
  }

  lemma PollDoesNotFail(s: State, cfg: Config, dt: nat)
    requires s.pc.HotPoll? || s.pc.WarmPoll?
    ensures !PollFails(s, ThreadStep(s, cfg, dt))
  {
  }

  lemma ArriveKeepsCredit(s: State, c: Completion, cfg: Config, excess: nat)
    requires Credited(s, cfg, excess) && 0 < s.posted
    ensures Credited(Arrive(s, c), cfg, excess)
  {
  }

  lemma FailureIsExcess(s: State, cfg: Config, dt: nat, excess: nat)
    requires Credited(s, cfg, excess) && Polls(s)
    ensures Credited(FailedPoll(s, dt), cfg, excess + 1) && PollFails(s, FailedPoll(s, dt))
  {
  }

  /** Polls that have failed, up to state `i`. */
  function Failures(run: seq<State>, i: nat): nat
    requires i < |run|
  {
    if i == 0 then 0 else Failures(run, i - 1) + if PollFails(run[i - 1], run[i]) then 1 else 0
  }

  lemma StartIsCredited(s: State, cfg: Config)
    requires Init(s, cfg)
    ensures Credited(s, cfg, 0)
  {
  }

  lemma {:induction false} RunIsCredited(run: seq<State>, cfg: Config, i: nat)
    requires IsRun(run, cfg) && i < |run|
    ensures Credited(run[i], cfg, Failures(run, i))
    decreases i
  {
    if i == 0 {
      StartIsCredited(run[0], cfg);
    } else {
      RunIsCredited(run, cfg, i - 1);
      assert StepAt(run, i, cfg);
      NextKeepsCredit(run[i - 1], run[i], cfg, Failures(run, i - 1));
    }
  }

  /** Over every run, `_requests` is what is posted or completed plus one for every poll that has failed; what
      is posted or completed stays within the buffer; and a refill counts up to the buffer size, posting the
      difference, if and only if the count had fallen below the buffer size and below 256. */
  lemma ReceivesExact(run: seq<State>, cfg: Config, i: nat)
    requires IsRun(run, cfg) && i < |run|
    ensures !InSetup(run[i].pc) ==>
              && run[i].requests == run[i].posted + |run[i].cq| + Failures(run, i)
              && run[i].posted + |run[i].cq| <= cfg.recvBuffer
    ensures 0 < i && Refills(run[i - 1].pc) && run[i].pc != run[i - 1].pc ==>
              var s, s', least := run[i - 1], run[i], if cfg.recvBuffer <= 256 then cfg.recvBuffer else 256;
              if s.requests < least
              then s'.requests == cfg.recvBuffer && s'.posted - s.posted == cfg.recvBuffer - s.requests
              else s'.requests == s.requests && s'.posted == s.posted
  {
    RunIsCredited(run, cfg, i);
    if 0 < i && Refills(run[i - 1].pc) && run[i].pc != run[i - 1].pc {
      assert StepAt(run, i, cfg);
      var dt: nat :| run[i] == ThreadStep(run[i - 1], cfg, dt);
      RefillStep(run[i - 1], cfg, dt);
    }
  }
}
