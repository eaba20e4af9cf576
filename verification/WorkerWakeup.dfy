/** The hot/warm machine never sleeps on a completion: exactly when that is so. */
module WorkerWakeup {
  import opened Worker

  /** A completion that arrives from now on will wake the thread, and none has been overlooked. */
  predicate Wakeable(s: State) {
    0 < s.events || (s.armed && s.cq == [])
  }

  /** Completions that arrive from now on will leave an event behind. */
  predicate Notified(s: State) {
    s.armed || 0 < s.events
  }

  /** The receive bookkeeping: once the setup is over, every receive that is still posted or sits in the
      completion queue is counted in `_requests`, and there are never more than the buffer holds. */
  predicate Receiving(s: State, cfg: Config) {
    match s.pc
    case SetupNotify => s.posted == 0 && s.cq == [] && s.requests == 0
    case SetupPollCode => s.posted + |s.cq| == 1 && s.requests == 0
    case SetupRefill => s.posted == 0 && s.cq == [] && s.requests == 0
    case _ => s.posted + |s.cq| <= s.requests && s.posted + |s.cq| <= cfg.recvBuffer
  }

  predicate IsWarm(m: PollingState) { m == WARM || m == WARM_ALWAYS }

  predicate Inv(s: State, cfg: Config) {
    && Receiving(s, cfg)
    && (s.mode == WARM_ALWAYS ==> StartMode(cfg.timeout) == WARM_ALWAYS)
    && match s.pc
       case SetupNotify => s.mode == StartMode(cfg.timeout)
       case SetupPollCode => IsWarm(s.mode) ==> Notified(s)
       case SetupRefill => IsWarm(s.mode) ==> Notified(s)
       case Dispatch => IsWarm(s.mode) ==> Notified(s)
       case HotNotify => s.mode == WARM
       case WarmPoll => IsWarm(s.mode) && Notified(s)
       case WarmItem(_, _) => IsWarm(s.mode) && (s.mode == WARM_ALWAYS ==> Wakeable(s))
       case WarmCall(_, _) => IsWarm(s.mode) && (s.mode == WARM_ALWAYS ==> Wakeable(s))
       case WarmReturn(_, _, _) => IsWarm(s.mode) && (s.mode == WARM_ALWAYS ==> Wakeable(s))
       case WarmRefill => IsWarm(s.mode) && (s.mode == WARM_ALWAYS ==> Wakeable(s))
       case WarmCheck => IsWarm(s.mode) && Wakeable(s)
       case WarmWait => IsWarm(s.mode) && Wakeable(s)
       case WarmNotify => IsWarm(s.mode)
       case FlushExecution => true
       case FlushPolling => true
       case Done => true
       case _ => s.mode == HOT || s.mode == HOT_ALWAYS
  }

  /** The configurations that are safe: a thread that leaves the warm state after every batch, or one
      whose completion queue fits into a single poll. */
  predicate SafeConfig(cfg: Config) {
    StartMode(cfg.timeout) != WARM_ALWAYS || cfg.recvBuffer <= POLL_BATCH
  }

  /** Those that are safe even if polls fail. */
  predicate RobustConfig(cfg: Config) {
    StartMode(cfg.timeout) != WARM_ALWAYS || cfg.recvBuffer == 0
  }

  predicate InHot(pc: Pc) {
    pc.HotEnter? || pc.HotPoll? || pc.HotItem? || pc.HotCall? || pc.HotReturn? || pc.HotBill?
    || pc.HotRefill? || pc.HotTick? || pc.HotNotify?
  }

  predicate InWarm(pc: Pc) {
    || pc.WarmPoll? || pc.WarmItem? || pc.WarmCall? || pc.WarmReturn?
    || pc.WarmRefill? || pc.WarmCheck? || pc.WarmWait? || pc.WarmNotify?
  }

  lemma HotKeeps(s: State, cfg: Config, dt: nat)
    requires Inv(s, cfg) && InHot(s.pc)
    ensures Inv(ThreadStep(s, cfg, dt), cfg)
  {
    match s.pc
    case HotPoll(_, _) => HotPollKeeps(s, cfg, dt);
    case HotTick(_, _) => HotTickKeeps(s, cfg, dt);
    case _ => HotItemKeeps(s, cfg, dt);
  }

  lemma HotPollKeeps(s: State, cfg: Config, dt: nat)
    requires Inv(s, cfg) && s.pc.HotPoll?
    ensures Inv(ThreadStep(s, cfg, dt), cfg)
  {
  }

  lemma HotTickKeeps(s: State, cfg: Config, dt: nat)
    requires Inv(s, cfg) && s.pc.HotTick?
    ensures Inv(ThreadStep(s, cfg, dt), cfg)
  {
  }

  lemma HotItemKeeps(s: State, cfg: Config, dt: nat)
    requires Inv(s, cfg) && InHot(s.pc) && !s.pc.HotPoll? && !s.pc.HotTick?
    ensures Inv(ThreadStep(s, cfg, dt), cfg)
  {
  }

  lemma WarmKeeps(s: State, cfg: Config, dt: nat)
    requires Inv(s, cfg) && SafeConfig(cfg) && !Blocked(s) && InWarm(s.pc)
    ensures Inv(ThreadStep(s, cfg, dt), cfg)
  {
    if s.pc.WarmPoll? {
      WarmPollKeeps(s, cfg, dt);
    } else {
      WarmItemKeeps(s, cfg, dt);
    }
  }

  /** The poll takes the whole completion queue, or the thread leaves the warm state after it. */
  lemma WarmPollKeeps(s: State, cfg: Config, dt: nat)
    requires Inv(s, cfg) && SafeConfig(cfg) && s.pc.WarmPoll?
    ensures Inv(ThreadStep(s, cfg, dt), cfg)
  {
  }

  lemma WarmItemKeeps(s: State, cfg: Config, dt: nat)
    requires Inv(s, cfg) && !Blocked(s) && InWarm(s.pc) && !s.pc.WarmPoll?
    ensures Inv(ThreadStep(s, cfg, dt), cfg)
  {
  }

  lemma OtherKeeps(s: State, cfg: Config, dt: nat)
    requires Inv(s, cfg) && !Blocked(s) && !InWarm(s.pc) && !InHot(s.pc)
    ensures Inv(ThreadStep(s, cfg, dt), cfg)
  {
    if s.pc.SetupNotify? || s.pc.SetupPollCode? || s.pc.SetupRefill? {
      SetupKeeps(s, cfg, dt);
    } else {
      EndKeeps(s, cfg, dt);
    }
  }

  lemma SetupKeeps(s: State, cfg: Config, dt: nat)
    requires Inv(s, cfg) && !Blocked(s) && (s.pc.SetupNotify? || s.pc.SetupPollCode? || s.pc.SetupRefill?)
    ensures Inv(ThreadStep(s, cfg, dt), cfg)
  {
  }

  lemma EndKeeps(s: State, cfg: Config, dt: nat)
    requires Inv(s, cfg) && (s.pc.Dispatch? || s.pc.FlushExecution? || s.pc.FlushPolling? || s.pc.Done?)
    ensures Inv(ThreadStep(s, cfg, dt), cfg)
  {
  }

  lemma ThreadKeeps(s: State, cfg: Config, dt: nat)
    requires Inv(s, cfg) && SafeConfig(cfg) && !Blocked(s)
    ensures Inv(ThreadStep(s, cfg, dt), cfg)
  {
    if InHot(s.pc) {
      HotKeeps(s, cfg, dt);
    } else if InWarm(s.pc) {
      WarmKeeps(s, cfg, dt);
    } else {
      OtherKeeps(s, cfg, dt);
    }
  }

  lemma ArriveKeeps(s: State, cfg: Config, c: Completion)
    requires Inv(s, cfg) && 0 < s.posted
    ensures Inv(Arrive(s, c), cfg)
  {
  }

  lemma SoundNextKeeps(s: State, s': State, cfg: Config)
    requires Inv(s, cfg) && SafeConfig(cfg) && SoundNext(s, s', cfg)
    ensures Inv(s', cfg)
  {
    if !Blocked(s) && exists dt: nat :: s' == ThreadStep(s, cfg, dt) {
      var dt: nat :| s' == ThreadStep(s, cfg, dt);
      ThreadKeeps(s, cfg, dt);
    } else if 0 < s.posted && exists c :: s' == Arrive(s, c) {
      var c :| s' == Arrive(s, c);
      ArriveKeeps(s, cfg, c);
    }
  }

  /** After a failed poll the thread leaves the warm state, or nothing can have been overlooked. */
  lemma FailedPollKeeps(s: State, cfg: Config, dt: nat)
    requires Inv(s, cfg) && RobustConfig(cfg) && Polls(s)
    ensures Inv(FailedPoll(s, dt), cfg)
  {
  }

  lemma NextKeeps(s: State, s': State, cfg: Config)
    requires Inv(s, cfg) && RobustConfig(cfg) && Next(s, s', cfg)
    ensures Inv(s', cfg)
  {
    if SoundNext(s, s', cfg) {
      SoundNextKeeps(s, s', cfg);
    } else {
      var dt: nat :| s' == FailedPoll(s, dt);
      FailedPollKeeps(s, cfg, dt);
    }
  }

  lemma StartHolds(s: State, cfg: Config)
    requires Init(s, cfg)
    ensures Inv(s, cfg)
  {
  }

  /** The runs in which no wake-up is lost. */
  ghost predicate SafeRun(run: seq<State>, cfg: Config) {
    (IsSoundRun(run, cfg) && SafeConfig(cfg)) || (IsRun(run, cfg) && RobustConfig(cfg))
  }

  lemma {:induction false} RunInvariant(run: seq<State>, cfg: Config, i: nat)
    requires SafeRun(run, cfg) && i < |run|
    ensures Inv(run[i], cfg)
    decreases i
  {
    if i == 0 {
      StartHolds(run[0], cfg);
    } else {
      RunInvariant(run, cfg, i - 1);
      if IsSoundRun(run, cfg) && SafeConfig(cfg) {
        assert SoundStepAt(run, i, cfg);
        SoundNextKeeps(run[i - 1], run[i], cfg);
      } else {
        assert StepAt(run, i, cfg);
        NextKeeps(run[i - 1], run[i], cfg);
      }
    }
  }

  /** A completion is overlooked: the thread sleeps although its completion queue is not empty. */
  predicate Lost(s: State) {
    s.pc.WarmWait? && s.events == 0 && s.cq != []
  }

  /** No lost wake-up, for every interleaving of arrivals with the thread: when it sleeps, its
      completion queue is empty and armed, so the next arrival wakes it. */
  lemma NoLostWakeup(run: seq<State>, cfg: Config, i: nat)
    requires SafeRun(run, cfg) && i < |run|
    ensures !Lost(run[i])
    ensures run[i].pc.WarmWait? && run[i].events == 0 ==> run[i].armed && run[i].cq == []
    ensures |run[i].cq| <= if run[i].pc.SetupPollCode? then 1 else cfg.recvBuffer
  {
    RunInvariant(run, cfg, i);
  }
}
