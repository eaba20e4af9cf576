/** Whether a thread that has been told to stop gets to its final flush: exactly when. */
module WorkerStop {
  import opened Accounting
  import opened Worker
  import opened WorkerHotLoop
  import WorkerLostWakeup

  // ---------------------------------------------------------------------------------------------
  // Where a run can stand
  // ---------------------------------------------------------------------------------------------

  /** After the first completion of a batch, only failed ones are left behind. */
  predicate PassedFailed(batch: seq<Completion>, i: nat) {
    i <= |batch| && forall j :: 1 <= j < i ==> batch[j] == Failed
  }

  predicate AtSuccess(batch: seq<Completion>, i: nat) {
    i < |batch| && batch[i] == Success && PassedFailed(batch, i)
  }

  predicate Placed(s: State) {
    match s.pc
    case SetupNotify => s.cq == [] && s.posted == 0
    case HotItem(_, _, batch, i) => PassedFailed(batch, i)
    case HotCall(_, _, batch, i, _) => AtSuccess(batch, i)
    case HotReturn(_, _, batch, i, _, _) => AtSuccess(batch, i)
    case HotBill(_, _, batch, i, _, _) => AtSuccess(batch, i)
    case WarmItem(batch, i) => i <= |batch|
    case WarmCall(batch, i) => i < |batch| && batch[i] == Success
    case WarmReturn(batch, i, _) => i < |batch| && batch[i] == Success
    case _ => true
  }

  predicate InBatch(pc: Pc) {
    pc.HotItem? || pc.HotCall? || pc.HotReturn? || pc.HotBill? || pc.WarmItem? || pc.WarmCall? || pc.WarmReturn?
  }

  lemma ThreadKeepsPlace(s: State, cfg: Config, dt: nat)
    requires Placed(s) && !Blocked(s)
    ensures Placed(ThreadStep(s, cfg, dt))
  {
    if InBatch(s.pc) {
      BatchKeepsPlace(s, cfg, dt);
    } else {
      OtherKeepsPlace(s, cfg, dt);
    }
  }

  lemma BatchKeepsPlace(s: State, cfg: Config, dt: nat)
    requires Placed(s) && InBatch(s.pc)
    ensures Placed(ThreadStep(s, cfg, dt))
  {
  }

  lemma OtherKeepsPlace(s: State, cfg: Config, dt: nat)
    requires !Blocked(s) && !InBatch(s.pc)
    ensures Placed(ThreadStep(s, cfg, dt))
  {
    if s.pc.HotPoll? || s.pc.WarmPoll? {
      PollPlaces(s, cfg, dt);
    } else {
      EntersNoBatch(s, cfg, dt);
      PlainIsPlaced(ThreadStep(s, cfg, dt));
    }
  }

  /** Only a poll leads into a batch. */
  lemma EntersNoBatch(s: State, cfg: Config, dt: nat)
    requires !Blocked(s) && !InBatch(s.pc) && !s.pc.HotPoll? && !s.pc.WarmPoll?
    ensures !InBatch(ThreadStep(s, cfg, dt).pc) && !ThreadStep(s, cfg, dt).pc.SetupNotify?
  {
    if s.pc.HotTick? { TickEntersNoBatch(s, cfg, dt); }
  }

  lemma TickEntersNoBatch(s: State, cfg: Config, dt: nat)
    requires s.pc.HotTick?
    ensures ThreadStep(s, cfg, dt).pc.HotPoll? || ThreadStep(s, cfg, dt).pc.HotNotify?
  {
  }

  lemma PlainIsPlaced(s: State)
    requires !InBatch(s.pc) && !s.pc.SetupNotify?
    ensures Placed(s)
  {
  }

  lemma PollPlaces(s: State, cfg: Config, dt: nat)
    requires s.pc.HotPoll? || s.pc.WarmPoll?
    ensures Placed(ThreadStep(s, cfg, dt))
  {
  }

  lemma {:induction false} RunIsPlaced(run: seq<State>, cfg: Config, i: nat)
    requires IsRun(run, cfg) && i < |run|
    ensures Placed(run[i])
    decreases i
  {
    if 0 < i {
      RunIsPlaced(run, cfg, i - 1);
      assert StepAt(run, i, cfg);
      var s, s' := run[i - 1], run[i];
      if dt: nat :| !Blocked(s) && s' == ThreadStep(s, cfg, dt) {
        ThreadKeepsPlace(s, cfg, dt);
      }
    }
  }

  // ---------------------------------------------------------------------------------------------
  // The thread alone
  // ---------------------------------------------------------------------------------------------

  ghost predicate OwnStep(s: State, s': State, cfg: Config) {
    !Blocked(s) && exists dt: nat :: s' == ThreadStep(s, cfg, dt)
  }

  ghost predicate OwnStepAt(run: seq<State>, i: nat, cfg: Config)
    requires 0 < i < |run|
  {
    OwnStep(run[i - 1], run[i], cfg)
  }

  /** The thread goes on from `s`, and nothing else happens. */
  ghost predicate Alone(run: seq<State>, cfg: Config, s: State) {
    0 < |run| && run[0] == s && forall i :: 0 < i < |run| ==> OwnStepAt(run, i, cfg)
  }

  /** In the wait for an event, and there is none. */
  predicate Asleep(s: State) { s.pc.WarmWait? && s.events == 0 }

  /** Before the function code has come. */
  predicate Waiting(s: State) { s.pc.SetupNotify? || (s.pc.SetupPollCode? && s.cq == []) }

  /** In a batch that `hot` never gets to the end of. */
  predicate Trapped(s: State) {
    match s.pc
    case HotItem(_, _, batch, _) => !OnlyFirstSucceeds(batch)
    case HotCall(_, _, batch, _, _) => !OnlyFirstSucceeds(batch)
    case HotReturn(_, _, batch, _, _, _) => !OnlyFirstSucceeds(batch)
    case HotBill(_, _, batch, _, _, _) => !OnlyFirstSucceeds(batch)
    case _ => false
  }

  predicate CanStop(s: State) { !Asleep(s) && !Waiting(s) && !Trapped(s) }

  // ---------------------------------------------------------------------------------------------
  // It stops
  // ---------------------------------------------------------------------------------------------

  function Left(batch: seq<Completion>, i: nat): nat { if i <= |batch| then |batch| - i else 0 }

  /** A bound on the steps that are left. */
  function Rank(s: State): nat {
    match s.pc
    case SetupNotify => 6
    case SetupPollCode => 5
    case SetupRefill => 4
    case Dispatch => 3
    case HotEnter => 5
    case HotPoll(_, _) => 4
    case HotItem(_, _, batch, i) => 7 + Left(batch, i) + if i == 0 then 4 else 0
    case HotCall(_, _, batch, _, _) => 7 + |batch| + 3
    case HotReturn(_, _, batch, _, _, _) => 7 + |batch| + 2
    case HotBill(_, _, batch, _, _, _) => 7 + |batch| + 1
    case HotRefill(_, _) => 6
    case HotTick(_, _) => 5
    case HotNotify => 4
    case WarmPoll => 4
    case WarmItem(batch, i) => 7 + 3 * Left(batch, i)
    case WarmCall(batch, i) => 6 + 3 * Left(batch, i)
    case WarmReturn(batch, i, _) => 5 + 3 * Left(batch, i)
    case WarmRefill => 6
    case WarmCheck => 5
    case WarmWait => 6
    case WarmNotify => 5
    case FlushExecution => 2
    case FlushPolling => 1
    case Done => 0
  }

  /** Nearer to the end, and still free to go on. */
  predicate Nearer(s: State, s': State) {
    s'.term && CanStop(s') && (s.pc.Done? || Rank(s') < Rank(s))
  }

  lemma BatchNearer(s: State, cfg: Config, dt: nat)
    requires Placed(s) && s.term && CanStop(s) && InBatch(s.pc)
    ensures Nearer(s, ThreadStep(s, cfg, dt))
  {
  }

  lemma OtherNearer(s: State, cfg: Config, dt: nat)
    requires Placed(s) && s.term && CanStop(s) && !InBatch(s.pc) && !Blocked(s)
    ensures Nearer(s, ThreadStep(s, cfg, dt))
  {
  }

  /** Told to stop, the thread comes nearer to its end with every step, at whatever times it takes them. */
  lemma StopStep(s: State, cfg: Config, dt: nat)
    requires Placed(s) && s.term && CanStop(s)
    ensures !Blocked(s) && Placed(ThreadStep(s, cfg, dt)) && Nearer(s, ThreadStep(s, cfg, dt))
  {
    ThreadKeepsPlace(s, cfg, dt);
    if InBatch(s.pc) {
      BatchNearer(s, cfg, dt);
    } else {
      OtherNearer(s, cfg, dt);
    }
  }

  lemma {:induction false} Stops(s: State, cfg: Config) returns (run: seq<State>)
    requires Placed(s) && s.term && CanStop(s)
    ensures Alone(run, cfg, s) && Last(run).pc.Done?
    decreases Rank(s)
  {
    run := [s];
    if !s.pc.Done? {
      StopStep(s, cfg, 0);
      var s' := ThreadStep(s, cfg, 0);
      var rest := Stops(s', cfg);
      run := [s] + rest;
      forall i | 0 < i < |run| ensures OwnStepAt(run, i, cfg) {
        if i == 1 {
          assert OwnStep(s, s', cfg);
        } else {
          assert OwnStepAt(rest, i - 1, cfg);
        }
      }
    }
  }

  /** However it goes on alone, the thread has stopped after so many steps. */
  lemma {:induction false} HasStopped(run: seq<State>, cfg: Config, s: State, k: nat)
    requires Placed(s) && s.term && CanStop(s) && Alone(run, cfg, s) && k < |run|
    ensures Placed(run[k]) && run[k].term && CanStop(run[k])
    ensures run[k].pc.Done? || Rank(run[k]) + k <= Rank(s)
    decreases k
  {
    if 0 < k {
      HasStopped(run, cfg, s, k - 1);
      assert OwnStepAt(run, k, cfg);
      var dt: nat :| run[k] == ThreadStep(run[k - 1], cfg, dt);
      StopStep(run[k - 1], cfg, dt);
    }
  }

  // ---------------------------------------------------------------------------------------------
  // It does not stop
  // ---------------------------------------------------------------------------------------------

  /** The batch that the thread is trapped in, and a success that it never gets past. */
  predicate TrappedBy(pc: Pc, batch: seq<Completion>, j: nat) {
    1 <= j < |batch| && batch[j] == Success && Within(pc, batch, j)
  }

  lemma TrappedWithin(s: State) returns (batch: seq<Completion>, j: nat)
    requires Placed(s) && Trapped(s)
    ensures TrappedBy(s.pc, batch, j)
  {
    batch := s.pc.batch;
    j :| 1 <= j < |batch| && batch[j] != Failed;
  }

  predicate Stuck(s: State, batch: seq<Completion>, j: nat) {
    Asleep(s) || (Waiting(s) && s.cq == []) || TrappedBy(s.pc, batch, j)
  }

  lemma StuckStep(s: State, cfg: Config, dt: nat, batch: seq<Completion>, j: nat)
    requires Stuck(s, batch, j) && !Blocked(s)
    ensures Stuck(ThreadStep(s, cfg, dt), batch, j)
  {
    if !s.pc.SetupNotify? { WithinStep(s, cfg, dt, batch, j); }
  }

  lemma {:induction false} StaysStuck(run: seq<State>, cfg: Config, s: State, batch: seq<Completion>, j: nat, k: nat)
    requires Alone(run, cfg, s) && Stuck(s, batch, j) && k < |run|
    ensures Stuck(run[k], batch, j)
    decreases k
  {
    if 0 < k {
      StaysStuck(run, cfg, s, batch, j, k - 1);
      assert OwnStepAt(run, k, cfg);
      var dt: nat :| run[k] == ThreadStep(run[k - 1], cfg, dt);
      StuckStep(run[k - 1], cfg, dt, batch, j);
    }
  }

  // ---------------------------------------------------------------------------------------------
  // The condition
  // ---------------------------------------------------------------------------------------------

  /** In every run, a thread that has been told to stop gets to the end of its final flush by its own
      steps if and only if it is not asleep, not waiting for the function code, and not in a hot batch
      with a success behind its first completion.  Then it does so whatever time its steps take. */
  lemma StopsIff(run: seq<State>, cfg: Config, i: nat)
    requires IsRun(run, cfg) && i < |run| && run[i].term
    ensures (exists own: seq<State> :: Alone(own, cfg, run[i]) && Last(own).pc.Done?) <==> CanStop(run[i])
    ensures CanStop(run[i]) ==>
              forall own: seq<State>, k: nat :: Alone(own, cfg, run[i]) && Rank(run[i]) <= k < |own| ==> own[k].pc.Done?
  {
    var s := run[i];
    RunIsPlaced(run, cfg, i);
    if CanStop(s) {
      var own := Stops(s, cfg);
      forall own: seq<State>, k: nat | Alone(own, cfg, s) && Rank(s) <= k < |own| ensures own[k].pc.Done? {
        HasStopped(own, cfg, s, k);
      }
    } else {
      var batch, j := [], 0;
      if Trapped(s) { batch, j := TrappedWithin(s); }
      forall own: seq<State> | Alone(own, cfg, s) ensures !Last(own).pc.Done? {
        StaysStuck(own, cfg, s, batch, j, |own| - 1);
      }
    }
  }

  // ---------------------------------------------------------------------------------------------
  // What a sleeping thread costs
  // ---------------------------------------------------------------------------------------------

  /** One invocation that runs for `time`, after which the thread goes back to sleep. */
  lemma WorksOnce(run: seq<State>, cfg: Config, time: nat) returns (run': seq<State>)
    requires IsSoundRun(run, cfg) && 0 < Last(run).posted && Last(run).bill == NewBill() && time <= BILLING_GRANULARITY
    requires WorkerLostWakeup.Warm(Last(run), WarmWait, 0, false, 1) && Last(run).cq == []
    ensures IsSoundRun(run', cfg) && Asleep(Last(run')) && Last(run').bill.execution == time && !Last(run').term
  {
    run' := WorkerLostWakeup.Extend(run, cfg, Arrive(Last(run), Success));
    run' := WorkerLostWakeup.Moves(run', cfg);
    run' := WorkerLostWakeup.Moves(run', cfg);
    run' := WorkerLostWakeup.Moves(run', cfg);
    run' := InvokedOnce(run', cfg, time);
  }

  lemma InvokedOnce(run: seq<State>, cfg: Config, time: nat) returns (run': seq<State>)
    requires IsSoundRun(run, cfg) && Last(run).bill == NewBill() && time <= BILLING_GRANULARITY
    requires WorkerLostWakeup.Warm(Last(run), WarmItem([Success], 0), 0, true, 0)
    ensures IsSoundRun(run', cfg) && Asleep(Last(run')) && Last(run').bill.execution == time && !Last(run').term
  {
    run' := WorkerLostWakeup.Moves(run, cfg);
    run' := WorkerLostWakeup.Moves(run', cfg);
    run' := WorkerLostWakeup.MovesBy(run', cfg, time);
    assert WorkerLostWakeup.Warm(Last(run'), WarmItem([Success], 1), 0, true, 0) && Last(run').bill.execution == time;
    run' := WorkerLostWakeup.Moves(run', cfg);
    run' := WorkerLostWakeup.Moves(run', cfg);
    run' := WorkerLostWakeup.Moves(run', cfg);
  }

  /** Every thread that is always warm and takes invocations can be told to stop while it sleeps, with any
      execution time up to a second unsent.  Alone it takes no step any more, so that this time never
      reaches the manager. */
  lemma SleepsThroughStop(cfg: Config, time: nat) returns (run: seq<State>)
    requires StartMode(cfg.timeout) == WARM_ALWAYS && 0 < cfg.recvBuffer && time <= BILLING_GRANULARITY
    ensures IsRun(run, cfg) && Last(run).term && Asleep(Last(run)) && Last(run).bill.execution == time
    ensures forall own: seq<State> :: Alone(own, cfg, Last(run)) ==> own == [Last(run)]
  {
    run := WorkerLostWakeup.SetsUp(cfg);
    run := WorksOnce(run, cfg, time);
    run := WorkerLostWakeup.Extend(run, cfg, Terminate(Last(run)));
    WorkerLostWakeup.SoundIsRun(run, cfg);
    forall own: seq<State> | Alone(own, cfg, Last(run)) ensures own == [Last(run)] {
      assert 1 < |own| ==> OwnStepAt(own, 1, cfg);
    }
  }
}
