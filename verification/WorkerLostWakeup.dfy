/** The other half of the wake-up question: every configuration that is not safe has a run in which the
    thread sleeps on an unhandled completion. */
module WorkerLostWakeup {
  import opened Worker
  import opened WorkerWakeup
  import Accounting

  function Last(run: seq<State>): State
    requires 0 < |run|
  {
    run[|run| - 1]
  }

  lemma Extend(run: seq<State>, cfg: Config, s: State) returns (run': seq<State>)
    requires IsSoundRun(run, cfg) && SoundNext(Last(run), s, cfg)
    ensures IsSoundRun(run', cfg) && Last(run') == s
  {
    run' := run + [s];
    forall i | 0 < i < |run'| ensures SoundStepAt(run', i, cfg) {
      assert i < |run| ==> SoundStepAt(run, i, cfg);
    }
  }

  lemma MovesBy(run: seq<State>, cfg: Config, dt: nat) returns (run': seq<State>)
    requires IsSoundRun(run, cfg) && !Blocked(Last(run))
    ensures IsSoundRun(run', cfg) && Last(run') == ThreadStep(Last(run), cfg, dt)
  {
    run' := Extend(run, cfg, ThreadStep(Last(run), cfg, dt));
  }

  lemma Moves(run: seq<State>, cfg: Config) returns (run': seq<State>)
    requires IsSoundRun(run, cfg) && !Blocked(Last(run))
    ensures IsSoundRun(run', cfg) && Last(run') == ThreadStep(Last(run), cfg, 0)
  {
    run' := MovesBy(run, cfg, 0);
  }

  lemma {:induction false} Arrivals(run: seq<State>, cfg: Config, n: nat) returns (run': seq<State>)
    requires IsSoundRun(run, cfg) && n <= Last(run).posted && !Last(run).armed && Last(run).cq == []
    ensures IsSoundRun(run', cfg)
    ensures Last(run') == Last(run).(cq := seq(n, _ => Failed), posted := Last(run).posted - n)
    decreases n
  {
    run' := run;
    if 0 < n {
      run' := Arrivals(run, cfg, n - 1);
      assert seq(n, _ => Failed) == seq(n - 1, _ => Failed) + [Failed];
      run' := Extend(run', cfg, Arrive(Last(run'), Failed));
    }
  }

  /** The thread is about to do `pc`, with nothing handled yet. */
  predicate Warm(s: State, pc: Pc, cq: nat, armed: bool, events: nat) {
    s.mode == WARM_ALWAYS && s.pc == pc && |s.cq| == cq && s.armed == armed && s.events == events && !s.term
  }

  /** The set-up leaves the event of the function code behind and the queue disarmed. */
  lemma ReceivesCode(cfg: Config) returns (run: seq<State>)
    requires StartMode(cfg.timeout) == WARM_ALWAYS && 0 < cfg.recvBuffer
    ensures IsSoundRun(run, cfg) && Warm(Last(run), Dispatch, 0, false, 1)
    ensures Last(run).posted == Last(run).requests == cfg.recvBuffer && Last(run).bill == Accounting.NewBill()
  {
    var s := State(WARM_ALWAYS, SetupNotify, [], false, 0, 0, 0, false, 0, 0, Accounting.NewBill(), []);
    run := [s];
    run := Moves(run, cfg);
    run := Extend(run, cfg, Arrive(Last(run), Success));
    run := Moves(run, cfg);
    run := Moves(run, cfg);
  }

  lemma SetsUp(cfg: Config) returns (run: seq<State>)
    requires StartMode(cfg.timeout) == WARM_ALWAYS && 0 < cfg.recvBuffer
    ensures IsSoundRun(run, cfg) && Warm(Last(run), WarmWait, 0, false, 1)
    ensures Last(run).posted == Last(run).requests == cfg.recvBuffer && Last(run).cq == []
    ensures Last(run).bill == Accounting.NewBill()
  {
    run := ReceivesCode(cfg);
    run := Moves(run, cfg);
    run := Moves(run, cfg);
    run := Moves(run, cfg);
  }

  /** A batch of failed completions is skipped one by one. */
  lemma {:induction false} Skips(run: seq<State>, cfg: Config, i: nat) returns (run': seq<State>)
    requires IsSoundRun(run, cfg) && Last(run).pc.WarmItem? && Last(run).pc.i == i <= |Last(run).pc.batch|
    requires forall j :: 0 <= j < |Last(run).pc.batch| ==> Last(run).pc.batch[j] == Failed
    ensures IsSoundRun(run', cfg) && Last(run') == Last(run).(pc := WarmRefill)
    decreases |Last(run).pc.batch| - i
  {
    run' := Moves(run, cfg);
    if i < |Last(run).pc.batch| {
      run' := Skips(run', cfg, i + 1);
    }
  }

  /** A poll that meets one completion too many, with the event for it already taken. */
  lemma PollsOnce(run: seq<State>, cfg: Config) returns (run': seq<State>)
    requires IsSoundRun(run, cfg) && Warm(Last(run), WarmPoll, POLL_BATCH + 1, true, 0)
    requires forall j :: 0 <= j < |Last(run).cq| ==> Last(run).cq[j] == Failed
    ensures IsSoundRun(run', cfg) && Lost(Last(run'))
  {
    run' := Moves(run, cfg);
    run' := Skips(run', cfg, 0);
    assert Warm(Last(run'), WarmRefill, 1, true, 0);
    run' := Moves(run', cfg);
    assert Warm(Last(run'), WarmCheck, 1, true, 0);
    run' := Moves(run', cfg);
  }

  /** From the first wait: more completions arrive than one poll takes, none of them leaves an event,
      and the thread comes back to the wait with one of them unhandled. */
  lemma Oversleeps(run: seq<State>, cfg: Config) returns (run': seq<State>)
    requires IsSoundRun(run, cfg) && Warm(Last(run), WarmWait, 0, false, 1) && POLL_BATCH < Last(run).posted
    ensures IsSoundRun(run', cfg) && Lost(Last(run'))
  {
    run' := Arrivals(run, cfg, POLL_BATCH + 1);
    assert Warm(Last(run'), WarmWait, POLL_BATCH + 1, false, 1);
    run' := Moves(run', cfg);
    run' := Moves(run', cfg);
    assert Warm(Last(run'), WarmPoll, POLL_BATCH + 1, true, 0);
    run' := PollsOnce(run', cfg);
  }

  /** Without failing polls: one completion more than a poll takes. */
  lemma UnsafeConfigLoses(cfg: Config) returns (run: seq<State>)
    requires !SafeConfig(cfg)
    ensures IsSoundRun(run, cfg) && Lost(Last(run))
  {
    run := SetsUp(cfg);
    run := Oversleeps(run, cfg);
  }

  // ---------------------------------------------------------------------------------------------
  // With failing polls
  // ---------------------------------------------------------------------------------------------

  lemma SoundIsRun(run: seq<State>, cfg: Config)
    requires IsSoundRun(run, cfg)
    ensures IsRun(run, cfg)
  {
    forall i | 0 < i < |run| ensures StepAt(run, i, cfg) {
      assert SoundStepAt(run, i, cfg);
    }
  }

  lemma ExtendAny(run: seq<State>, cfg: Config, s: State) returns (run': seq<State>)
    requires IsRun(run, cfg) && Next(Last(run), s, cfg)
    ensures IsRun(run', cfg) && Last(run') == s
  {
    run' := run + [s];
    forall i | 0 < i < |run'| ensures StepAt(run', i, cfg) {
      assert i < |run| ==> StepAt(run, i, cfg);
    }
  }

  lemma MovesAny(run: seq<State>, cfg: Config) returns (run': seq<State>)
    requires IsRun(run, cfg) && !Blocked(Last(run))
    ensures IsRun(run', cfg) && Last(run') == ThreadStep(Last(run), cfg, 0)
  {
    run' := ExtendAny(run, cfg, ThreadStep(Last(run), cfg, 0));
  }

  /** A poll that fails with the event already taken sends the thread to sleep on what is there. */
  lemma FailsToPoll(run: seq<State>, cfg: Config) returns (run': seq<State>)
    requires IsRun(run, cfg) && Warm(Last(run), WarmPoll, 1, true, 0) && Last(run).requests == cfg.recvBuffer
    ensures IsRun(run', cfg) && Lost(Last(run'))
  {
    run' := ExtendAny(run, cfg, FailedPoll(Last(run), 0));
    run' := MovesAny(run', cfg);
    assert Warm(Last(run'), WarmRefill, 1, true, 0);
    run' := MovesAny(run', cfg);
    assert Warm(Last(run'), WarmCheck, 1, true, 0);
    run' := MovesAny(run', cfg);
  }

  /** With failing polls: a single completion is enough. */
  lemma FragileConfigLoses(cfg: Config) returns (run: seq<State>)
    requires !RobustConfig(cfg)
    ensures IsRun(run, cfg) && Lost(Last(run))
  {
    run := SetsUp(cfg);
    run := Arrivals(run, cfg, 1);
    assert Warm(Last(run), WarmWait, 1, false, 1);
    run := Moves(run, cfg);
    run := Moves(run, cfg);
    SoundIsRun(run, cfg);
    run := FailsToPoll(run, cfg);
  }

  // ---------------------------------------------------------------------------------------------
  // The conditions
  // ---------------------------------------------------------------------------------------------

  /** As long as no poll fails, no wake-up is ever lost exactly for the safe configurations. */
  lemma NoLostWakeupIff(cfg: Config)
    ensures cfg.timeout != 0 || cfg.recvBuffer <= 32 <==>
              forall run, i: nat :: IsSoundRun(run, cfg) && i < |run| ==> !Lost(run[i])
  {
    if SafeConfig(cfg) {
      forall run, i: nat | IsSoundRun(run, cfg) && i < |run| ensures !Lost(run[i]) {
        NoLostWakeup(run, cfg, i);
      }
    } else {
      var run := UnsafeConfigLoses(cfg);
      assert Lost(run[|run| - 1]);
    }
  }

  /** Whatever the polls do, no wake-up is ever lost exactly for the robust configurations. */
  lemma NoLostWakeupEverIff(cfg: Config)
    ensures cfg.timeout != 0 || cfg.recvBuffer == 0 <==>
              forall run, i: nat :: IsRun(run, cfg) && i < |run| ==> !Lost(run[i])
  {
    if RobustConfig(cfg) {
      forall run, i: nat | IsRun(run, cfg) && i < |run| ensures !Lost(run[i]) {
        NoLostWakeup(run, cfg, i);
      }
    } else {
      var run := FragileConfigLoses(cfg);
      assert Lost(run[|run| - 1]);
    }
  }
}
