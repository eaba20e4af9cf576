/** The batch loop of `hot`, which resets its own index: exactly when it ends. */
module WorkerHotLoop {
  import opened Worker

  /** A piece of a run, from state `s`. */
  ghost predicate Follows(run: seq<State>, cfg: Config, s: State) {
    0 < |run| && run[0] == s && forall i :: 0 < i < |run| ==> StepAt(run, i, cfg)
  }

  function Last(run: seq<State>): State
    requires 0 < |run|
  {
    run[|run| - 1]
  }

  ghost predicate LeavesBatch(run: seq<State>, cfg: Config, s: State) {
    Follows(run, cfg, s) && Last(run).pc.HotRefill?
  }

  predicate OnlyFirstSucceeds(batch: seq<Completion>) {
    forall j :: 1 <= j < |batch| ==> batch[j] == Failed
  }

  // ---------------------------------------------------------------------------------------------
  // It ends
  // ---------------------------------------------------------------------------------------------

  lemma Moves(run: seq<State>, cfg: Config, s: State) returns (run': seq<State>)
    requires Follows(run, cfg, s) && !Blocked(Last(run))
    ensures Follows(run', cfg, s) && Last(run') == ThreadStep(Last(run), cfg, 0)
  {
    run' := run + [ThreadStep(Last(run), cfg, 0)];
    forall i | 0 < i < |run'| ensures StepAt(run', i, cfg) {
      assert i < |run| ==> StepAt(run, i, cfg);
    }
  }

  /** Failed completions are skipped one by one. */
  lemma {:induction false} Skips(run: seq<State>, cfg: Config, s: State, batch: seq<Completion>, i: nat)
    returns (run': seq<State>)
    requires Follows(run, cfg, s) && Last(run).pc.HotItem? && Last(run).pc.batch == batch && Last(run).pc.i == i
    requires forall j :: i <= j < |batch| ==> batch[j] == Failed
    ensures LeavesBatch(run', cfg, s)
    decreases |batch| - i
  {
    run' := Moves(run, cfg, s);
    if i < |batch| {
      run' := Skips(run', cfg, s, batch, i + 1);
    }
  }

  lemma Ends(s: State, cfg: Config) returns (run: seq<State>)
    requires s.pc.HotItem? && s.pc.i == 0 && OnlyFirstSucceeds(s.pc.batch)
    ensures LeavesBatch(run, cfg, s)
  {
    var batch := s.pc.batch;
    run := [s];
    if batch == [] || batch[0] == Failed {
      run := Skips(run, cfg, s, batch, 0);
    } else {
      run := Moves(run, cfg, s);
      run := Moves(run, cfg, s);
      run := Moves(run, cfg, s);
      run := Moves(run, cfg, s);
      run := Skips(run, cfg, s, batch, 1);
    }
  }

  // ---------------------------------------------------------------------------------------------
  // It does not end
  // ---------------------------------------------------------------------------------------------

  /** The thread is in the loop, at a completion not behind number `j`. */
  predicate Within(pc: Pc, batch: seq<Completion>, j: nat) {
    match pc
    case HotItem(_, _, b, i) => b == batch && i <= j
    case HotCall(_, _, b, _, _) => b == batch
    case HotReturn(_, _, b, _, _, _) => b == batch
    case HotBill(_, _, b, _, _, _) => b == batch
    case _ => false
  }

  lemma WithinStep(s: State, cfg: Config, dt: nat, batch: seq<Completion>, j: nat)
    requires 1 <= j < |batch| && batch[j] == Success && Within(s.pc, batch, j)
    ensures Within(ThreadStep(s, cfg, dt).pc, batch, j)
  {
  }

  lemma {:induction false} StaysWithin(run: seq<State>, cfg: Config, s: State, batch: seq<Completion>, j: nat, k: nat)
    requires Follows(run, cfg, s) && 1 <= j < |batch| && batch[j] == Success && Within(s.pc, batch, j) && k < |run|
    ensures Within(run[k].pc, batch, j)
    decreases k
  {
    if 0 < k {
      StaysWithin(run, cfg, s, batch, j, k - 1);
      assert StepAt(run, k, cfg);
      var s1, s2 := run[k - 1], run[k];
      if dt: nat :| !Blocked(s1) && s2 == ThreadStep(s1, cfg, dt) {
        WithinStep(s1, cfg, dt, batch, j);
      } else {
        assert s2.pc == s1.pc;
      }
    }
  }

  /** From the start of a batch, some run of the thread gets to the end of the loop if and only if no
      completion after the first one succeeded.  Otherwise every run stays in the loop, whatever else
      arrives and even when the process is told to stop. */
  lemma HotBatchEndsIff(s: State, cfg: Config)
    requires s.pc.HotItem? && s.pc.i == 0
    ensures (exists run: seq<State> :: LeavesBatch(run, cfg, s)) <==> OnlyFirstSucceeds(s.pc.batch)
    ensures !OnlyFirstSucceeds(s.pc.batch) ==>
              forall run: seq<State>, k: nat :: Follows(run, cfg, s) && k < |run| ==>
                Within(run[k].pc, s.pc.batch, |s.pc.batch|)
  {
    var batch := s.pc.batch;
    if OnlyFirstSucceeds(batch) {
      var run := Ends(s, cfg);
    } else {
      var j :| 1 <= j < |batch| && batch[j] != Failed;
      forall run: seq<State>, k: nat | Follows(run, cfg, s) && k < |run|
        ensures Within(run[k].pc, batch, j)
      {
        StaysWithin(run, cfg, s, batch, j, k);
      }
      forall run: seq<State> | Follows(run, cfg, s) ensures !Last(run).pc.HotRefill? {
        assert Within(run[|run| - 1].pc, batch, j);
      }
    }
  }
}
