/** `LightweightSemaphore` with one waiting and one signalling thread, as a transition system.  Each
    access to `m_count` and each kernel semaphore call is one step. */
module Semaphore {

  /** How a wait call was made: `tryWait()`, `wait()` / `wait(t < 0)`, `wait(0)` or `wait(t > 0)`. */
  datatype Mode = TryOnly | Forever | NoTime | Timed

  const SPINS: nat := 1024

  datatype Waiter =
    | WIdle
    | WTryLoad(mode: Mode)                 // tryWait: load m_count
    | WTryTake(mode: Mode)                 // tryWait: it was positive, subtract one
    | WSpinLoad(mode: Mode, spin: nat)     // load m_count, `spin` more rounds after this one
    | WSpinTake(mode: Mode)
    | WTake(mode: Mode)                    // spinning is over: subtract one unconditionally
    | WKernelWait(mode: Mode)              // blocked in m_sema.wait or timed_wait
    | WRestore(mode: Mode)                 // timed out: add one back
    | WRetake(mode: Mode)                  // a signal came after all: subtract again
    | WKernelTry(mode: Mode)               // m_sema.try_wait

  datatype Signaller =
    | SIdle
    | SAdd(count: nat)                     // signal(count): add to m_count
    | SPost                                // the old count was negative: post the kernel semaphore

  /** `signalled` and `acquired` count the permits handed in and taken out; `refused` counts failed
      waits. */
  datatype State = State(count: int, kernel: nat, waiter: Waiter, signaller: Signaller,
                         signalled: nat, acquired: nat, refused: nat)

  predicate Init(s: State) {
    && s.count == 0 && s.kernel == 0 && s.waiter.WIdle? && s.signaller.SIdle?
    && s.signalled == 0 && s.acquired == 0 && s.refused == 0
  }

  /** What the waiter's environment decides: how the next call is made, and whether a kernel wait
      that is not forever gives up now. */
  datatype WaitChoice = WaitChoice(mode: Mode, giveUp: bool)

  /** The waiter is blocked: the kernel semaphore is zero and the wait does not end without it. */
  predicate Blocked(s: State, c: WaitChoice) {
    s.waiter.WKernelWait? && s.kernel == 0 && !c.giveUp
  }

  function Got(s: State): State { s.(waiter := WIdle, acquired := s.acquired + 1) }

  function Refused(s: State): State { s.(waiter := WIdle, refused := s.refused + 1) }

  function WaiterStep(s: State, c: WaitChoice): State
    requires !Blocked(s, c)
  {
    match s.waiter
    case WIdle => s.(waiter := WTryLoad(c.mode))
    case WTryLoad(mode) =>
      if s.count > 0 then s.(waiter := WTryTake(mode))
      else if mode == TryOnly then Refused(s)
      else s.(waiter := WSpinLoad(mode, SPINS - 1))
    case WTryTake(_) => Got(s.(count := s.count - 1))
    case WSpinLoad(mode, spin) =>
      if s.count > 0 then s.(waiter := WSpinTake(mode))
      else if spin == 0 then s.(waiter := WTake(mode))
      else s.(waiter := WSpinLoad(mode, spin - 1))
    case WSpinTake(_) => Got(s.(count := s.count - 1))
    case WTake(mode) =>
      if s.count > 0 then Got(s.(count := s.count - 1))
      else s.(count := s.count - 1, waiter := if mode == NoTime then WRestore(mode) else WKernelWait(mode))
    case WKernelWait(mode) =>
      if c.giveUp then s.(waiter := WRestore(mode)) else Got(s.(kernel := s.kernel - 1))
    case WRestore(mode) =>
      if s.count < 0 then Refused(s.(count := s.count + 1))
      else s.(count := s.count + 1, waiter := WRetake(mode))
    case WRetake(mode) =>
      s.(count := s.count - 1, waiter := if s.count > 0 then WKernelTry(mode) else WRestore(mode))
    case WKernelTry(mode) =>
      if s.kernel > 0 then Got(s.(kernel := s.kernel - 1)) else s.(waiter := WRestore(mode))
  }

  function SignallerStep(s: State, count: nat): State {
    match s.signaller
    case SIdle => s.(signaller := SAdd(count))
    case SAdd(n) => s.(count := s.count + n, signalled := s.signalled + n,
                       signaller := if s.count < 0 then SPost else SIdle)
    case SPost => s.(kernel := s.kernel + 1, signaller := SIdle)
  }

  predicate WaiterMoves(s: State, s': State, c: WaitChoice) {
    !Blocked(s, c) && s' == WaiterStep(s, c)
  }

  /** Any step of either side, with any count in a call of `signal`. */
  ghost predicate Next(s: State, s': State) {
    (exists c :: WaiterMoves(s, s', c)) || (exists n: nat :: s' == SignallerStep(s, n))
  }

  ghost predicate StepAt(run: seq<State>, i: nat)
    requires 0 < i < |run|
  {
    Next(run[i - 1], run[i])
  }

  ghost predicate IsRun(run: seq<State>) {
    0 < |run| && Init(run[0]) && forall i :: 0 < i < |run| ==> StepAt(run, i)
  }

  /** A `signal(0)` that finds somebody waiting, and wakes them for nothing. */
  predicate ZeroWake(s: State, s': State) {
    s.signaller == SAdd(0) && s.count < 0 && s'.signaller != s.signaller
  }

  predicate ZeroWakeAt(run: seq<State>, i: nat)
    requires 0 < i < |run|
  {
    ZeroWake(run[i - 1], run[i])
  }

  ghost predicate NoZeroWake(run: seq<State>, i: nat)
    requires i < |run|
  {
    forall j :: 0 < j <= i ==> !ZeroWakeAt(run, j)
  }

  // ---------------------------------------------------------------------------------------------
  // The invariant
  // ---------------------------------------------------------------------------------------------

  /** Permits handed in and not yet taken out. */
  function Permits(s: State): int { s.signalled - s.acquired }

  /** One while the waiter has subtracted from `m_count` without having got a permit yet. */
  function Debt(w: Waiter): nat {
    if w.WKernelWait? || w.WRestore? || w.WKernelTry? then 1 else 0
  }

  /** Kernel wake-ups posted or about to be posted. */
  function Wakeups(s: State): nat { s.kernel + if s.signaller.SPost? then 1 else 0 }

  /** `m_count` is permits minus debt, never below -1; a wake-up exists exactly when the waiter is
      in debt although a permit is there for it. */
  predicate Conserved(s: State) {
    && s.count + Debt(s.waiter) + s.acquired == s.signalled
    && s.count >= -1
    && s.acquired <= s.signalled
    && (s.waiter.WTryTake? || s.waiter.WSpinTake? || s.waiter.WRetake? ==> s.count > 0)
    && Wakeups(s) == (if (Debt(s.waiter) == 1 && s.count >= 0) || s.waiter.WRetake? then 1 else 0)
  }

  predicate Inv(s: State) {
    Conserved(s) && (s.signaller.SAdd? ==> 0 < s.signaller.count)
  }

  lemma InitHolds(s: State)
    requires Init(s)
    ensures Inv(s)
  {
  }

  lemma WaiterKeeps(s: State, c: WaitChoice)
    requires Inv(s) && !Blocked(s, c)
    ensures Inv(WaiterStep(s, c))
  {
  }

  lemma SignallerKeeps(s: State, n: nat)
    requires Inv(s) && 0 < n
    ensures Inv(SignallerStep(s, n))
  {
  }

  /** Exactly when the signaller keeps the accounts: it adds something, or nobody is waiting. */
  lemma SignalKeepsAccountsIff(s: State, n: nat)
    requires Conserved(s)
    ensures Conserved(SignallerStep(s, n)) <==> !(s.signaller == SAdd(0) && s.count < 0)
    ensures s.signaller != SAdd(0) || s.count >= 0 || SignallerStep(s, n).signaller != s.signaller
  {
  }

  lemma WaiterKeepsAccounts(s: State, c: WaitChoice)
    requires Conserved(s) && !Blocked(s, c)
    ensures Conserved(WaiterStep(s, c))
  {
  }

  /** Exactly when a step keeps the accounts: it is not a wake-up for nothing. */
  lemma StepKeepsAccountsIff(s: State, s': State)
    requires Conserved(s) && Next(s, s')
    ensures Conserved(s') <==> !ZeroWake(s, s')
  {
    if c :| WaiterMoves(s, s', c) {
      WaiterKeepsAccounts(s, c);
    } else {
      var n: nat :| s' == SignallerStep(s, n);
      SignalKeepsAccountsIff(s, n);
    }
  }

  lemma {:induction false} RunConserves(run: seq<State>, i: nat)
    requires IsRun(run) && i < |run| && NoZeroWake(run, i)
    ensures Conserved(run[i])
    decreases i
  {
    if i == 0 {
      InitHolds(run[0]);
    } else {
      RunConserves(run, i - 1);
      assert StepAt(run, i) && !ZeroWakeAt(run, i);
      StepKeepsAccountsIff(run[i - 1], run[i]);
    }
  }

  ghost predicate AllConserved(run: seq<State>, i: nat)
    requires i < |run|
  {
    forall j :: 0 <= j <= i ==> Conserved(run[j])
  }

  lemma {:induction false} FirstZeroWake(run: seq<State>, i: nat) returns (j: nat)
    requires i < |run| && !NoZeroWake(run, i)
    ensures 0 < j <= i && NoZeroWake(run, j - 1) && ZeroWakeAt(run, j)
  {
    if NoZeroWake(run, i - 1) {
      j := i;
    } else {
      j := FirstZeroWake(run, i - 1);
    }
  }

  /** In every run the accounts are kept all along if and only if no `signal(0)` has found somebody
      waiting. */
  lemma ConservedIff(run: seq<State>, i: nat)
    requires IsRun(run) && i < |run|
    ensures AllConserved(run, i) <==> NoZeroWake(run, i)
  {
    if NoZeroWake(run, i) {
      forall j | 0 <= j <= i ensures Conserved(run[j]) {
        RunConserves(run, j);
      }
    } else {
      var j := FirstZeroWake(run, i);
      RunConserves(run, j - 1);
      assert StepAt(run, j);
      StepKeepsAccountsIff(run[j - 1], run[j]);
    }
  }

  /** Conservation in every interleaving, timeouts racing with signals included: no more permits are
      taken than were handed in, `m_count` never falls below -1 (the assertion in `signal`), and the
      kernel semaphore is zero and `m_count` exact whenever both sides are idle. */
  lemma Conservation(run: seq<State>, i: nat)
    requires IsRun(run) && i < |run| && NoZeroWake(run, i)
    ensures run[i].acquired <= run[i].signalled
    ensures run[i].count >= -1
    ensures run[i].waiter.WIdle? && run[i].signaller.SIdle? ==>
              run[i].kernel == 0 && run[i].count == run[i].signalled - run[i].acquired
  {
    RunConserves(run, i);
  }

  /** A wait that is refused takes no permit, and is refused only because there is none: `m_count` is the
      number of permits available, which is zero. */
  lemma RefusalTakesNothing(run: seq<State>, i: nat)
    requires IsRun(run) && 0 < i < |run| && NoZeroWake(run, i) && run[i].refused != run[i - 1].refused
    ensures run[i].acquired == run[i - 1].acquired && run[i].signalled == run[i - 1].signalled
    ensures run[i].count == Permits(run[i]) == 0
  {
    assert StepAt(run, i) && NoZeroWake(run, i - 1);
    RunConserves(run, i - 1);
    RunConserves(run, i);
  }

  /** A wait is called with its mode: `tryWait` looks once and never spins or sleeps, and a wait without
      time never sleeps. */
  predicate InMode(w: Waiter) {
    match w
    case WIdle => true
    case WTryLoad(_) => true
    case WTryTake(_) => true
    case WSpinLoad(mode, _) => mode != TryOnly
    case WSpinTake(mode) => mode != TryOnly
    case WTake(mode) => mode != TryOnly
    case WKernelWait(mode) => mode != TryOnly && mode != NoTime
    case WRestore(mode) => mode != TryOnly
    case WRetake(mode) => mode != TryOnly
    case WKernelTry(mode) => mode != TryOnly
  }

  /** Over every run, what a wait may do is what its mode allows; it ends by taking a permit or by being
      refused, and not both; and it goes on in the mode it was called with. */
  lemma {:induction false} WaitsInMode(run: seq<State>, i: nat)
    requires IsRun(run) && i < |run|
    ensures InMode(run[i].waiter)
    ensures 0 < i ==>
              var s, s' := run[i - 1], run[i];
              && (!s.waiter.WIdle? && !s'.waiter.WIdle? ==> s'.waiter.mode == s.waiter.mode)
              && (!s.waiter.WIdle? && s'.waiter.WIdle? ==>
                    s'.acquired + s'.refused == s.acquired + s.refused + 1)
              && (s.waiter.WIdle? || !s'.waiter.WIdle? ==> s'.acquired == s.acquired && s'.refused == s.refused)
    decreases i
  {
    if 0 < i {
      WaitsInMode(run, i - 1);
      assert StepAt(run, i);
    }
  }

  /** What each access of a wait does to `m_count` and to the kernel semaphore. */
  lemma AccessesInParts(s: State, c: WaitChoice)
    requires !Blocked(s, c)
    ensures var s', w := WaiterStep(s, c), s.waiter;
            && s'.count - s.count == (if w.WTryTake? || w.WSpinTake? || w.WTake? || w.WRetake? then -1
                                      else if w.WRestore? then 1 else 0)
            && s'.kernel - s.kernel == (if w.WKernelWait? && !c.giveUp then -1
                                        else if w.WKernelTry? && 0 < s.kernel then -1 else 0)
            && (w.WTake? && 0 < s.count ==> s'.waiter.WIdle?)
            && (w.WRestore? ==> (s'.waiter.WIdle? <==> s.count < 0) && (s'.waiter.WRetake? <==> 0 <= s.count))
  {
  }

  /** What each step of a signal does: it adds its count, once, and posts the kernel semaphore, once, if and
      only if the count was negative before. */
  lemma SignalInParts(s: State, n: nat)
    ensures var s', w := SignallerStep(s, n), s.signaller;
            && (w.SIdle? ==> s' == s.(signaller := SAdd(n)))
            && (w.SAdd? ==>
                  && s'.count - s.count == w.count && s'.signalled - s.signalled == w.count && s'.kernel == s.kernel
                  && s'.signaller == if s.count < 0 then SPost else SIdle)
            && (w.SPost? ==> s' == s.(kernel := s.kernel + 1, signaller := SIdle))
  {
  }

  /** No wake-up is lost: a waiter blocked in the kernel while the signaller is idle means that there
      is no permit to take. */
  lemma NoLostPermit(run: seq<State>, i: nat)
    requires IsRun(run) && i < |run| && NoZeroWake(run, i)
    requires run[i].waiter.WKernelWait? && run[i].kernel == 0 && run[i].signaller.SIdle?
    ensures Permits(run[i]) == 0
  {
    RunConserves(run, i);
  }

  /** In the repair loop the second subtraction always finds a positive count, so the branch that
      would loop without trying the kernel semaphore is never taken. */
  lemma RetakeFindsPermit(run: seq<State>, i: nat)
    requires IsRun(run) && i < |run| && NoZeroWake(run, i) && run[i].waiter.WRetake?
    ensures run[i].count > 0 && Permits(run[i]) > 0
  {
    RunConserves(run, i);
  }

  // ---------------------------------------------------------------------------------------------
  // signal(0)
  // ---------------------------------------------------------------------------------------------

  function Last(run: seq<State>): State
    requires 0 < |run|
  {
    run[|run| - 1]
  }

  lemma Waits(run: seq<State>, c: WaitChoice) returns (run': seq<State>)
    requires IsRun(run) && !Blocked(Last(run), c)
    ensures IsRun(run') && Last(run') == WaiterStep(Last(run), c)
  {
    run' := run + [WaiterStep(Last(run), c)];
    assert WaiterMoves(Last(run), Last(run'), c);
    forall i | 0 < i < |run'| ensures StepAt(run', i) {
      assert i < |run| ==> StepAt(run, i);
    }
  }

  lemma Signals(run: seq<State>, n: nat) returns (run': seq<State>)
    requires IsRun(run)
    ensures IsRun(run') && Last(run') == SignallerStep(Last(run), n)
  {
    run' := run + [SignallerStep(Last(run), n)];
    forall i | 0 < i < |run'| ensures StepAt(run', i) {
      assert i < |run| ==> StepAt(run, i);
    }
  }

  lemma {:induction false} SpinsOut(run: seq<State>, spin: nat) returns (run': seq<State>)
    requires IsRun(run) && Last(run) == State(0, 0, WSpinLoad(Forever, spin), SIdle, 0, 0, 0)
    ensures IsRun(run') && Last(run') == State(0, 0, WTake(Forever), SIdle, 0, 0, 0)
    decreases spin
  {
    run' := Waits(run, WaitChoice(Forever, false));
    if 0 < spin {
      run' := SpinsOut(run', spin - 1);
    }
  }

  /** A `wait()` on a fresh semaphore ends up blocked in the kernel. */
  lemma BlocksInKernel() returns (run: seq<State>)
    ensures IsRun(run) && Last(run) == State(-1, 0, WKernelWait(Forever), SIdle, 0, 0, 0)
  {
    var c := WaitChoice(Forever, false);
    run := [State(0, 0, WIdle, SIdle, 0, 0, 0)];
    run := Waits(run, c);
    run := Waits(run, c);
    run := SpinsOut(run, SPINS - 1);
    run := Waits(run, c);
  }

  /** `signal(0)`, which the source's own assertion admits, wakes a waiter that has no permit: the
      acquired count then exceeds the signalled one.  As long as no such
      signal finds somebody waiting this cannot happen (`Conservation`). */
  lemma SignalZeroBreaksConservation() returns (run: seq<State>)
    ensures IsRun(run) && Last(run).acquired > Last(run).signalled
  {
    run := BlocksInKernel();
    run := Signals(run, 0);
    assert Last(run) == State(-1, 0, WKernelWait(Forever), SAdd(0), 0, 0, 0);
    run := Signals(run, 0);
    assert Last(run) == State(-1, 0, WKernelWait(Forever), SPost, 0, 0, 0);
    run := Signals(run, 0);
    assert Last(run) == State(-1, 1, WKernelWait(Forever), SIdle, 0, 0, 0);
    run := Waits(run, WaitChoice(Forever, false));
  }
}
