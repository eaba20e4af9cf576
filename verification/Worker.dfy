/** One executor thread: `thread_work`, `hot`, `warm` and `work`, interleaved with the network card
    that delivers completions.  A completion queue is a sequence with a one-shot notification: when
    it is armed, the next arriving completion disarms it and adds one event. */
module Worker {
  import opened Accounting
  import Receives

  /** The batch that one `poll` takes at most. */
  const POLL_BATCH: nat := Receives.WC_SIZE

  const HOT_POLLING_VERIFICATION_PERIOD: nat := 10000

  datatype PollingState = HOT | HOT_ALWAYS | WARM | WARM_ALWAYS

  /** Whether the card reported success for a received message. */
  datatype Completion = Success | Failed

  /** `recvBuffer` is the number of receives kept posted; `timeout` is the thread's argument. */
  datatype Config = Config(recvBuffer: nat, timeout: int)

  /** Where the thread stands; each constructor names what it does next.  `start`, `iter`, `batch`
      and `i` are the source's variables, `now` and `began` are clock readings. */
  datatype Pc =
    | SetupNotify                 // post the receive for the code, arm if starting warm, connect
    | SetupPollCode               // wait for the function code to arrive
    | SetupRefill
    | Dispatch                    // while(!term_process) in thread_work
    | HotEnter
    | HotPoll(start: nat, iter: nat)
    | HotItem(start: nat, iter: nat, batch: seq<Completion>, i: nat)
    | HotCall(start: nat, iter: nat, batch: seq<Completion>, i: nat, now: nat)
    | HotReturn(start: nat, iter: nat, batch: seq<Completion>, i: nat, now: nat, began: nat)
    | HotBill(start: nat, iter: nat, batch: seq<Completion>, i: nat, now: nat, ended: nat)
    | HotRefill(start: nat, iter: nat)
    | HotTick(start: nat, iter: nat)
    | HotNotify
    | WarmPoll
    | WarmItem(batch: seq<Completion>, i: nat)
    | WarmCall(batch: seq<Completion>, i: nat)
    | WarmReturn(batch: seq<Completion>, i: nat, began: nat)
    | WarmRefill
    | WarmCheck                   // if (!term_process), before the wait
    | WarmWait                    // in ibv_get_cq_event, whatever happens to term_process
    | WarmNotify
    | FlushExecution
    | FlushPolling
    | Done

  /** A stretch of time the client is billed for. */
  datatype Interval = Interval(polling: bool, start: nat, end: nat)

  datatype State = State(mode: PollingState, pc: Pc,
                         cq: seq<Completion>, armed: bool, events: nat, posted: nat, requests: int,
                         term: bool, clock: nat, repetitions: nat,
                         bill: Bill, billed: seq<Interval>)

  function StartMode(timeout: int): PollingState {
    if timeout == -1 then HOT_ALWAYS else if timeout == 0 then WARM_ALWAYS else HOT
  }

  predicate Init(s: State, cfg: Config) {
    && s.mode == StartMode(cfg.timeout) && s.pc == SetupNotify
    && s.cq == [] && !s.armed && s.events == 0 && s.posted == 0 && s.requests == 0
    && !s.term && s.repetitions == 0 && s.bill == NewBill() && s.billed == []
  }

  /** `receive_wcs().poll()`: takes at most one batch off the completion queue. */
  function Polled(s: State): seq<Completion> { s.cq[..Receives.Min(|s.cq|, POLL_BATCH)] }

  function AfterPoll(s: State): State {
    var n := Receives.Min(|s.cq|, POLL_BATCH);
    s.(cq := s.cq[n..], requests := s.requests - n)
  }

  /** `receive_wcs().refill()`, on a queue that has room for the whole buffer. */
  function Refilled(s: State, cfg: Config): State {
    if s.requests < Receives.Threshold(cfg.recvBuffer)
    then s.(posted := s.posted + (cfg.recvBuffer - s.requests), requests := cfg.recvBuffer)
    else s
  }

  /** The time between two clock readings; the clock never runs backwards. */
  function Span(start: nat, end: nat): nat { if start <= end then end - start else 0 }

  /** `work` ends: the run time is billed, and sent when the unsent time exceeds the granularity. */
  function AfterWork(s: State, began: nat, ended: nat): State {
    s.(bill := SendExecution(UpdateExecution(s.bill, Span(began, ended)), false),
       billed := s.billed + [Interval(false, began, ended)])
  }

  function AfterPolling(s: State, start: nat, end: nat): State {
    s.(bill := UpdatePolling(s.bill, Span(start, end)), billed := s.billed + [Interval(true, start, end)])
  }

  /** The thread waits for the code, or in `ibv_get_cq_event`, and cannot move. */
  predicate Blocked(s: State) {
    || (s.pc.SetupPollCode? && s.cq == [])
    || (s.pc.WarmWait? && s.events == 0)
  }

  /** One step of the thread, `dt` nanoseconds after the previous clock reading. */
  function ThreadStep(s0: State, cfg: Config, dt: nat): State
    requires !Blocked(s0)
  {
    var s := s0.(clock := s0.clock + dt);
    var now := s.clock;
    match s.pc
    case SetupNotify =>
      s.(posted := 1, armed := s.armed || s.mode == WARM_ALWAYS || s.mode == WARM, pc := SetupPollCode)
    case SetupPollCode => s.(cq := s.cq[1..], pc := SetupRefill)
    case SetupRefill => Refilled(s, cfg).(pc := Dispatch)
    case Dispatch =>
      s.(pc := if s.term then FlushExecution
               else if s.mode == HOT || s.mode == HOT_ALWAYS then HotEnter
               else WarmPoll)
    case HotEnter => s.(pc := HotPoll(now, 0))
    case HotPoll(start, iter) =>
      if s.term then s.(pc := Dispatch)
      else AfterPoll(s).(pc := if Polled(s) == [] then HotTick(start, iter) else HotItem(start, iter, Polled(s), 0))
    case HotItem(start, iter, batch, i) =>
      s.(pc := if |batch| <= i then HotRefill(start, iter)
               else if batch[i] == Failed then HotItem(start, iter, batch, i + 1)
               else HotCall(start, iter, batch, i, now))
    case HotCall(start, iter, batch, i, seen) => s.(pc := HotReturn(start, iter, batch, i, seen, now))
    case HotReturn(start, iter, batch, i, seen, began) =>
      AfterWork(s, began, now).(pc := HotBill(start, iter, batch, i, seen, now))
    case HotBill(start, iter, batch, i, seen, ended) =>
      // the source assigns 0 to the loop's own index here, and the loop then adds one
      AfterPolling(s, start, seen).(pc := HotItem(ended, iter, batch, 0 + 1), repetitions := s.repetitions + 1)
    case HotRefill(start, iter) => Refilled(s, cfg).(pc := HotTick(start, iter))
    case HotTick(start, iter) =>
      if iter + 1 == HOT_POLLING_VERIFICATION_PERIOD then
        var billed := AfterPolling(s, start, now);
        var sent := billed.(bill := SendPolling(billed.bill, false));
        if s.mode != HOT_ALWAYS && Truncated(Span(start, now)) >= cfg.timeout % U32
        then sent.(mode := WARM, pc := HotNotify)
        else sent.(pc := HotPoll(now, 0))
      else s.(pc := HotPoll(start, iter + 1))
    case HotNotify => s.(armed := true, pc := Dispatch)
    case WarmPoll =>
      if s.term then s.(pc := Dispatch)
      else AfterPoll(s).(pc := if Polled(s) == [] then WarmCheck else WarmItem(Polled(s), 0))
    case WarmItem(batch, i) =>
      s.(pc := if |batch| <= i then WarmRefill
               else if batch[i] == Failed then WarmItem(batch, i + 1)
               else WarmCall(batch, i))
    case WarmCall(batch, i) => s.(pc := WarmReturn(batch, i, now))
    case WarmReturn(batch, i, began) =>
      AfterWork(s, began, now).(pc := WarmItem(batch, i + 1), repetitions := s.repetitions + 1)
    case WarmRefill =>
      var r := Refilled(s, cfg);
      if s.mode != WARM_ALWAYS then r.(mode := HOT, pc := Dispatch) else r.(pc := WarmCheck)
    case WarmCheck => s.(pc := if s.term then WarmPoll else WarmWait)
    case WarmWait => s.(events := s.events - 1, pc := WarmNotify)
    case WarmNotify => s.(armed := true, pc := WarmPoll)
    case FlushExecution => s.(bill := SendExecution(s.bill, true), pc := FlushPolling)
    case FlushPolling => s.(bill := SendPolling(s.bill, true), pc := Done)
    case Done => s
  }

  /** The card delivers a message into a posted receive. */
  function Arrive(s: State, c: Completion): State
    requires 0 < s.posted
  {
    s.(cq := s.cq + [c], posted := s.posted - 1,
       armed := false, events := if s.armed then s.events + 1 else s.events)
  }

  function Terminate(s: State): State { s.(term := true) }

  predicate Polls(s: State) {
    (s.pc.HotPoll? || s.pc.WarmPoll?) && !s.term
  }

  /** The poll fails: it returns -1, which is not zero, so that the thread goes through a batch without
      completions, and `_requests` goes up by one. */
  function FailedPoll(s: State, dt: nat): State
    requires Polls(s)
  {
    s.(clock := s.clock + dt, requests := s.requests + 1,
       pc := if s.pc.HotPoll? then HotItem(s.pc.start, s.pc.iter, [], 0) else WarmItem([], 0))
  }

  /** A step of the thread, an arrival, or the request to stop. */
  ghost predicate SoundNext(s: State, s': State, cfg: Config) {
    || (!Blocked(s) && exists dt: nat :: s' == ThreadStep(s, cfg, dt))
    || (0 < s.posted && exists c :: s' == Arrive(s, c))
    || s' == Terminate(s)
  }

  ghost predicate Next(s: State, s': State, cfg: Config) {
    SoundNext(s, s', cfg) || (Polls(s) && exists dt: nat :: s' == FailedPoll(s, dt))
  }

  ghost predicate StepAt(run: seq<State>, i: nat, cfg: Config)
    requires 0 < i < |run|
  {
    Next(run[i - 1], run[i], cfg)
  }

  ghost predicate IsRun(run: seq<State>, cfg: Config) {
    0 < |run| && Init(run[0], cfg) && forall i :: 0 < i < |run| ==> StepAt(run, i, cfg)
  }

  ghost predicate SoundStepAt(run: seq<State>, i: nat, cfg: Config)
    requires 0 < i < |run|
  {
    SoundNext(run[i - 1], run[i], cfg)
  }

  /** A run in which no poll fails. */
  ghost predicate IsSoundRun(run: seq<State>, cfg: Config) {
    0 < |run| && Init(run[0], cfg) && forall i :: 0 < i < |run| ==> SoundStepAt(run, i, cfg)
  }
}
