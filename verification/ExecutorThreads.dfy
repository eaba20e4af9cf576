/** All threads of an executor process adding to the same two counters of the manager. */
module ExecutorThreads {
  import opened Numbers
  import opened Accounting
  import opened Worker
  import opened WorkerBilling

  datatype Fleet = Fleet(threads: seq<State>, hotPolling: nat, execution: nat)

  /** One thread moves, and the remote fetch-and-adds it issues take effect. */
  ghost predicate FleetStep(f: Fleet, f': Fleet, cfg: Config, k: nat) {
    FleetSends(f, f', k) && Next(f.threads[k], f'.threads[k], cfg)
  }

  predicate FleetSends(f: Fleet, f': Fleet, k: nat) {
    && k < |f.threads| == |f'.threads|
    && f'.threads == f.threads[k := f'.threads[k]]
    && var b, b' := f.threads[k].bill, f'.threads[k].bill;
       && f'.hotPolling == (f.hotPolling + (b'.sentPolling - b.sentPolling)) % U64
       && f'.execution == (f.execution + (b'.sentExecution - b.sentExecution)) % U64
  }

  ghost predicate FleetMoves(f: Fleet, f': Fleet, cfg: Config) {
    exists k: nat :: FleetStep(f, f', cfg, k)
  }

  ghost predicate FleetStart(f: Fleet, cfg: Config) {
    f.hotPolling == 0 && f.execution == 0 && forall k :: 0 <= k < |f.threads| ==> Init(f.threads[k], cfg)
  }

  ghost predicate FleetStepAt(run: seq<Fleet>, i: nat, cfg: Config)
    requires 0 < i < |run|
  {
    FleetMoves(run[i - 1], run[i], cfg)
  }

  ghost predicate IsFleetRun(run: seq<Fleet>, cfg: Config) {
    0 < |run| && FleetStart(run[0], cfg) && forall i :: 0 < i < |run| ==> FleetStepAt(run, i, cfg)
  }

  // ---------------------------------------------------------------------------------------------
  // Sums over threads
  // ---------------------------------------------------------------------------------------------

  function Sum(xs: seq<nat>): nat {
    if xs == [] then 0 else xs[0] + Sum(xs[1..])
  }

  lemma {:induction false} SumUpdate(xs: seq<nat>, k: nat, x: nat)
    requires k < |xs|
    ensures Sum(xs[k := x]) + xs[k] == Sum(xs) + x
  {
    if k == 0 {
      assert xs[0 := x][1..] == xs[1..];
    } else {
      assert xs[k := x][1..] == xs[1..][k - 1 := x];
      SumUpdate(xs[1..], k - 1, x);
    }
  }

  lemma {:induction false} SumZero(xs: seq<nat>)
    requires forall k :: 0 <= k < |xs| ==> xs[k] == 0
    ensures Sum(xs) == 0
  {
    if xs != [] { SumZero(xs[1..]); }
  }

  /** Summing remainders gives the remainder of the sum. */
  lemma {:induction false} SumOfRemainders(xs: seq<nat>, ys: seq<nat>, m: nat)
    requires |xs| == |ys| && 0 < m && forall k :: 0 <= k < |xs| ==> xs[k] == ys[k] % m
    ensures Sum(xs) % m == Sum(ys) % m
  {
    if xs != [] {
      SumOfRemainders(xs[1..], ys[1..], m);
      var a, b, c := ys[0], Sum(xs[1..]), Sum(ys[1..]);
      ModuloAdd(a, b, m);
      ModuloAdd(b, a, m);
      ModuloAdd(c, a, m);
      assert a + b == b + a && a + c == c + a;
    }
  }

  function SentExecutions(threads: seq<State>): seq<nat> {
    seq(|threads|, k requires 0 <= k < |threads| => threads[k].bill.sentExecution)
  }

  function SentPollings(threads: seq<State>): seq<nat> {
    seq(|threads|, k requires 0 <= k < |threads| => threads[k].bill.sentPolling)
  }

  function TotalExecutions(threads: seq<State>): seq<nat> {
    seq(|threads|, k requires 0 <= k < |threads| => threads[k].bill.totalExecution)
  }

  function TotalPollings(threads: seq<State>): seq<nat> {
    seq(|threads|, k requires 0 <= k < |threads| => threads[k].bill.totalPolling)
  }

  // ---------------------------------------------------------------------------------------------
  // The invariant
  // ---------------------------------------------------------------------------------------------

  predicate Sound(s: State) { Accounts(s.bill, s.billed) && Flushed(s) }

  ghost predicate FleetInv(f: Fleet) {
    && (forall k :: 0 <= k < |f.threads| ==> Sound(f.threads[k]))
    && f.execution == Sum(SentExecutions(f.threads)) % U64
    && f.hotPolling == Sum(SentPollings(f.threads)) % U64
  }

  lemma SentGrows(s: State, s': State)
    requires BillingStep(s, s')
    ensures s.bill.sentPolling <= s'.bill.sentPolling && s.bill.sentExecution <= s'.bill.sentExecution
  {
  }

  lemma NextIsSound(s: State, s': State, cfg: Config)
    requires Sound(s) && Next(s, s', cfg)
    ensures Sound(s')
    ensures s.bill.sentPolling <= s'.bill.sentPolling && s.bill.sentExecution <= s'.bill.sentExecution
  {
    NextBills(s, s', cfg);
    if BillingStep(s, s') {
      StepKeepsAccounts(s, s');
      StepFlushes(s, s');
      SentGrows(s, s');
    }
  }

  /** A counter that took the difference of one summand is the new sum. */
  lemma CounterFollows(counter: nat, counter': nat, xs: seq<nat>, k: nat, x: nat)
    requires k < |xs| && xs[k] <= x && counter == Sum(xs) % U64
    requires counter' == (counter + (x - xs[k])) % U64
    ensures counter' == Sum(xs[k := x]) % U64
  {
    SumUpdate(xs, k, x);
    TotalAfter(Sum(xs), x - xs[k]);
  }

  lemma FleetStepIsSound(f: Fleet, f': Fleet, cfg: Config, k: nat)
    requires (forall j :: 0 <= j < |f.threads| ==> Sound(f.threads[j])) && FleetStep(f, f', cfg, k)
    ensures forall j :: 0 <= j < |f'.threads| ==> Sound(f'.threads[j])
    ensures f.threads[k].bill.sentPolling <= f'.threads[k].bill.sentPolling
    ensures f.threads[k].bill.sentExecution <= f'.threads[k].bill.sentExecution
  {
    NextIsSound(f.threads[k], f'.threads[k], cfg);
  }

  lemma OneSends(threads: seq<State>, threads': seq<State>, k: nat)
    requires k < |threads| == |threads'| && threads' == threads[k := threads'[k]]
    ensures SentExecutions(threads') == SentExecutions(threads)[k := threads'[k].bill.sentExecution]
    ensures SentPollings(threads') == SentPollings(threads)[k := threads'[k].bill.sentPolling]
  {
  }

  lemma CountersStep(f: Fleet, f': Fleet, k: nat)
    requires FleetSends(f, f', k)
    requires f.execution == Sum(SentExecutions(f.threads)) % U64 && f.hotPolling == Sum(SentPollings(f.threads)) % U64
    requires f.threads[k].bill.sentPolling <= f'.threads[k].bill.sentPolling
    requires f.threads[k].bill.sentExecution <= f'.threads[k].bill.sentExecution
    ensures f'.execution == Sum(SentExecutions(f'.threads)) % U64
    ensures f'.hotPolling == Sum(SentPollings(f'.threads)) % U64
  {
    var xs, ys, b := SentExecutions(f.threads), SentPollings(f.threads), f'.threads[k].bill;
    OneSends(f.threads, f'.threads, k);
    assert xs[k] == f.threads[k].bill.sentExecution && ys[k] == f.threads[k].bill.sentPolling;
    CounterFollows(f.execution, f'.execution, xs, k, b.sentExecution);
    CounterFollows(f.hotPolling, f'.hotPolling, ys, k, b.sentPolling);
  }

  lemma FleetStepKeeps(f: Fleet, f': Fleet, cfg: Config, k: nat)
    requires FleetInv(f) && FleetStep(f, f', cfg, k)
    ensures FleetInv(f')
  {
    FleetStepIsSound(f, f', cfg, k);
    CountersStep(f, f', k);
  }

  lemma FleetStartHolds(f: Fleet, cfg: Config)
    requires FleetStart(f, cfg)
    ensures FleetInv(f)
  {
    SumZero(SentExecutions(f.threads));
    SumZero(SentPollings(f.threads));
  }

  lemma {:induction false} FleetRunInvariant(run: seq<Fleet>, cfg: Config, i: nat)
    requires IsFleetRun(run, cfg) && i < |run|
    ensures FleetInv(run[i])
    decreases i
  {
    if i == 0 {
      FleetStartHolds(run[0], cfg);
    } else {
      assert FleetStepAt(run, i, cfg);
      FleetRunInvariant(run, cfg, i - 1);
      var k: nat :| FleetStep(run[i - 1], run[i], cfg, k);
      FleetStepKeeps(run[i - 1], run[i], cfg, k);
    }
  }

  /** The manager's counters are, at every point of every run of any number of threads, what the
      threads have sent; once all threads have done their final flush they are the threads' totals. */
  lemma CountersAreTotals(run: seq<Fleet>, cfg: Config, i: nat)
    requires IsFleetRun(run, cfg) && i < |run|
    ensures run[i].execution == Sum(SentExecutions(run[i].threads)) % U64
    ensures run[i].hotPolling == Sum(SentPollings(run[i].threads)) % U64
    ensures (forall k :: 0 <= k < |run[i].threads| ==> run[i].threads[k].pc.Done?) ==>
              && run[i].execution == Sum(TotalExecutions(run[i].threads)) % U64
              && run[i].hotPolling == Sum(TotalPollings(run[i].threads)) % U64
  {
    FleetRunInvariant(run, cfg, i);
    var threads := run[i].threads;
    if forall k :: 0 <= k < |threads| ==> threads[k].pc.Done? {
      forall k | 0 <= k < |threads|
        ensures TotalExecutions(threads)[k] == SentExecutions(threads)[k] % U64
        ensures TotalPollings(threads)[k] == SentPollings(threads)[k] % U64
      {
        assert Sound(threads[k]) && threads[k].pc.Done?;
      }
      SumOfRemainders(TotalExecutions(threads), SentExecutions(threads), U64);
      SumOfRemainders(TotalPollings(threads), SentPollings(threads), U64);
    }
  }
}
