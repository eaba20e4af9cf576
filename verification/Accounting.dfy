/** The billing record of one executor thread, and the remote counters it feeds. */
module Accounting {
  import opened Numbers

  const U64: nat := 0x1_0000_0000_0000_0000
  const U32: nat := 0x1_0000_0000

  /** One second, in nanoseconds. */
  const BILLING_GRANULARITY: nat := 1_000_000_000

  /** A value of the record; `sentPolling` and `sentExecution` add up what was handed to the remote
      fetch-and-adds (they are not stored by the program). */
  datatype Bill = Bill(totalPolling: nat, totalExecution: nat, totalRequests: nat,
                       polling: nat, execution: nat,
                       sentPolling: nat, sentExecution: nat)

  function NewBill(): Bill { Bill(0, 0, 0, 0, 0, 0, 0) }

  function UpdateExecution(b: Bill, time: nat): Bill {
    b.(execution := (b.execution + time) % U64,
       totalExecution := (b.totalExecution + time) % U64,
       totalRequests := (b.totalRequests + 1) % U64)
  }

  function SendExecution(b: Bill, force: bool): Bill {
    if force || b.execution > BILLING_GRANULARITY
    then b.(execution := 0, sentExecution := b.sentExecution + b.execution)
    else b
  }

  /** The 32-bit variable that `update_polling_time` keeps the interval in. */
  function Truncated(time: nat): nat { time % U32 }

  function UpdatePolling(b: Bill, time: nat): Bill {
    b.(polling := (b.polling + Truncated(time)) % U64,
       totalPolling := (b.totalPolling + Truncated(time)) % U64)
  }

  function SendPolling(b: Bill, force: bool): Bill {
    if force || b.polling > BILLING_GRANULARITY
    then b.(polling := 0, sentPolling := b.sentPolling + b.polling)
    else b
  }

  /** What every operation keeps: each total is the unsent remainder plus everything sent. */
  predicate Balanced(b: Bill) {
    && b.totalExecution == (b.execution + b.sentExecution) % U64
    && b.totalPolling == (b.polling + b.sentPolling) % U64
    && b.execution < U64 && b.polling < U64
  }

  /** Adding to a 64-bit total is adding to the exact total. */
  lemma TotalAfter(total: nat, time: nat)
    ensures (total % U64 + time) % U64 == (total + time) % U64
  {
    ModuloAdd(total, time, U64);
  }

  lemma RemainderSmaller(total: nat)
    ensures total % U64 <= total
  {
  }

  lemma UpdateExecutionBalances(b: Bill, time: nat)
    requires Balanced(b)
    ensures Balanced(UpdateExecution(b, time))
  {
    ModuloAdd(b.execution + time, b.sentExecution, U64);
    ModuloAdd(b.execution + b.sentExecution, time, U64);
  }

  lemma UpdatePollingBalances(b: Bill, time: nat)
    requires Balanced(b)
    ensures Balanced(UpdatePolling(b, time))
  {
    ModuloAdd(b.polling + Truncated(time), b.sentPolling, U64);
    ModuloAdd(b.polling + b.sentPolling, Truncated(time), U64);
  }

  lemma SendsBalance(b: Bill, force: bool)
    requires Balanced(b)
    ensures Balanced(SendExecution(b, force)) && Balanced(SendPolling(b, force))
    ensures SendExecution(b, force).execution <= BILLING_GRANULARITY
    ensures SendPolling(b, force).polling <= BILLING_GRANULARITY
  {
  }

  /** The 32-bit variable holds every interval shorter than 2^32 ns, and differs from a longer one by a
      multiple of that. */
  lemma TruncatedCuts(time: nat)
    ensures Truncated(time) < 0x1_0000_0000 && (time - Truncated(time)) % 0x1_0000_0000 == 0
    ensures time < 0x1_0000_0000 ==> Truncated(time) == time
  {
  }

  /** What is billed and when it is sent, in numbers: polling shorter than 2^32 ns is billed in full, and
      without force a remainder is sent, all of it, if and only if it exceeds one second. */
  lemma BillInNumbers(b: Bill, time: nat)
    requires Balanced(b)
    ensures var p, e := UpdatePolling(b, time), UpdateExecution(b, time);
            && (time < 0x1_0000_0000 ==>
                  && p.polling == (b.polling + time) % 0x1_0000_0000_0000_0000
                  && p.totalPolling == (b.totalPolling + time) % 0x1_0000_0000_0000_0000)
            && e.execution == (b.execution + time) % 0x1_0000_0000_0000_0000
            && e.totalExecution == (b.totalExecution + time) % 0x1_0000_0000_0000_0000
            && e.totalRequests == (b.totalRequests + 1) % 0x1_0000_0000_0000_0000
    ensures var p, e := SendPolling(b, false), SendExecution(b, false);
            && (if 1_000_000_000 < b.polling then p.polling == 0 && p.sentPolling == b.sentPolling + b.polling
                else p == b)
            && (if 1_000_000_000 < b.execution then e.execution == 0 && e.sentExecution == b.sentExecution + b.execution
                else e == b)
    ensures var p, e := SendPolling(b, true), SendExecution(b, true);
            && p.polling == 0 && p.sentPolling == b.sentPolling + b.polling
            && e.execution == 0 && e.sentExecution == b.sentExecution + b.execution
  {
    TruncatedCuts(time);
  }

  // ---------------------------------------------------------------------------------------------
  // The object
  // ---------------------------------------------------------------------------------------------

  /** The manager's memory that the threads add to. */
  class Counters {
    var hotPolling: nat
    var execution: nat

    ghost predicate Valid()
      reads this
    {
      hotPolling < U64 && execution < U64
    }

    constructor ()
      ensures Valid() && hotPolling == 0 && execution == 0
    {
      hotPolling, execution := 0, 0;
    }
  }

  /** `struct Accounting`; the remote fetch-and-add is an atomic addition on `Counters`. */
  class Account {
    var totalHotPollingTime: nat
    var totalExecutionTime: nat
    var totalRequest: nat
    var hotPollingTime: nat
    var executionTime: nat
    ghost var sentPolling: nat
    ghost var sentExecution: nat

    ghost function Value(): Bill
      reads this
    {
      Bill(totalHotPollingTime, totalExecutionTime, totalRequest, hotPollingTime, executionTime,
           sentPolling, sentExecution)
    }

    constructor ()
      ensures Value() == NewBill() && Balanced(Value())
    {
      totalHotPollingTime, totalExecutionTime, totalRequest := 0, 0, 0;
      hotPollingTime, executionTime := 0, 0;
      sentPolling, sentExecution := 0, 0;
    }

    method UpdateExecutionTime(start: nat, end: nat)
      requires start <= end && Balanced(Value())
      modifies this
      ensures Value() == UpdateExecution(old(Value()), end - start)
      ensures executionTime == (old(executionTime) + (end - start)) % 0x1_0000_0000_0000_0000
      ensures totalExecutionTime == (old(totalExecutionTime) + (end - start)) % 0x1_0000_0000_0000_0000
      ensures Balanced(Value())
    {
      UpdateExecutionBalances(Value(), end - start);
      var diff := end - start;
      executionTime := (executionTime + diff) % U64;
      totalExecutionTime := (totalExecutionTime + diff) % U64;
      totalRequest := (totalRequest + 1) % U64;
    }

    method SendUpdatedExecution(mgr: Counters, force: bool)
      requires Balanced(Value()) && mgr.Valid()
      modifies this, mgr
      ensures Value() == SendExecution(old(Value()), force)
      ensures executionTime == if force || 1_000_000_000 < old(executionTime) then 0 else old(executionTime)
      ensures Balanced(Value()) && executionTime <= BILLING_GRANULARITY
      ensures mgr.Valid() && mgr.execution == (old(mgr.execution) + (sentExecution - old(sentExecution))) % U64
      ensures mgr.hotPolling == old(mgr.hotPolling)
    {
      if force || executionTime > BILLING_GRANULARITY {
        mgr.execution := (mgr.execution + executionTime) % U64;
        sentExecution := sentExecution + executionTime;
        executionTime := 0;
      }
    }

    method UpdatePollingTime(start: nat, end: nat) returns (timePassed: nat)
      requires start <= end && Balanced(Value())
      modifies this
      ensures Value() == UpdatePolling(old(Value()), end - start)
      ensures Balanced(Value()) && timePassed == Truncated(end - start) <= end - start
      ensures timePassed < 0x1_0000_0000 && (end - start - timePassed) % 0x1_0000_0000 == 0
      ensures end - start < 0x1_0000_0000 ==> timePassed == end - start
      ensures hotPollingTime == (old(hotPollingTime) + timePassed) % 0x1_0000_0000_0000_0000
      ensures totalHotPollingTime == (old(totalHotPollingTime) + timePassed) % 0x1_0000_0000_0000_0000
    {
      TruncatedCuts(end - start);
      UpdatePollingBalances(Value(), end - start);
      timePassed := (end - start) % U32;
      hotPollingTime := (hotPollingTime + timePassed) % U64;
      totalHotPollingTime := (totalHotPollingTime + timePassed) % U64;
    }

    method SendUpdatedPolling(mgr: Counters, force: bool)
      requires Balanced(Value()) && mgr.Valid()
      modifies this, mgr
      ensures Value() == SendPolling(old(Value()), force)
      ensures hotPollingTime == if force || 1_000_000_000 < old(hotPollingTime) then 0 else old(hotPollingTime)
      ensures Balanced(Value()) && hotPollingTime <= BILLING_GRANULARITY
      ensures mgr.Valid() && mgr.hotPolling == (old(mgr.hotPolling) + (sentPolling - old(sentPolling))) % U64
      ensures mgr.execution == old(mgr.execution)
    {
      if force || hotPollingTime > BILLING_GRANULARITY {
        if hotPollingTime == 0 {
          return;
        }
        mgr.hotPolling := (mgr.hotPolling + hotPollingTime) % U64;
        sentPolling := sentPolling + hotPollingTime;
        hotPollingTime := 0;
      }
    }
  }
}
