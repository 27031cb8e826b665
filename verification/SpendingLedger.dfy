/** The in-memory spending ledger of the MCP server: what was spent, and whether more may be. */
module SpendingLedger {
  import opened Outcomes
  import opened RollingBudget

  datatype Limits = Limits(
    maxFee: int, maxGas: int, maxTotal: int, maxSpendPerDay: int, maxRecordsPerDay: int)

  datatype Spending = Spending(id: string, txHash: string, amount: nat, gas: nat, timestamp: int)

  datatype FailedAttempt = FailedAttempt(id: string, reason: string, timestamp: int)

  datatype JobStatus = JobPending | JobProcessing | JobCompleted | JobFailed
  datatype BatchJob = BatchJob(
    createdAt: int, totalItems: nat, newItems: nat, duplicateItems: nat, status: JobStatus,
    estimatedCost: nat, actualCost: nat)

  datatype ItemStatus = ItemSuccess | ItemFailed | ItemDuplicate
  datatype BatchItem = BatchItem(contentHash: string, recordId: Option<string>, status: ItemStatus)

  datatype Rule = FeeCap | GasCap | TotalCap | RecordLimit | SpendLimit
  datatype Guardrail = Cleared | Blocked(rule: Rule)

  datatype Stats = Stats(totalSpent: nat, recordsCount: nat)

  // ---------------------------------------------------------------- the log as two budgets

  function Cost(r: Spending): nat { r.amount + r.gas }

  /** What was spent, and how many records, as entries of a rolling budget. */
  function SpendLog(logs: seq<Spending>): seq<Entry> {
    seq(|logs|, i requires 0 <= i < |logs| => Entry(logs[i].timestamp, Cost(logs[i])))
  }

  function RecordLog(logs: seq<Spending>): seq<Entry> {
    seq(|logs|, i requires 0 <= i < |logs| => Entry(logs[i].timestamp, 1))
  }

  function SpentSince(logs: seq<Spending>, since: int): nat { SpentFrom(SpendLog(logs), since) }

  function RecordsSince(logs: seq<Spending>, since: int): nat { SpentFrom(RecordLog(logs), since) }

  lemma SinceAppend(logs: seq<Spending>, r: Spending, since: int)
    ensures SpendLog(logs + [r]) == SpendLog(logs) + [Entry(r.timestamp, Cost(r))]
    ensures RecordLog(logs + [r]) == RecordLog(logs) + [Entry(r.timestamp, 1)]
    ensures SpentSince(logs + [r], since) == SpentSince(logs, since) + if r.timestamp >= since then Cost(r) else 0
    ensures RecordsSince(logs + [r], since) == RecordsSince(logs, since) + if r.timestamp >= since then 1 else 0
  {
    SpentFromAppend(SpendLog(logs), Entry(r.timestamp, Cost(r)), since);
    SpentFromAppend(RecordLog(logs), Entry(r.timestamp, 1), since);
    assert SpendLog(logs + [r]) == SpendLog(logs) + [Entry(r.timestamp, Cost(r))];
    assert RecordLog(logs + [r]) == RecordLog(logs) + [Entry(r.timestamp, 1)];
  }

  /** What is limited: the money spent, or the number of records. */
  datatype Measure = Money | Records

  function UnitOf(fee: nat, gas: nat, m: Measure): nat { if m.Money? then fee + gas else 1 }

  function Cap(l: Limits, m: Measure): nat {
    var cap := if m.Money? then l.maxSpendPerDay else l.maxRecordsPerDay;
    if cap > 0 then cap else 0
  }

  function LogOf(logs: seq<Spending>, m: Measure): seq<Entry> { if m.Money? then SpendLog(logs) else RecordLog(logs) }

  // ---------------------------------------------------------------- the rules

  /** What each rule forbids for `n` records of the same fee and gas. */
  predicate Breaks(l: Limits, logs: seq<Spending>, now: int, n: nat, fee: nat, gas: nat, rule: Rule) {
    match rule
    case FeeCap => fee > l.maxFee
    case GasCap => gas > l.maxGas
    case TotalCap => fee + gas > l.maxTotal
    case RecordLimit => RecordsSince(logs, now - DAY) + n > l.maxRecordsPerDay
    case SpendLimit => SpentSince(logs, now - DAY) + n * (fee + gas) > l.maxSpendPerDay
  }

  /** One record may be paid for: no rule is broken. */
  ghost predicate Permits(l: Limits, logs: seq<Spending>, now: int, fee: nat, gas: nat) {
    forall rule :: !Breaks(l, logs, now, 1, fee, gas, rule)
  }

  /** A batch may be paid for; the total cost of one transaction is not looked at. */
  ghost predicate PermitsBatch(l: Limits, logs: seq<Spending>, now: int, n: nat, fee: nat, gas: nat) {
    forall rule: Rule :: !rule.TotalCap? ==> !Breaks(l, logs, now, n, fee, gas, rule)
  }

  function PutItem(items: seq<BatchItem>, item: BatchItem): seq<BatchItem> {
    if items == [] then [item]
    else if items[0].contentHash == item.contentHash then [item] + items[1..]
    else [items[0]] + PutItem(items[1..], item)
  }

  class MemoryLedger {
    const limits: Limits
    var spendingLogs: seq<Spending>
    var failedAttempts: seq<FailedAttempt>
    var batchJobs: map<string, BatchJob>
    var batchItems: map<string, seq<BatchItem>>

    constructor (limits: Limits)
      ensures this.limits == limits && spendingLogs == [] && failedAttempts == []
      ensures batchJobs == map[] && batchItems == map[]
    {
      this.limits := limits;
      spendingLogs, failedAttempts, batchJobs, batchItems := [], [], map[], map[];
    }

    method RecordTransaction(id: string, txHash: string, amount: nat, gas: nat, now: int)
      modifies this`spendingLogs
      ensures spendingLogs == old(spendingLogs) + [Spending(id, txHash, amount, gas, now)]
    {
      spendingLogs := spendingLogs + [Spending(id, txHash, amount, gas, now)];
    }

    method RecordFailedAttempt(id: string, reason: string, now: int)
      modifies this`failedAttempts
      ensures failedAttempts == old(failedAttempts) + [FailedAttempt(id, reason, now)]
    {
      failedAttempts := failedAttempts + [FailedAttempt(id, reason, now)];
    }

    /** The totals of the last 24 hours, by one pass over the log. */
    method GetDailyStats(now: int) returns (stats: Stats)
      ensures stats == Stats(SpentSince(spendingLogs, now - DAY), RecordsSince(spendingLogs, now - DAY))
    {
      var spent, count := 0, 0;
      for i := 0 to |spendingLogs|
        invariant spent == SpentSince(spendingLogs[..i], now - DAY)
        invariant count == RecordsSince(spendingLogs[..i], now - DAY)
      {
        var r := spendingLogs[i];
        assert spendingLogs[..i + 1] == spendingLogs[..i] + [r];
        SinceAppend(spendingLogs[..i], r, now - DAY);
        if r.timestamp >= now - DAY {
          spent := spent + (r.amount + r.gas);
          count := count + 1;
        }
      }
      assert spendingLogs[..|spendingLogs|] == spendingLogs;
      return Stats(spent, count);
    }

    method CheckGuardrails(fee: nat, gas: nat, now: int) returns (g: Guardrail)
      ensures g.Cleared? <==> Permits(limits, spendingLogs, now, fee, gas)
      ensures g.Blocked? ==> Breaks(limits, spendingLogs, now, 1, fee, gas, g.rule)
    {
      PermitsMeans(limits, spendingLogs, now, 1, fee, gas);
      if fee > limits.maxFee { return Blocked(FeeCap); }
      if gas > limits.maxGas { return Blocked(GasCap); }
      if fee + gas > limits.maxTotal { return Blocked(TotalCap); }
      var stats := GetDailyStats(now);
      if stats.recordsCount >= limits.maxRecordsPerDay { return Blocked(RecordLimit); }
      if stats.totalSpent + (fee + gas) > limits.maxSpendPerDay { return Blocked(SpendLimit); }
      return Cleared;
    }

    method CheckBatchGuardrails(itemCount: nat, fee: nat, gas: nat, now: int) returns (g: Guardrail)
      ensures g.Cleared? <==> PermitsBatch(limits, spendingLogs, now, itemCount, fee, gas)
      ensures g.Blocked? ==> !g.rule.TotalCap? && Breaks(limits, spendingLogs, now, itemCount, fee, gas, g.rule)
    {
      PermitsMeans(limits, spendingLogs, now, itemCount, fee, gas);
      if fee > limits.maxFee { return Blocked(FeeCap); }
      if gas > limits.maxGas { return Blocked(GasCap); }
      var total := (fee + gas) * itemCount;
      var stats := GetDailyStats(now);
      if stats.recordsCount + itemCount > limits.maxRecordsPerDay { return Blocked(RecordLimit); }
      if stats.totalSpent + total > limits.maxSpendPerDay { return Blocked(SpendLimit); }
      return Cleared;
    }

    method CreateBatchJob(batchId: string, totalItems: nat, newItems: nat, duplicateItems: nat, estimate: nat, now: int)
      modifies this`batchJobs, this`batchItems
      ensures batchJobs == old(batchJobs)[batchId :=
        BatchJob(now, totalItems, newItems, duplicateItems, JobPending, estimate, 0)]
      ensures batchItems == old(batchItems)[batchId := []]
    {
      batchJobs := batchJobs[batchId := BatchJob(now, totalItems, newItems, duplicateItems, JobPending, estimate, 0)];
      batchItems := batchItems[batchId := []];
    }

    method UpdateBatchJobStatus(batchId: string, status: JobStatus, actualCost: Option<nat>)
      modifies this`batchJobs
      ensures batchId !in old(batchJobs) ==> batchJobs == old(batchJobs)
      ensures batchId in old(batchJobs) ==> batchJobs == old(batchJobs)[batchId :=
        old(batchJobs)[batchId].(status := status,
          actualCost := if actualCost.Some? then actualCost.value else old(batchJobs)[batchId].actualCost)]
    {
      if batchId in batchJobs {
        var job := batchJobs[batchId].(status := status);
        if actualCost.Some? { job := job.(actualCost := actualCost.value); }
        batchJobs := batchJobs[batchId := job];
      }
    }

    /** The item replaces the one with its content hash, or comes last. */
    method AddBatchItem(batchId: string, item: BatchItem)
      modifies this`batchItems
      ensures batchItems == old(batchItems)[batchId :=
        PutItem(if batchId in old(batchItems) then old(batchItems)[batchId] else [], item)]
    {
      var items := if batchId in batchItems then batchItems[batchId] else [];
      var i := 0;
      while i < |items| && items[i].contentHash != item.contentHash
        invariant i <= |items|
        invariant forall j :: 0 <= j < i ==> items[j].contentHash != item.contentHash
      {
        i := i + 1;
      }
      PutItemAt(items, item, i);
      batchItems := batchItems[batchId := if i < |items| then items[i := item] else items + [item]];
    }
  }

  lemma {:induction false} PutItemAt(items: seq<BatchItem>, item: BatchItem, i: nat)
    requires i <= |items| && (i < |items| ==> items[i].contentHash == item.contentHash)
    requires forall j :: 0 <= j < i ==> items[j].contentHash != item.contentHash
    ensures PutItem(items, item) == if i < |items| then items[i := item] else items + [item]
  {
    if items != [] && i > 0 {
      PutItemAt(items[1..], item, i - 1);
    }
  }

  /** Every content hash has one item, the last one given for it. */
  predicate OneEach(items: seq<BatchItem>) {
    forall i, j :: 0 <= i < j < |items| ==> items[i].contentHash != items[j].contentHash
  }

  lemma {:induction false} PutItemKeeps(items: seq<BatchItem>, item: BatchItem, x: BatchItem)
    requires OneEach(items)
    ensures OneEach(PutItem(items, item))
    ensures x in PutItem(items, item) <==> x == item || (x in items && x.contentHash != item.contentHash)
  {
    if items == [] {
    } else {
      assert items == [items[0]] + items[1..];
      if items[0].contentHash == item.contentHash {
        assert forall y :: y in items[1..] ==> y.contentHash != item.contentHash;
      } else {
        PutItemKeeps(items[1..], item, x);
        forall y | y in PutItem(items[1..], item) ensures y.contentHash != items[0].contentHash {
          PutItemKeeps(items[1..], item, y);
        }
      }
    }
  }

  // ---------------------------------------------------------------- a batch is as good as its items

  /** `n` checks and records, one after the other at one reading of the clock, all pass. */
  ghost predicate PermitsEach(l: Limits, logs: seq<Spending>, now: int, n: nat, fee: nat, gas: nat, r: Spending)
    decreases n
  {
    n > 0 ==> Permits(l, logs, now, fee, gas) && PermitsEach(l, logs + [r], now, n - 1, fee, gas, r)
  }

  /**
   * The batch guardrail is the single guardrail iterated: together with the cap on one transaction,
   * which it leaves out, it clears a batch exactly when every item would be cleared in turn.
   */
  lemma {:induction false} BatchIsIteratedSingle(l: Limits, logs: seq<Spending>, now: int, n: nat, fee: nat, gas: nat,
                                                 r: Spending)
    requires n >= 1 && r.amount == fee && r.gas == gas && r.timestamp == now
    ensures PermitsBatch(l, logs, now, n, fee, gas) && fee + gas <= l.maxTotal
            <==> PermitsEach(l, logs, now, n, fee, gas, r)
    decreases n
  {
    PermitsMeans(l, logs, now, n, fee, gas);
    if n > 1 {
      BatchIsIteratedSingle(l, logs + [r], now, n - 1, fee, gas, r);
      PermitsMeans(l, logs + [r], now, n - 1, fee, gas);
      SinceAppend(logs, r, now - DAY);
      assert n * (fee + gas) == (n - 1) * (fee + gas) + (fee + gas);
    }
  }

  // ---------------------------------------------------------------- the daily caps

  /** No 24 hours of the log exceed the cap. */
  ghost predicate WithinCap(logs: seq<Spending>, m: Measure, cap: int) {
    forall from, until :: until <= from + DAY ==> SpentIn(LogOf(logs, m), from, until) <= cap
  }

  ghost predicate WithinCaps(l: Limits, logs: seq<Spending>) { forall m :: WithinCap(logs, m, Cap(l, m)) }

  /** Payments of one cost each, none before `now`. */
  predicate PaidSince(added: seq<Spending>, now: int, fee: nat, gas: nat) {
    forall i :: 0 <= i < |added| ==> added[i].amount == fee && added[i].gas == gas && added[i].timestamp >= now
  }

  lemma {:induction false} AddedIn(added: seq<Spending>, now: int, fee: nat, gas: nat, m: Measure, from: int, until: int)
    requires PaidSince(added, now, fee, gas)
    ensures SpentIn(LogOf(added, m), from, until) <= |added| * UnitOf(fee, gas, m)
    ensures until < now ==> SpentIn(LogOf(added, m), from, until) == 0
  {
    if added != [] {
      var n := |added| - 1;
      AddedIn(added[..n], now, fee, gas, m, from, until);
      assert LogOf(added, m)[..n] == LogOf(added[..n], m);
      assert |added| * UnitOf(fee, gas, m) == n * UnitOf(fee, gas, m) + UnitOf(fee, gas, m);
    }
  }

  lemma {:induction false} SpentInConcat(a: seq<Entry>, b: seq<Entry>, from: int, until: int)
    ensures SpentIn(a + b, from, until) == SpentIn(a, from, until) + SpentIn(b, from, until)
  {
    if b == [] {
      assert a + b == a;
    } else {
      SpentInConcat(a, b[..|b| - 1], from, until);
      assert (a + b)[..|a + b| - 1] == a + b[..|b| - 1];
    }
  }

  /** Payments that a check had room for at `now`, however much later each is logged, keep every 24 hours within the cap. */
  lemma PaymentsKeepCap(logs: seq<Spending>, added: seq<Spending>, now: int, n: nat, fee: nat, gas: nat, m: Measure,
                        cap: int)
    requires WithinCap(logs, m, cap) && PaidSince(added, now, fee, gas) && |added| <= n
    requires SpentFrom(LogOf(logs, m), now - DAY) + n * UnitOf(fee, gas, m) <= cap
    ensures WithinCap(logs + added, m, cap)
  {
    assert LogOf(logs + added, m) == LogOf(logs, m) + LogOf(added, m);
    forall from, until | until <= from + DAY ensures SpentIn(LogOf(logs + added, m), from, until) <= cap {
      SpentInConcat(LogOf(logs, m), LogOf(added, m), from, until);
      AddedIn(added, now, fee, gas, m, from, until);
      if until >= now {
        SpentMonotone(LogOf(logs, m), now - DAY, from, until);
        MoreCostMore(|added|, n, UnitOf(fee, gas, m));
      }
    }
  }

  lemma MoreCostMore(a: nat, b: nat, cost: nat)
    requires a <= b
    ensures a * cost <= b * cost
  {
  }

  lemma BatchKeepsCaps(l: Limits, logs: seq<Spending>, added: seq<Spending>, now: int, n: nat, fee: nat, gas: nat)
    requires PermitsBatch(l, logs, now, n, fee, gas) && PaidSince(added, now, fee, gas) && |added| <= n
    requires WithinCaps(l, logs)
    ensures WithinCaps(l, logs + added)
  {
    PermitsMeans(l, logs, now, n, fee, gas);
    forall m ensures WithinCap(logs + added, m, Cap(l, m)) {
      PaymentsKeepCap(logs, added, now, n, fee, gas, m, Cap(l, m));
    }
  }

  lemma PermitsMeans(l: Limits, logs: seq<Spending>, now: int, n: nat, fee: nat, gas: nat)
    ensures Permits(l, logs, now, fee, gas)
      <==> fee <= l.maxFee && gas <= l.maxGas && fee + gas <= l.maxTotal
           && RecordsSince(logs, now - DAY) + 1 <= l.maxRecordsPerDay
           && SpentSince(logs, now - DAY) + (fee + gas) <= l.maxSpendPerDay
    ensures PermitsBatch(l, logs, now, n, fee, gas)
      <==> fee <= l.maxFee && gas <= l.maxGas
           && RecordsSince(logs, now - DAY) + n <= l.maxRecordsPerDay
           && SpentSince(logs, now - DAY) + n * (fee + gas) <= l.maxSpendPerDay
  {
    assert (forall rule :: !Breaks(l, logs, now, 1, fee, gas, rule))
      <==> !Breaks(l, logs, now, 1, fee, gas, FeeCap) && !Breaks(l, logs, now, 1, fee, gas, GasCap)
           && !Breaks(l, logs, now, 1, fee, gas, TotalCap) && !Breaks(l, logs, now, 1, fee, gas, RecordLimit)
           && !Breaks(l, logs, now, 1, fee, gas, SpendLimit);
    assert PermitsBatch(l, logs, now, n, fee, gas)
      <==> !Breaks(l, logs, now, n, fee, gas, FeeCap) && !Breaks(l, logs, now, n, fee, gas, GasCap)
           && !Breaks(l, logs, now, n, fee, gas, RecordLimit) && !Breaks(l, logs, now, n, fee, gas, SpendLimit);
  }
}
