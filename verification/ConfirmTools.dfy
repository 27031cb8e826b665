/** The two-phase tools of the MCP server: prepare, then confirm once, re-check, pay and account. */
module ConfirmTools {
  import opened Outcomes
  import opened SpendingLedger

  const MAX_PENDING_CONFIRMATIONS := 1000
  const RECORD_TTL := 5 * 60 * 1000
  const BATCH_TTL := 10 * 60 * 1000

  /** What a caller names: the hash of the content given, if any, and the hash given, if any. */
  datatype Args = Args(content: Option<string>, contentHash: Option<string>)

  predicate Named(a: Args) { a.content.Some? || a.contentHash.Some? }

  function TargetHash(a: Args): string
    requires Named(a)
  {
    if a.contentHash.Some? then a.contentHash.value else a.content.value
  }

  /** The hash given, and the hash of the content given, are this one. */
  predicate NamedBy(a: Args, hash: string) {
    && (a.contentHash.Some? ==> a.contentHash.value == hash) && (a.content.Some? ==> a.content.value == hash)
  }

  /** Content and hash, when both are given, belong together. */
  predicate Coherent(a: Args) { a.content.Some? && a.contentHash.Some? ==> a.content == a.contentHash }

  predicate InTime(now: int, expiresAt: int) { now <= expiresAt }

  /** The fee and the gas of one record are within their limits. */
  predicate Affordable(l: Limits, fee: nat, gas: nat) { fee <= l.maxFee && gas <= l.maxGas }

  // ---------------------------------------------------------------- one record

  datatype Confirmation = Confirmation(args: Args, fee: nat, gas: nat, expiresAt: int)

  datatype Prepared = Ready | AlreadyRecorded | NotPrepared

  datatype Confirmed = Recorded(recordId: string) | NotConfirmed

  class RecordTool {
    const ledger: MemoryLedger
    var pending: map<string, Confirmation>

    constructor (ledger: MemoryLedger)
      ensures this.ledger == ledger && pending == map[]
    {
      this.ledger := ledger;
      pending := map[];
    }

    /** `exists_` is the answer of the registry about the content, when there is one. */
    method Prepare(args: Args, exists_: Option<bool>, fee: nat, gas: nat, id: string, now: int) returns (r: Prepared)
      requires id !in pending
      modifies this`pending, ledger`failedAttempts
      ensures r.Ready? <==> Named(args) && exists_ == Some(false) && |old(pending)| < MAX_PENDING_CONFIRMATIONS
                            && Permits(ledger.limits, ledger.spendingLogs, now, fee, gas)
      ensures pending == if r.Ready? then old(pending)[id := Confirmation(args, fee, gas, now + RECORD_TTL)]
                         else old(pending)
      ensures ledger.failedAttempts ==
        if Named(args) && exists_ == Some(false) && !Permits(ledger.limits, ledger.spendingLogs, now, fee, gas) then
          old(ledger.failedAttempts) + [FailedAttempt(id, "Guardrail blocked prepare", now)]
        else old(ledger.failedAttempts)
    {
      if !Named(args) || exists_.None? { return NotPrepared; }
      if exists_.value { return AlreadyRecorded; }
      var g := ledger.CheckGuardrails(fee, gas, now);
      if g.Blocked? {
        ledger.RecordFailedAttempt(id, "Guardrail blocked prepare", now);
        return NotPrepared;
      }
      if |pending| >= MAX_PENDING_CONFIRMATIONS { return NotPrepared; }
      pending := pending[id := Confirmation(args, fee, gas, now + RECORD_TTL)];
      return Ready;
    }

    /** The id is good for a payment now: known, not expired, and within every limit. */
    ghost predicate MayPay(id: string, now: int)
      reads this, ledger
    {
      && id in pending && now <= pending[id].expiresAt
      && Permits(ledger.limits, ledger.spendingLogs, now, pending[id].fee, pending[id].gas)
    }

    /**
     * A confirmation is consumed whatever becomes of it, so it pays at most once. The registry is
     * asked to record, under the target hash, only when the limits still allow it; and the log grows
     * by the prepared cost exactly when the registry recorded.
     */
    method Confirm(id: string, now: int, reply: Option<string>, later: int) returns (r: Confirmed, asked: Option<string>)
      requires id in pending ==> Named(pending[id].args)
      modifies this`pending, ledger`spendingLogs, ledger`failedAttempts
      ensures pending == old(pending) - {id}
      ensures asked.Some? <==> old(MayPay(id, now)) && Coherent(old(pending)[id].args)
      ensures asked.Some? ==> NamedBy(old(pending)[id].args, asked.value)
      ensures asked.Some? ==> id in old(pending) && InTime(now, old(pending)[id].expiresAt)
                              && Affordable(ledger.limits, old(pending)[id].fee, old(pending)[id].gas)
                              && old(pending)[id].fee + old(pending)[id].gas <= ledger.limits.maxTotal
      ensures later >= now && old(WithinCaps(ledger.limits, ledger.spendingLogs))
              ==> WithinCaps(ledger.limits, ledger.spendingLogs)
      ensures r == if asked.Some? && reply.Some? then Recorded(reply.value) else NotConfirmed
      ensures ledger.spendingLogs ==
        if r.Recorded? then
          old(ledger.spendingLogs) + [Spending(reply.value, "0x_rxm_sdk_internal", old(pending)[id].fee,
                                               old(pending)[id].gas, later)]
        else old(ledger.spendingLogs)
      ensures ledger.failedAttempts ==
        if id in old(pending) && now <= old(pending)[id].expiresAt && !old(MayPay(id, now)) then
          old(ledger.failedAttempts) + [FailedAttempt(id, "Guardrail blocked confirm", now)]
        else old(ledger.failedAttempts)
    {
      asked := None;
      if id !in pending { return NotConfirmed, None; }
      var req := pending[id];
      if now > req.expiresAt {
        pending := pending - {id};
        return NotConfirmed, None;
      }
      pending := pending - {id};
      var g := ledger.CheckGuardrails(req.fee, req.gas, now);
      if g.Blocked? {
        ledger.RecordFailedAttempt(id, "Guardrail blocked confirm", now);
        return NotConfirmed, None;
      }
      PermitsMeans(ledger.limits, ledger.spendingLogs, now, 1, req.fee, req.gas);
      if !Coherent(req.args) { return NotConfirmed, None; }
      asked := Some(TargetHash(req.args));
      if reply.None? { return NotConfirmed, asked; }
      ghost var logs := ledger.spendingLogs;
      ledger.RecordTransaction(reply.value, "0x_rxm_sdk_internal", req.fee, req.gas, later);
      if later >= now && WithinCaps(ledger.limits, logs) {
        BatchKeepsCaps(ledger.limits, logs, ledger.spendingLogs[|logs|..], now, 1, req.fee, req.gas);
      }
      return Recorded(reply.value), asked;
    }
  }

  // ---------------------------------------------------------------- a batch

  datatype BatchRequest = BatchRequest(newItems: seq<string>, duplicates: seq<string>, fee: nat, gas: nat, expiresAt: int)

  /** The registry's answer for one item, and when it came. */
  datatype Reply = Reply(recordId: Option<string>, time: int)

  function Successes(replies: seq<Reply>): nat {
    if replies == [] then 0
    else Successes(replies[..|replies| - 1]) + if replies[|replies| - 1].recordId.Some? then 1 else 0
  }

  /** What is logged for a list of replies: one entry a success, in order. */
  function Charges(replies: seq<Reply>, fee: nat, gas: nat): seq<Spending> {
    if replies == [] then []
    else
      var last := replies[|replies| - 1];
      Charges(replies[..|replies| - 1], fee, gas)
      + if last.recordId.Some? then [Spending(last.recordId.value, "0x_rxm_sdk_batch", fee, gas, last.time)] else []
  }

  function ItemFor(hash: string, reply: Reply): BatchItem {
    BatchItem(hash, reply.recordId, if reply.recordId.Some? then ItemSuccess else ItemFailed)
  }

  /** The items table after the duplicates and then the replies were entered. */
  function Entered(duplicates: seq<string>, hashes: seq<string>, replies: seq<Reply>): seq<BatchItem>
    requires |hashes| == |replies|
    decreases |hashes|, |duplicates|
  {
    if hashes != [] then
      var n := |hashes| - 1;
      PutItem(Entered(duplicates, hashes[..n], replies[..n]), ItemFor(hashes[n], replies[n]))
    else if duplicates != [] then
      var n := |duplicates| - 1;
      PutItem(Entered(duplicates[..n], [], []), BatchItem(duplicates[n], None, ItemDuplicate))
    else []
  }

  function Total(logs: seq<Spending>): nat {
    if logs == [] then 0 else Total(logs[..|logs| - 1]) + Cost(logs[|logs| - 1])
  }

  class BatchTool {
    const ledger: MemoryLedger
    var pending: map<string, BatchRequest>

    constructor (ledger: MemoryLedger)
      ensures this.ledger == ledger && pending == map[]
    {
      this.ledger := ledger;
      pending := map[];
    }

    /** Sort the items into those to record and those the registry already has. */
    method Split(items: seq<Args>, dedup: bool, known: seq<Option<bool>>)
      returns (ok: bool, newItems: seq<string>, duplicates: seq<string>)
      requires |known| == |items|
      ensures ok <==> Answered(items, dedup, known)
      ensures ok ==> newItems == Selected(items, dedup, known, false) && duplicates == Selected(items, dedup, known, true)
    {
      ok, newItems, duplicates := true, [], [];
      for i := 0 to |items|
        invariant Answered(items[..i], dedup, known[..i])
        invariant newItems == Selected(items[..i], dedup, known[..i], false)
        invariant duplicates == Selected(items[..i], dedup, known[..i], true)
      {
        if !Named(items[i]) || (dedup && known[i].None?) {
          assert !Answered(items, dedup, known);
          return false, newItems, duplicates;
        }
        assert items[..i + 1][..i] == items[..i] && known[..i + 1][..i] == known[..i];
        if dedup && known[i].value {
          duplicates := duplicates + [TargetHash(items[i])];
        } else {
          newItems := newItems + [TargetHash(items[i])];
        }
      }
      assert items[..|items|] == items && known[..|items|] == known;
    }

    /** A batch of named items within its size is ready when something in it is new and may be paid for. */
    ghost predicate MayPrepare(items: seq<Args>, dedup: bool, maxBatchSize: nat, known: seq<Option<bool>>)
      requires |known| == |items|
    {
      |items| <= maxBatchSize && Answered(items, dedup, known) && Selected(items, dedup, known, false) != []
    }

    method Prepare(items: seq<Args>, dedup: bool, maxBatchSize: nat, known: seq<Option<bool>>, fee: nat, gas: nat,
                   id: string, now: int)
      returns (r: Prepared)
      requires |known| == |items| && id !in pending
      modifies this`pending, ledger`failedAttempts
      ensures r.Ready? <==>
        && MayPrepare(items, dedup, maxBatchSize, known)
        && PermitsBatch(ledger.limits, ledger.spendingLogs, now, |Selected(items, dedup, known, false)|, fee, gas)
      ensures pending ==
        if r.Ready? then
          old(pending)[id := BatchRequest(Selected(items, dedup, known, false), Selected(items, dedup, known, true),
                                          fee, gas, now + BATCH_TTL)]
        else old(pending)
      ensures ledger.failedAttempts ==
        if MayPrepare(items, dedup, maxBatchSize, known) && !r.Ready? then
          old(ledger.failedAttempts) + [FailedAttempt(id, "Batch guardrail", now)]
        else old(ledger.failedAttempts)
    {
      if |items| > maxBatchSize { return NotPrepared; }
      var ok, hashes, duplicates := Split(items, dedup, known);
      if !ok { return NotPrepared; }
      if hashes == [] { return AlreadyRecorded; }
      var g := ledger.CheckBatchGuardrails(|hashes|, fee, gas, now);
      if g.Blocked? {
        ledger.RecordFailedAttempt(id, "Batch guardrail", now);
        return NotPrepared;
      }
      pending := pending[id := BatchRequest(hashes, duplicates, fee, gas, now + BATCH_TTL)];
      return Ready;
    }

    ghost predicate MayPay(id: string, now: int)
      reads this, ledger
    {
      && id in pending && now <= pending[id].expiresAt
      && PermitsBatch(ledger.limits, ledger.spendingLogs, now, |pending[id].newItems|, pending[id].fee, pending[id].gas)
    }

    /**
     * A batch is confirmed at most once, and pays exactly for what was recorded: the actual cost is
     * the cost of one item times the successes, and that is what the log grew by. The job ends
     * failed only when nothing was recorded.
     */
    method Confirm(id: string, now: int, replies: seq<Reply>) returns (done: bool)
      requires id in pending ==> |replies| == |pending[id].newItems| && pending[id].newItems != []
      modifies this`pending, ledger
      ensures pending == old(pending) - {id}
      ensures done == old(MayPay(id, now))
      ensures done ==> id in old(pending) && InTime(now, old(pending)[id].expiresAt)
                       && Affordable(ledger.limits, old(pending)[id].fee, old(pending)[id].gas)
      ensures !done ==> ledger.spendingLogs == old(ledger.spendingLogs) && ledger.batchJobs == old(ledger.batchJobs)
                        && ledger.batchItems == old(ledger.batchItems)
      ensures ledger.failedAttempts ==
        if id in old(pending) && now <= old(pending)[id].expiresAt && !done then
          old(ledger.failedAttempts) + [FailedAttempt(id, "Batch confirm guardrail", now)]
        else old(ledger.failedAttempts)
      ensures done ==> var req := old(pending)[id];
        && ledger.spendingLogs == old(ledger.spendingLogs) + Charges(replies, req.fee, req.gas)
        && ledger.batchItems == old(ledger.batchItems)[id := Entered(req.duplicates, req.newItems, replies)]
        && id in ledger.batchJobs && ledger.batchJobs == old(ledger.batchJobs)[id := ledger.batchJobs[id]]
        && Accounted(ledger.batchJobs[id], req, replies)
        && ledger.batchJobs[id].actualCost == Total(ledger.spendingLogs) - Total(old(ledger.spendingLogs))
      ensures RepliedSince(replies, now) && old(WithinCaps(ledger.limits, ledger.spendingLogs))
              ==> WithinCaps(ledger.limits, ledger.spendingLogs)
    {
      if id !in pending { return false; }
      var req := pending[id];
      pending := pending - {id};
      if now > req.expiresAt { return false; }
      var g := ledger.CheckBatchGuardrails(|req.newItems|, req.fee, req.gas, now);
      if g.Blocked? {
        ledger.RecordFailedAttempt(id, "Batch confirm guardrail", now);
        return false;
      }
      PermitsMeans(ledger.limits, ledger.spendingLogs, now, |req.newItems|, req.fee, req.gas);
      Process(id, req, replies, now);
      TotalOfCharges(old(ledger.spendingLogs), replies, req.fee, req.gas);
      ChargesKeepCaps(ledger.limits, old(ledger.spendingLogs), replies, now, req.fee, req.gas);
      return true;
    }

    /** The job of a confirmed batch, from start to end. */
    method Process(id: string, req: BatchRequest, replies: seq<Reply>, now: int)
      requires |replies| == |req.newItems| && req.newItems != []
      modifies ledger`spendingLogs, ledger`batchJobs, ledger`batchItems
      ensures ledger.spendingLogs == old(ledger.spendingLogs) + Charges(replies, req.fee, req.gas)
      ensures ledger.batchItems == old(ledger.batchItems)[id := Entered(req.duplicates, req.newItems, replies)]
      ensures id in ledger.batchJobs && ledger.batchJobs == old(ledger.batchJobs)[id := ledger.batchJobs[id]]
      ensures Accounted(ledger.batchJobs[id], req, replies)
    {
      OpenJob(id, req, (req.fee + req.gas) * |req.newItems|, now);
      var succeeded, failed, actualCost := PayItems(id, req, replies);
      ledger.UpdateBatchJobStatus(id, if failed != 0 && succeeded == 0 then JobFailed else JobCompleted, Some(actualCost));
    }

    method OpenJob(id: string, req: BatchRequest, estimate: nat, now: int)
      modifies ledger`batchJobs, ledger`batchItems
      ensures ledger.batchItems == old(ledger.batchItems)[id := Entered(req.duplicates, [], [])]
      ensures ledger.batchJobs == old(ledger.batchJobs)[id :=
        BatchJob(now, |req.newItems| + |req.duplicates|, |req.newItems|, |req.duplicates|, JobProcessing, estimate, 0)]
    {
      ledger.CreateBatchJob(id, |req.newItems| + |req.duplicates|, |req.newItems|, |req.duplicates|, estimate, now);
      ledger.UpdateBatchJobStatus(id, JobProcessing, None);
      EnterDuplicates(id, req.duplicates);
    }

    method EnterDuplicates(id: string, duplicates: seq<string>)
      requires id in ledger.batchItems && ledger.batchItems[id] == []
      modifies ledger`batchItems
      ensures ledger.batchItems == old(ledger.batchItems)[id := Entered(duplicates, [], [])]
    {
      for i := 0 to |duplicates|
        invariant ledger.batchItems == old(ledger.batchItems)[id := Entered(duplicates[..i], [], [])]
      {
        assert duplicates[..i + 1][..i] == duplicates[..i];
        ledger.AddBatchItem(id, BatchItem(duplicates[i], None, ItemDuplicate));
      }
      assert duplicates[..|duplicates|] == duplicates;
    }

    /** One item: pay and log when the registry recorded it, and enter the outcome. */
    method PayItem(id: string, hash: string, reply: Reply, fee: nat, gas: nat)
      requires id in ledger.batchItems
      modifies ledger`spendingLogs, ledger`batchItems
      ensures ledger.spendingLogs == old(ledger.spendingLogs) + Charges([reply], fee, gas)
      ensures ledger.batchItems == old(ledger.batchItems)[id := PutItem(old(ledger.batchItems)[id], ItemFor(hash, reply))]
    {
      assert [reply][..0] == [];
      if reply.recordId.Some? {
        ledger.RecordTransaction(reply.recordId.value, "0x_rxm_sdk_batch", fee, gas, reply.time);
      }
      ledger.AddBatchItem(id, ItemFor(hash, reply));
    }

    method PayItems(id: string, req: BatchRequest, replies: seq<Reply>)
      returns (succeeded: nat, failed: nat, actualCost: nat)
      requires |replies| == |req.newItems|
      requires id in ledger.batchItems && ledger.batchItems[id] == Entered(req.duplicates, [], [])
      modifies ledger`spendingLogs, ledger`batchItems
      ensures succeeded == Successes(replies) && succeeded + failed == |replies|
      ensures actualCost == Successes(replies) * (req.fee + req.gas)
      ensures ledger.spendingLogs == old(ledger.spendingLogs) + Charges(replies, req.fee, req.gas)
      ensures ledger.batchItems == old(ledger.batchItems)[id := Entered(req.duplicates, req.newItems, replies)]
    {
      succeeded, failed, actualCost := 0, 0, 0;
      for i := 0 to |replies|
        invariant succeeded == Successes(replies[..i]) && succeeded + failed == i
        invariant actualCost == succeeded * (req.fee + req.gas)
        invariant ledger.spendingLogs == old(ledger.spendingLogs) + Charges(replies[..i], req.fee, req.gas)
        invariant ledger.batchItems == old(ledger.batchItems)[id := Entered(req.duplicates, req.newItems[..i], replies[..i])]
      {
        NextReply(req, replies, i);
        PayItem(id, req.newItems[i], replies[i], req.fee, req.gas);
        if replies[i].recordId.Some? {
          OneMore(succeeded, req.fee + req.gas);
          actualCost := actualCost + (req.fee + req.gas);
          succeeded := succeeded + 1;
        } else {
          failed := failed + 1;
        }
      }
      assert replies[..|replies|] == replies && req.newItems[..|replies|] == req.newItems;
    }
  }

  /** No reply comes before the check. */
  predicate RepliedSince(replies: seq<Reply>, now: int) { forall i :: 0 <= i < |replies| ==> replies[i].time >= now }

  lemma {:induction false} ChargesArePayments(replies: seq<Reply>, now: int, fee: nat, gas: nat)
    requires RepliedSince(replies, now)
    ensures |Charges(replies, fee, gas)| == Successes(replies) <= |replies|
    ensures PaidSince(Charges(replies, fee, gas), now, fee, gas)
  {
    if replies == [] {
    } else {
      ChargesArePayments(replies[..|replies| - 1], now, fee, gas);
    }
  }

  lemma ChargesKeepCaps(l: Limits, logs: seq<Spending>, replies: seq<Reply>, now: int, fee: nat, gas: nat)
    requires PermitsBatch(l, logs, now, |replies|, fee, gas)
    ensures RepliedSince(replies, now) && WithinCaps(l, logs) ==> WithinCaps(l, logs + Charges(replies, fee, gas))
  {
    if RepliedSince(replies, now) && WithinCaps(l, logs) {
      ChargesArePayments(replies, now, fee, gas);
      BatchKeepsCaps(l, logs, Charges(replies, fee, gas), now, |replies|, fee, gas);
    }
  }

  /** Every success is logged in its place among the successes, under its record id, at the time of its reply. */
  lemma {:induction false} ChargeOfEach(replies: seq<Reply>, fee: nat, gas: nat, i: nat)
    requires i < |replies| && replies[i].recordId.Some?
    ensures Successes(replies[..i]) < |Charges(replies, fee, gas)| == Successes(replies)
    ensures var charge := Charges(replies, fee, gas)[Successes(replies[..i])];
      && charge.id == replies[i].recordId.value && charge.timestamp == replies[i].time
      && charge.amount == fee && charge.gas == gas
    decreases |replies|
  {
    var n := |replies| - 1;
    ChargeCount(replies[..n], fee, gas);
    if i < n {
      ChargeOfEach(replies[..n], fee, gas, i);
      assert replies[..n][..i] == replies[..i];
    }
  }

  lemma {:induction false} ChargeCount(replies: seq<Reply>, fee: nat, gas: nat)
    ensures |Charges(replies, fee, gas)| == Successes(replies)
  {
    if replies == [] {
    } else {
      ChargeCount(replies[..|replies| - 1], fee, gas);
    }
  }

  /** What one more reply adds. */
  lemma NextReply(req: BatchRequest, replies: seq<Reply>, i: nat)
    requires |replies| == |req.newItems| && i < |replies|
    ensures Successes(replies[..i + 1]) == Successes(replies[..i]) + if replies[i].recordId.Some? then 1 else 0
    ensures Charges(replies[..i + 1], req.fee, req.gas)
            == Charges(replies[..i], req.fee, req.gas) + Charges([replies[i]], req.fee, req.gas)
    ensures Entered(req.duplicates, req.newItems[..i + 1], replies[..i + 1])
            == PutItem(Entered(req.duplicates, req.newItems[..i], replies[..i]), ItemFor(req.newItems[i], replies[i]))
  {
    assert replies[..i + 1][..i] == replies[..i] && req.newItems[..i + 1][..i] == req.newItems[..i];
    assert [replies[i]][..0] == [];
  }

  /** How the job of a batch is closed. */
  predicate Accounted(job: BatchJob, req: BatchRequest, replies: seq<Reply>) {
    && job.actualCost == Successes(replies) * (req.fee + req.gas)
    && job.estimatedCost == (req.fee + req.gas) * |req.newItems|
    && job.newItems == |req.newItems| && job.duplicateItems == |req.duplicates|
    && job.totalItems == |req.newItems| + |req.duplicates|
    && job.status == if Successes(replies) == 0 then JobFailed else JobCompleted
  }

  /** Every item is named, and the registry answered about it when it was asked. */
  predicate Answered(items: seq<Args>, dedup: bool, known: seq<Option<bool>>)
    requires |known| == |items|
  {
    forall i :: 0 <= i < |items| ==> Named(items[i]) && (dedup ==> known[i].Some?)
  }

  /** The hashes of the items that are duplicates, or of those that are not, in order. */
  function Selected(items: seq<Args>, dedup: bool, known: seq<Option<bool>>, duplicates: bool): seq<string>
    requires |known| == |items| && Answered(items, dedup, known)
  {
    if items == [] then []
    else
      var n := |items| - 1;
      Selected(items[..n], dedup, known[..n], duplicates)
      + if (dedup && known[n].value) == duplicates then [TargetHash(items[n])] else []
  }

  function HashesOf(items: seq<Args>): seq<string>
    requires forall i :: 0 <= i < |items| ==> Named(items[i])
  {
    if items == [] then [] else HashesOf(items[..|items| - 1]) + [TargetHash(items[|items| - 1])]
  }

  lemma MoreOf<T>(all: seq<T>, a: seq<T>, b: seq<T>, x: T)
    requires multiset(a) + multiset(b) == multiset(all)
    ensures multiset(a + [x]) + multiset(b) == multiset(all + [x])
    ensures multiset(a) + multiset(b + [x]) == multiset(all + [x])
  {
  }

  /** Splitting a batch loses nothing: each item is in exactly one of the two lists. */
  lemma {:induction false} SplitKeepsAll(items: seq<Args>, dedup: bool, known: seq<Option<bool>>)
    requires |known| == |items| && Answered(items, dedup, known)
    ensures multiset(Selected(items, dedup, known, false)) + multiset(Selected(items, dedup, known, true))
            == multiset(HashesOf(items))
    decreases |items|
  {
    if items == [] {
    } else {
      var n := |items| - 1;
      SplitKeepsAll(items[..n], dedup, known[..n]);
      var newItems, duplicates :=
        Selected(items[..n], dedup, known[..n], false), Selected(items[..n], dedup, known[..n], true);
      MoreOf(HashesOf(items[..n]), newItems, duplicates, TargetHash(items[n]));
      assert newItems + [] == newItems && duplicates + [] == duplicates;
    }
  }

  /** An item is a duplicate exactly if duplicates are looked for and the registry knows it. */
  lemma {:induction false} SelectedExactly(items: seq<Args>, dedup: bool, known: seq<Option<bool>>, duplicates: bool,
                                           hash: string)
    requires |known| == |items| && Answered(items, dedup, known)
    ensures hash in Selected(items, dedup, known, duplicates)
      <==> exists i :: 0 <= i < |items| && TargetHash(items[i]) == hash
                       && (duplicates <==> dedup && known[i] == Some(true))
    decreases |items|
  {
    if items == [] {
    } else {
      var n := |items| - 1;
      SelectedExactly(items[..n], dedup, known[..n], duplicates, hash);
      if i :| 0 <= i < |items| && TargetHash(items[i]) == hash && (duplicates <==> dedup && known[i] == Some(true)) {
        if i < n {
          assert items[..n][i] == items[i] && known[..n][i] == known[i];
        }
      }
      if i :| 0 <= i < n && TargetHash(items[..n][i]) == hash && (duplicates <==> dedup && known[..n][i] == Some(true)) {
        assert items[..n][i] == items[i] && known[..n][i] == known[i];
      }
    }
  }

  lemma Slices<T>(s: seq<T>, k: nat, n: nat)
    requires k <= n <= |s|
    ensures s[..n][..k] == s[..k] && s[k..][..n - k] == s[..n][k..]
  {
  }

  lemma SelectedLast(items: seq<Args>, dedup: bool, known: seq<Option<bool>>, duplicates: bool)
    requires |known| == |items| && Answered(items, dedup, known) && items != []
    ensures var n := |items| - 1;
      Answered(items[..n], dedup, known[..n]) &&
      Selected(items, dedup, known, duplicates)
      == Selected(items[..n], dedup, known[..n], duplicates)
         + if (dedup && known[n].value) == duplicates then [TargetHash(items[n])] else []
  {
  }

  /** The two lists keep the order of the batch. */
  lemma {:induction false} SelectedInOrder(items: seq<Args>, dedup: bool, known: seq<Option<bool>>, duplicates: bool,
                                           k: nat)
    requires |known| == |items| && Answered(items, dedup, known) && k <= |items|
    ensures Selected(items, dedup, known, duplicates)
            == Selected(items[..k], dedup, known[..k], duplicates) + Selected(items[k..], dedup, known[k..], duplicates)
    decreases |items|
  {
    var n := |items| - 1;
    if k == |items| {
      assert items[..k] == items && known[..k] == known;
    } else {
      SelectedInOrder(items[..n], dedup, known[..n], duplicates, k);
      Slices(items, k, n);
      Slices(known, k, n);
      SelectedLast(items, dedup, known, duplicates);
      SelectedLast(items[k..], dedup, known[k..], duplicates);
    }
  }

  // ---------------------------------------------------------------- accounting

  lemma TotalOne(logs: seq<Spending>, r: Spending)
    ensures Total(logs + [r]) == Total(logs) + Cost(r)
  {
    assert (logs + [r])[..|logs|] == logs;
  }

  lemma ChargeLast(logs: seq<Spending>, charges: seq<Spending>, charge: Spending)
    ensures Total(logs + (charges + [charge])) == Total(logs + charges) + Cost(charge)
  {
    assert logs + (charges + [charge]) == (logs + charges) + [charge];
    TotalOne(logs + charges, charge);
  }

  /** The log grows by the cost of one item for each success. */
  lemma {:induction false} TotalOfCharges(logs: seq<Spending>, replies: seq<Reply>, fee: nat, gas: nat)
    ensures Total(logs + Charges(replies, fee, gas)) - Total(logs) == Successes(replies) * (fee + gas)
    decreases |replies|
  {
    if replies == [] {
      assert logs + Charges(replies, fee, gas) == logs;
    } else {
      var n := |replies| - 1;
      TotalOfCharges(logs, replies[..n], fee, gas);
      if replies[n].recordId.Some? {
        var charge := Spending(replies[n].recordId.value, "0x_rxm_sdk_batch", fee, gas, replies[n].time);
        ChargeLast(logs, Charges(replies[..n], fee, gas), charge);
        OneMore(Successes(replies[..n]), fee + gas);
      } else {
        assert Charges(replies, fee, gas) == Charges(replies[..n], fee, gas);
      }
    }
  }

  lemma OneMore(n: nat, cost: nat)
    ensures (n + 1) * cost == n * cost + cost
  {
  }

  // ---------------------------------------------------------------- what the items table shows

  /** The last position of a hash in the batch. */
  function LastOf(hashes: seq<string>, hash: string): (i: Option<nat>)
    ensures i.Some? ==> i.value < |hashes| && hashes[i.value] == hash
    ensures i.Some? ==> forall j :: i.value < j < |hashes| ==> hashes[j] != hash
    ensures i.None? ==> hash !in hashes
  {
    if hashes == [] then None
    else if hashes[|hashes| - 1] == hash then Some(|hashes| - 1)
    else LastOf(hashes[..|hashes| - 1], hash)
  }

  /** The item says whether the content was recorded, and as which record. */
  predicate Tells(x: BatchItem, reply: Reply) {
    if reply.recordId.Some? then x.status.ItemSuccess? && x.recordId == reply.recordId
    else x.status.ItemFailed? && x.recordId.None?
  }

  /**
   * The table shows one item a hash, and for a hash to be recorded it is the one of its last attempt.
   * A hash given twice can therefore show as failed although it was recorded and charged: exactly
   * when its last attempt failed.
   */
  lemma {:induction false} TableShowsLastAttempt(duplicates: seq<string>, hashes: seq<string>, replies: seq<Reply>,
                                                 x: BatchItem)
    requires |hashes| == |replies|
    ensures OneEach(Entered(duplicates, hashes, replies))
    ensures x in Entered(duplicates, hashes, replies) && x.contentHash in hashes
      <==> LastOf(hashes, x.contentHash).Some? && Tells(x, replies[LastOf(hashes, x.contentHash).value])
    ensures x in Entered(duplicates, hashes, replies) && x.contentHash !in hashes
      <==> x.contentHash in duplicates && x.contentHash !in hashes && x == BatchItem(x.contentHash, None, ItemDuplicate)
    decreases |hashes|, |duplicates|
  {
    if hashes != [] {
      var n := |hashes| - 1;
      TableShowsLastAttempt(duplicates, hashes[..n], replies[..n], x);
      PutItemKeeps(Entered(duplicates, hashes[..n], replies[..n]), ItemFor(hashes[n], replies[n]), x);
      assert hashes == hashes[..n] + [hashes[n]];
    } else if duplicates != [] {
      var n := |duplicates| - 1;
      TableShowsLastAttempt(duplicates[..n], [], [], x);
      PutItemKeeps(Entered(duplicates[..n], [], []), BatchItem(duplicates[n], None, ItemDuplicate), x);
      assert duplicates == duplicates[..n] + [duplicates[n]];
    }
  }

  /** Every record charged for shows as a success, with its id. */
  ghost predicate ChargesShow(duplicates: seq<string>, hashes: seq<string>, replies: seq<Reply>)
    requires |hashes| == |replies|
  {
    forall i :: 0 <= i < |replies| && replies[i].recordId.Some?
      ==> BatchItem(hashes[i], replies[i].recordId, ItemSuccess) in Entered(duplicates, hashes, replies)
  }

  predicate Distinct(hashes: seq<string>) { forall i, j :: 0 <= i < j < |hashes| ==> hashes[i] != hashes[j] }

  /** A list of replies that records the content at `i` only. */
  function RecordedOnlyAt(i: nat, n: nat): seq<Reply> {
    seq(n, k => Reply(if k == i then Some("") else None, 0))
  }

  /**
   * Exactly when the items table can be trusted, which is known before anything is paid: whatever the
   * registry replies, every record charged for shows as a success, if and only if no hash occurs twice
   * among the new items.
   */
  lemma ChargesShowExactlyIfDistinct(duplicates: seq<string>, hashes: seq<string>)
    ensures (forall replies :: |replies| == |hashes| ==> ChargesShow(duplicates, hashes, replies)) <==> Distinct(hashes)
  {
    if Distinct(hashes) {
      forall replies: seq<Reply> | |replies| == |hashes| ensures ChargesShow(duplicates, hashes, replies) {
        forall i | 0 <= i < |replies| && replies[i].recordId.Some?
          ensures BatchItem(hashes[i], replies[i].recordId, ItemSuccess) in Entered(duplicates, hashes, replies)
        {
          assert LastOf(hashes, hashes[i]) == Some(i);
          TableShowsLastAttempt(duplicates, hashes, replies, BatchItem(hashes[i], replies[i].recordId, ItemSuccess));
        }
      }
    } else {
      var i, j :| 0 <= i < j < |hashes| && hashes[i] == hashes[j];
      var replies := RecordedOnlyAt(i, |hashes|);
      var last := LastOf(hashes, hashes[i]).value;
      assert last != i && replies[last].recordId.None?;
      TableShowsLastAttempt(duplicates, hashes, replies, BatchItem(hashes[i], replies[i].recordId, ItemSuccess));
      assert !ChargesShow(duplicates, hashes, replies);
    }
  }

  /** How many items show as recorded. */
  function Shown(items: seq<BatchItem>): nat {
    if items == [] then 0 else Shown(items[1..]) + if items[0].status.ItemSuccess? then 1 else 0
  }

  lemma {:induction false} ShownAfter(items: seq<BatchItem>, item: BatchItem)
    requires forall i :: 0 <= i < |items| && items[i].contentHash == item.contentHash ==> !items[i].status.ItemSuccess?
    ensures Shown(PutItem(items, item)) == Shown(items) + if item.status.ItemSuccess? then 1 else 0
  {
    if items == [] {
      assert [item][1..] == [];
    } else if items[0].contentHash == item.contentHash {
      assert ([item] + items[1..])[1..] == items[1..];
    } else {
      ShownAfter(items[1..], item);
      assert ([items[0]] + PutItem(items[1..], item))[1..] == PutItem(items[1..], item);
    }
  }

  /** When no hash occurs twice among the new items, as many items show as recorded as were charged for. */
  lemma {:induction false} ShownAreCharged(duplicates: seq<string>, hashes: seq<string>, replies: seq<Reply>)
    requires |hashes| == |replies| && Distinct(hashes)
    ensures Shown(Entered(duplicates, hashes, replies)) == Successes(replies)
    decreases |hashes|, |duplicates|
  {
    if hashes != [] {
      var n := |hashes| - 1;
      var before := Entered(duplicates, hashes[..n], replies[..n]);
      ShownAreCharged(duplicates, hashes[..n], replies[..n]);
      forall i | 0 <= i < |before| && before[i].contentHash == hashes[n] ensures !before[i].status.ItemSuccess? {
        TableShowsLastAttempt(duplicates, hashes[..n], replies[..n], before[i]);
      }
      ShownAfter(before, ItemFor(hashes[n], replies[n]));
    } else if duplicates != [] {
      var n := |duplicates| - 1;
      var before := Entered(duplicates[..n], [], []);
      ShownAreCharged(duplicates[..n], [], []);
      forall i | 0 <= i < |before| ensures !before[i].status.ItemSuccess? {
        TableShowsLastAttempt(duplicates[..n], [], [], before[i]);
      }
      ShownAfter(before, BatchItem(duplicates[n], None, ItemDuplicate));
    }
  }

  /** Such a batch: one hash twice, recorded and charged the first time, shown as failed. */
  lemma ChargedButShownFailed(hash: string, recordId: string, fee: nat, gas: nat)
    ensures var replies := [Reply(Some(recordId), 0), Reply(None, 1)];
      && Entered([], [hash, hash], replies) == [BatchItem(hash, None, ItemFailed)]
      && Successes(replies) == 1 && Total(Charges(replies, fee, gas)) == fee + gas
  {
    var replies := [Reply(Some(recordId), 0), Reply(None, 1)];
    var one := [Reply(Some(recordId), 0)];
    assert replies[..1] == one && one[..0] == [] && [hash, hash][..1] == [hash] && [hash][..0] == [];
    assert Successes(one) == 1 && Successes(replies) == 1;
    TotalOfCharges([], replies, fee, gas);
    assert Total([]) == 0 && [] + Charges(replies, fee, gas) == Charges(replies, fee, gas);
    assert Entered([], [hash], one) == PutItem([], ItemFor(hash, one[0]));
  }
}
