/** One paid request from start to end, as the handlers run it, on a database nobody else touches meanwhile. */
module PaymentService {
  import opened Outcomes
  import opened Payments
  import PaymentRuns

  /** How each await of a request ends. */
  datatype Replies = Replies(
    preCheck: Reply, nonceCheck: Reply, feeCheck: Reply, insert: Reply, verify: Reply, settle: Reply, fail: Reply,
    create: Reply, link: Reply, unwind: Reply)

  /** One more step of a run with a single request. */
  lemma Advance(s: State, es: seq<Event>, t: State, q: Request, reply: Reply) returns (fs: seq<Event>, u: State)
    requires Run(s, es, t) && t.requests == [q] && Unfinished(q)
    ensures Run(s, fs, u) && u == State(AttemptsAfter(t, q, reply), RecordsAfter(t, q, reply), [RequestAfter(t, q, reply)])
  {
    PaymentRuns.RunThen(s, es, t, Step(0, reply));
    fs, u := es + [Step(0, reply)], Next(t, Step(0, reply));
  }

  /** The attempt is settled, for the amount that came with the reply. */
  predicate PaidFor(attempt: Attempt, reply: Reply) {
    reply.Fine? && attempt.status.Settled? && attempt.amount == Some(reply.amount)
  }

  class Database {
    var attempts: seq<Attempt>
    var records: seq<Record>

    /** The tables, with one request at a place. */
    ghost function With(q: Request): State
      reads this
    {
      State(attempts, records, [q])
    }

    method SelectByContent(contentHash: string) returns (found: Option<RecordId>)
      ensures found == FindContent(records, contentHash)
    {
      for r := 0 to |records|
        invariant FindContent(records[..r], contentHash) == None
      {
        if HasContent(records[r], contentHash) {
          FirstIsFound(records, contentHash, r);
          return Some(r);
        }
        assert records[..r + 1][..r] == records[..r];
      }
      assert records[..|records|] == records;
      return None;
    }

    method FindNonce(wallet: string, nonce: string) returns (found: bool)
      ensures found <==> NonceTaken(State(attempts, records, []), wallet, nonce)
    {
      for r := 0 to |records|
        invariant forall j :: 0 <= j < r ==> !HasNonce(records[j], wallet, nonce)
      {
        if HasNonce(records[r], wallet, nonce) { return true; }
      }
      return false;
    }

    method FindFee(fee: Option<string>) returns (found: bool)
      ensures found <==> FeeTaken(State(attempts, records, []), fee)
    {
      for r := 0 to |records|
        invariant forall j :: 0 <= j < r ==> !HasFee(records[j], fee)
      {
        if HasFee(records[r], fee) { return true; }
      }
      return false;
    }

    /** Insert a pending attempt, unless its payment identifier is taken or too long for its column. */
    method InsertAttempt(o: Order) returns (a: Option<AttemptId>)
      modifies this`attempts
      ensures a.None? <==> !IdentifierFits(o) || IdentifierTaken(State(old(attempts), records, []), IdentifierOf(o))
      ensures attempts == if a.Some? then old(attempts) + [NewAttempt(o)] else old(attempts)
      ensures a.Some? ==> a.value == |old(attempts)|
    {
      if !IdentifierFits(o) { return None; }
      for b := 0 to |attempts|
        invariant attempts == old(attempts)
        invariant forall j :: 0 <= j < b ==> !HasIdentifier(attempts[j], IdentifierOf(o))
      {
        if HasIdentifier(attempts[b], IdentifierOf(o)) { return None; }
      }
      attempts := attempts + [NewAttempt(o)];
      return Some(|attempts| - 1);
    }

    /** Insert a record, unless a column is too short for it or a unique constraint forbids it. */
    method InsertRecord(r: Record) returns (id: Option<RecordId>)
      modifies this`records
      ensures id.Some? <==> Fits(State(attempts, old(records), []), r)
      ensures records == if id.Some? then old(records) + [r] else old(records)
      ensures id.Some? ==> id.value == |old(records)|
    {
      var content := SelectByContent(r.contentHash);
      var nonce := FindNonce(r.agentWallet, r.nonce);
      var fee := FindFee(r.feeTxHash);
      if !FitsColumns(r.nonce, r.contentType) || content.Some? || nonce || fee { return None; }
      records := records + [r];
      return Some(|records| - 1);
    }

    method MarkSettled(a: AttemptId, amount: nat)
      requires a < |attempts|
      modifies this`attempts
      ensures attempts == old(attempts)[a := old(attempts)[a].(status := Settled, amount := Some(amount))]
    {
      attempts := attempts[a := attempts[a].(status := Settled, amount := Some(amount))];
    }

    method MarkFailed(a: AttemptId)
      requires a < |attempts|
      modifies this`attempts
      ensures attempts == old(attempts)[a := old(attempts)[a].(status := PaymentFailed)]
    {
      attempts := attempts[a := attempts[a].(status := PaymentFailed)];
    }

    method LinkRecord(a: AttemptId, id: RecordId)
      requires a < |attempts|
      modifies this`attempts
      ensures attempts == old(attempts)[a := old(attempts)[a].(recordId := Some(id))]
    {
      attempts := attempts[a := attempts[a].(recordId := Some(id))];
    }

    // -------------------------------------------------------------- the stages of a request

    /** The checks before payment; they only read. */
    method CheckFirst(o: Order, replies: Replies) returns (stop: Option<Outcome>, ghost es: seq<Event>)
      ensures Run(State(attempts, records, []), es,
                  With(Request(o, None, if stop.Some? then Done(stop.value) else Inserting)))
    {
      ghost var s := State(attempts, records, []);
      PaymentRuns.RunThen(s, [], s, Arrive(o));
      es := [] + [Arrive(o)];
      ghost var q := Request(o, None, PreChecking);
      ghost var t := With(q);

      var found := SelectByContent(o.contentHash);
      es, t := Advance(s, es, t, q, replies.preCheck);
      if !replies.preCheck.Fine? { return Some(NotSettled), es; }
      if found.Some? {
        var r := records[found.value];
        var cached := o.header.Some? && r.paymentAttemptId < |attempts|
                      && attempts[r.paymentAttemptId].paymentIdentifier == o.header.value;
        return Some(if cached then Cached(found.value) else DuplicateContentHash), es;
      }
      if o.kind.Unpaid? && !o.batch { return Some(PaymentRequired), es; }

      q := q.(pc := CheckingNonce);
      var nonce := FindNonce(o.agentWallet, o.nonce);
      assert nonce == NonceTaken(With(q), o.agentWallet, o.nonce);
      es, t := Advance(s, es, With(q), q, replies.nonceCheck);
      if !replies.nonceCheck.Fine? { return Some(NotSettled), es; }
      if nonce { return Some(DuplicateNonce), es; }

      q := q.(pc := CheckingFee);
      var fee := FindFee(FeeOf(o));
      assert fee == FeeTaken(With(q), FeeOf(o));
      es, t := Advance(s, es, With(q), q, replies.feeCheck);
      if !replies.feeCheck.Fine? { return Some(NotSettled), es; }
      if fee { return Some(FeeTxReused), es; }
      if o.kind.Unpaid? { return Some(PaymentRequired), es; }
      return None, es;
    }

    /** `verifyAndSettle`: an attempt for the payment, settled or marked failed; `a` is settled when `paid`. */
    method VerifyAndSettle(o: Order, replies: Replies, ghost s: State, ghost before: seq<Event>)
      returns (a: Option<AttemptId>, paid: bool, stop: Outcome, ghost es: seq<Event>)
      requires Run(s, before, With(Request(o, None, Inserting)))
      modifies this`attempts
      ensures a.Some? ==> a.value < |attempts|
      ensures paid ==> a.Some? && PaidFor(attempts[a.value], replies.settle)
      ensures !paid && a.Some? && replies.insert.Fine? && !replies.fail.Throws? ==> attempts[a.value].status.PaymentFailed?
      ensures Run(s, es, With(Request(o, a, if paid then Creating else Done(stop))))
    {
      a, paid, stop := None, false, NotSettled;
      ghost var q, t := Request(o, None, Inserting), With(Request(o, None, Inserting));
      es, t := Advance(s, before, t, q, replies.insert);
      if replies.insert.Throws? { return; }
      a := InsertAttempt(o);
      if !replies.insert.Fine? { return; }
      if a.None? { return a, false, if IdentifierFits(o) then FeeTxReused else NotSettled, es; }
      paid, es := Settle(o, a.value, replies, s, es);
    }

    method Settle(o: Order, a: AttemptId, replies: Replies, ghost s: State, ghost before: seq<Event>)
      returns (paid: bool, ghost es: seq<Event>)
      requires a < |attempts| && Run(s, before, With(Request(o, Some(a), Verifying)))
      modifies this`attempts
      ensures |attempts| == |old(attempts)|
      ensures paid ==> PaidFor(attempts[a], replies.settle)
      ensures !paid && !replies.fail.Throws? ==> attempts[a].status.PaymentFailed?
      ensures Run(s, es, With(Request(o, Some(a), if paid then Creating else Done(NotSettled))))
    {
      ghost var q, t := Request(o, Some(a), Verifying), With(Request(o, Some(a), Verifying));
      es, t := Advance(s, before, t, q, replies.verify);
      assert t.attempts == attempts;
      if replies.verify.Fine? {
        q := q.(pc := Settling);
        es, t := Advance(s, es, With(q), q, replies.settle);
        if !replies.settle.Throws? { MarkSettled(a, replies.settle.amount); }
        assert t.attempts == attempts;
        if replies.settle.Fine? { return true, es; }
      }
      q := q.(pc := Failing);
      es, t := Advance(s, es, With(q), q, replies.fail);
      if !replies.fail.Throws? { MarkFailed(a); }
      assert t.attempts == attempts;
      return false, es;
    }

    /** `createRecord`, then `linkRecord`; a single request marks its attempt failed when either throws. */
    method CreateAndLink(o: Order, a: AttemptId, replies: Replies, ghost s: State, ghost before: seq<Event>)
      returns (r: Outcome, ghost es: seq<Event>)
      requires a < |attempts| && Run(s, before, With(Request(o, Some(a), Creating)))
      modifies this
      ensures Run(s, es, With(Request(o, Some(a), Done(r))))
    {
      var id;
      id, es := CreateRecord(o, a, replies.create, s, before);
      if id.Some? {
        var linked;
        linked, es := Link(o, a, id.value, replies.link, s, es);
        if linked { return Created(id.value), es; }
      }
      if o.batch { return NotCreated, es; }
      es := Unwind(o, a, replies.unwind, s, es);
      return NotCreated, es;
    }

    /** The record, when its insert succeeds and its reply arrives. */
    method CreateRecord(o: Order, a: AttemptId, reply: Reply, ghost s: State, ghost before: seq<Event>)
      returns (id: Option<RecordId>, ghost es: seq<Event>)
      requires a < |attempts| && Run(s, before, With(Request(o, Some(a), Creating)))
      modifies this`records
      ensures Run(s, es, With(Request(o, Some(a),
        if id.Some? then Linking(id.value) else Thrown(Request(o, Some(a), Creating)))))
    {
      ghost var t;
      es, t := Advance(s, before, With(Request(o, Some(a), Creating)), Request(o, Some(a), Creating), reply);
      id := None;
      if !reply.Throws? {
        var attempt := attempts[a];
        id := InsertRecord(Record(o.contentHash, o.agentWallet, o.nonce, o.contentType, attempt.txHash,
                                  if attempt.amount.Some? then attempt.amount.value else 0, a));
      }
      assert t.attempts == attempts && t.records == records;
      return if reply.Fine? then id else None, es;
    }

    method Link(o: Order, a: AttemptId, id: RecordId, reply: Reply, ghost s: State, ghost before: seq<Event>)
      returns (linked: bool, ghost es: seq<Event>)
      requires a < |attempts| && Run(s, before, With(Request(o, Some(a), Linking(id))))
      modifies this`attempts
      ensures |attempts| == |old(attempts)|
      ensures Run(s, es, With(Request(o, Some(a),
        if linked then Done(Created(id)) else Thrown(Request(o, Some(a), Linking(id))))))
    {
      ghost var t;
      es, t := Advance(s, before, With(Request(o, Some(a), Linking(id))), Request(o, Some(a), Linking(id)), reply);
      if !reply.Throws? { LinkRecord(a, id); }
      assert t.attempts == attempts && t.records == records;
      return reply.Fine?, es;
    }

    method Unwind(o: Order, a: AttemptId, reply: Reply, ghost s: State, ghost before: seq<Event>)
      returns (ghost es: seq<Event>)
      requires a < |attempts| && Run(s, before, With(Request(o, Some(a), Unwinding)))
      modifies this`attempts
      ensures Run(s, es, With(Request(o, Some(a), Done(NotCreated))))
    {
      ghost var t;
      es, t := Advance(s, before, With(Request(o, Some(a), Unwinding)), Request(o, Some(a), Unwinding), reply);
      if !reply.Throws? { MarkFailed(a); }
      assert t.attempts == attempts && t.records == records;
    }

    /**
     * A request from start to end. Whatever it does to the tables and answers is a run of the protocol,
     * so everything proved of all runs holds of it.
     */
    method PostRecord(o: Order, replies: Replies) returns (r: Outcome, ghost a: Option<AttemptId>, ghost es: seq<Event>)
      modifies this
      ensures Run(State(old(attempts), old(records), []), es, With(Request(o, a, Done(r))))
    {
      ghost var s := State(attempts, records, []);
      var stop, first := CheckFirst(o, replies);
      if stop.Some? { return stop.value, None, first; }
      var mine, paid, refusal, second := VerifyAndSettle(o, replies, s, first);
      if !paid { return refusal, mine, second; }
      var outcome, third := CreateAndLink(o, mine.value, replies, s, second);
      return outcome, mine, third;
    }
  }

  lemma {:induction false} FirstIsFound(records: seq<Record>, contentHash: string, r: RecordId)
    requires r < |records| && HasContent(records[r], contentHash) && FindContent(records[..r], contentHash) == None
    ensures FindContent(records, contentHash) == Some(r)
    decreases |records|
  {
    var n := |records| - 1;
    if r < n {
      assert records[..n][..r] == records[..r];
      FirstIsFound(records[..n], contentHash, r);
    }
  }
}
