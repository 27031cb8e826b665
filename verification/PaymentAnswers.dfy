/** What the answers to paid requests say about the tables, however requests race. */
module PaymentAnswers {
  import opened Outcomes
  import opened Payments
  import PaymentTrails

  /** The record of this order, paid by the attempt of its request. */
  predicate OwnRecord(s: State, q: Request, id: RecordId) {
    && q.mine.Some? && id < |s.records| && s.records[id].paymentAttemptId == q.mine.value
    && PaymentTrails.IsFor(s.records[id], q.order)
  }

  /** The record has this content, and was paid for under this identifier. */
  predicate PaidUnder(s: State, id: RecordId, contentHash: string, payment: Option<string>) {
    && id < |s.records| && s.records[id].contentHash == contentHash
    && s.records[id].paymentAttemptId < |s.attempts|
    && Some(s.attempts[s.records[id].paymentAttemptId].paymentIdentifier) == payment
  }

  /** A record has this content, and was paid for under another identifier or by a request that sent none. */
  ghost predicate TakenByAnother(s: State, o: Order) {
    exists id: RecordId ::
      id < |s.records| && HasContent(s.records[id], o.contentHash)
      && s.records[id].paymentAttemptId < |s.attempts| && !PaidUnder(s, id, o.contentHash, o.header)
  }

  /** What each answer says; a request answered before its payment holds no attempt. */
  ghost predicate OutcomeTrue(s: State, q: Request, outcome: Outcome) {
    match outcome
    case Created(id) => OwnRecord(s, q, id)
    case Cached(id) => q.mine.None? && PaidUnder(s, id, q.order.contentHash, q.order.header)
    case DuplicateContentHash => q.mine.None? && TakenByAnother(s, q.order)
    case DuplicateNonce => q.mine.None? && NonceTaken(s, q.order.agentWallet, q.order.nonce)
    case FeeTxReused => q.mine.None? && (FeeTaken(s, FeeOf(q.order)) || IdentifierTaken(s, IdentifierOf(q.order)))
    case PaymentRequired => q.mine.None? && q.order.kind.Unpaid?
    case NotSettled => q.mine.Some? ==> !PaymentTrails.HasRecord(s, q.mine.value)
    case NotCreated => q.mine.Some?
  }

  ghost predicate AnswerTrue(s: State, q: Request) {
    && (q.pc.Done? ==> OutcomeTrue(s, q, q.pc.outcome))
    && (q.pc.Linking? ==> OwnRecord(s, q, q.pc.id))
    && (q.pc.Failing? ==> q.mine.Some? && !PaymentTrails.HasRecord(s, q.mine.value))
    && (q.pc.Verifying? || q.pc.Settling? ==> q.mine.Some? && !PaymentTrails.HasRecord(s, q.mine.value))
  }

  /** What was found stays there, and no other request stores a record under this attempt. */
  lemma OthersStayTrue(s: State, t: State, q: Request)
    requires Extends(s, t) && AnswerTrue(s, q)
    requires forall r :: |s.records| <= r < |t.records| ==> Some(t.records[r].paymentAttemptId) != q.mine
    ensures AnswerTrue(t, q)
  {
    PaymentTrails.SameStored(s, t, q);
    TakenStays(s, t, q.order);
    if q.pc.Linking? {
      assert q.pc.id < |s.records| ==> t.records[q.pc.id] == s.records[q.pc.id];
    } else if q.pc.Done? && (q.pc.outcome.Created? || q.pc.outcome.Cached?) {
      assert q.pc.outcome.id < |s.records| ==> t.records[q.pc.outcome.id] == s.records[q.pc.outcome.id];
    }
  }

  lemma TakenStays(s: State, t: State, o: Order)
    requires Extends(s, t)
    ensures TakenByAnother(s, o) ==> TakenByAnother(t, o)
    ensures NonceTaken(s, o.agentWallet, o.nonce) ==> NonceTaken(t, o.agentWallet, o.nonce)
    ensures FeeTaken(s, FeeOf(o)) ==> FeeTaken(t, FeeOf(o))
    ensures IdentifierTaken(s, IdentifierOf(o)) ==> IdentifierTaken(t, IdentifierOf(o))
  {
    if TakenByAnother(s, o) {
      var r: RecordId :| r < |s.records| && HasContent(s.records[r], o.contentHash)
                         && s.records[r].paymentAttemptId < |s.attempts| && !PaidUnder(s, r, o.contentHash, o.header);
      assert t.records[r] == s.records[r] && HasContent(t.records[r], o.contentHash);
    }
    if NonceTaken(s, o.agentWallet, o.nonce) {
      var r :| 0 <= r < |s.records| && HasNonce(s.records[r], o.agentWallet, o.nonce);
      assert t.records[r] == s.records[r] && HasNonce(t.records[r], o.agentWallet, o.nonce);
    }
    if FeeTaken(s, FeeOf(o)) {
      var r :| 0 <= r < |s.records| && HasFee(s.records[r], FeeOf(o));
      assert t.records[r] == s.records[r] && HasFee(t.records[r], FeeOf(o));
    }
    if IdentifierTaken(s, IdentifierOf(o)) {
      var a :| 0 <= a < |s.attempts| && HasIdentifier(s.attempts[a], IdentifierOf(o));
      assert HasIdentifier(t.attempts[a], IdentifierOf(o));
    }
  }

  /** The acting request before its payment: its lookups, and the insert of its attempt. */
  lemma EarlyStaysTrue(s: State, i: nat, reply: Reply)
    requires Sound(s) && Enabled(s, Step(i, reply)) && BeforePayment(s.requests[i])
    ensures AnswerTrue(Next(s, Step(i, reply)), RequestAfter(s, s.requests[i], reply))
  {
    var q, t := s.requests[i], Next(s, Step(i, reply));
    assert RequestTrue(s, q);
    StepExtends(s, Step(i, reply));
    TakenStays(s, t, q.order);
    if q.pc.PreChecking? {
      PreCheckTells(s, q.order);
    } else if q.pc.Inserting? {
      NothingUnder(s, |s.attempts|);
      PaymentTrails.SameStored(s, t, q.(mine := Some(|s.attempts|)));
    }
  }

  lemma PreCheckTells(s: State, o: Order)
    requires Sound(s)
    ensures PreCheck(s, o) == Some(DuplicateContentHash) ==> TakenByAnother(s, o)
    ensures PreCheck(s, o).Some? && PreCheck(s, o) != Some(DuplicateContentHash) ==>
      PreCheck(s, o).value.Cached? && PaidUnder(s, PreCheck(s, o).value.id, o.contentHash, o.header)
  {
    var found := FindContent(s.records, o.contentHash);
    if found.Some? {
      assert HasContent(s.records[found.value], o.contentHash) && RecordTrue(s, s.records[found.value]);
    }
  }

  /** No record is paid for by an attempt that does not exist yet. */
  lemma NothingUnder(s: State, a: AttemptId)
    requires Sound(s) && a >= |s.attempts|
    ensures !PaymentTrails.HasRecord(s, a)
  {
    forall r | 0 <= r < |s.records| ensures !PaymentTrails.PaidWith(s.records[r], a) {
      assert RecordTrue(s, s.records[r]);
    }
  }

  /** The acting request once it has its attempt. */
  lemma LateStaysTrue(s: State, i: nat, reply: Reply)
    requires Sound(s) && Enabled(s, Step(i, reply)) && !BeforePayment(s.requests[i]) && AnswerTrue(s, s.requests[i])
    ensures AnswerTrue(Next(s, Step(i, reply)), RequestAfter(s, s.requests[i], reply))
  {
    var q, t := s.requests[i], Next(s, Step(i, reply));
    assert RequestTrue(s, q);
    StepExtends(s, Step(i, reply));
    if !q.pc.Creating? {
      PaymentTrails.SameStored(s, t, q);
    }
  }

  lemma StepAnswersTrue(s: State, e: Event, j: nat)
    requires Sound(s) && Enabled(s, e) && j < |Next(s, e).requests|
    requires forall i :: 0 <= i < |s.requests| ==> AnswerTrue(s, s.requests[i])
    ensures AnswerTrue(Next(s, e), Next(s, e).requests[j])
  {
    var t := Next(s, e);
    if j < |s.requests| {
      assert AnswerTrue(s, s.requests[j]);
      if e.Step? && e.i == j {
        if BeforePayment(s.requests[j]) {
          EarlyStaysTrue(s, j, e.reply);
        } else {
          LateStaysTrue(s, j, e.reply);
        }
      } else if !(e.Die? && e.i == j) {
        StepExtends(s, e);
        if e.Step? {
          assert RequestTrue(s, s.requests[e.i]);
        }
        OthersStayTrue(s, t, s.requests[j]);
      }
    }
  }

  lemma {:induction false} RunAnswersTrue(s: State, es: seq<Event>, t: State)
    requires Sound(s) && Run(s, es, t) && forall i :: 0 <= i < |s.requests| ==> AnswerTrue(s, s.requests[i])
    ensures forall i :: 0 <= i < |t.requests| ==> AnswerTrue(t, t.requests[i])
    decreases |es|
  {
    if es == [] {
    } else {
      StepSound(s, es[0]);
      forall j | 0 <= j < |Next(s, es[0]).requests| ensures AnswerTrue(Next(s, es[0]), Next(s, es[0]).requests[j]) {
        StepAnswersTrue(s, es[0], j);
      }
      RunAnswersTrue(Next(s, es[0]), es[1..], t);
    }
  }

  /**
   * In every run each answer is true and stays true: a duplicate, a reused payment and a cached record
   * are answered only when that record or attempt is there, the cached one paid for under the header
   * sent along; a created record is the one ordered, paid for by this request; and a payment reported
   * as not settled has no record.
   */
  lemma AnswersAreTrue(es: seq<Event>, t: State, i: nat)
    requires Run(INITIAL, es, t) && i < |t.requests| && t.requests[i].pc.Done?
    ensures OutcomeTrue(t, t.requests[i], t.requests[i].pc.outcome)
  {
    RunAnswersTrue(INITIAL, es, t);
  }
}
