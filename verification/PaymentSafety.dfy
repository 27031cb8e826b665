/** What racing payments and records guarantee, and what a failed payment costs. */
module PaymentSafety {
  import opened Outcomes
  import opened Payments

  // ---------------------------------------------------------------- one payment, one record

  /** A record is stored only against an attempt that is settled at that moment. */
  lemma RecordNeedsSettledAttempt(s: State, e: Event)
    requires Sound(s) && Enabled(s, e) && Next(s, e).records != s.records
    ensures e.Step? && |Next(s, e).records| == |s.records| + 1
    ensures var r := Next(s, e).records[|s.records|];
      r.paymentAttemptId < |s.attempts| && s.attempts[r.paymentAttemptId].status.Settled?
      && forall q :: 0 <= q < |s.records| ==> s.records[q].paymentAttemptId != r.paymentAttemptId
  {
    assert RequestTrue(s, s.requests[e.i]) && Unspent(s, s.requests[e.i]);
  }

  /**
   * However requests race, every record has an attempt of its own, settled for the amount the record
   * states, and two records with the same payment identifier, content, text of the fee transaction, or
   * wallet and nonce are one record. Identifiers are compared as text, which is not yet to say that
   * they name different money; see `PaymentFunds`.
   */
  lemma OnePaymentOneRecord(es: seq<Event>, t: State, q: RecordId, r: RecordId)
    requires Run(INITIAL, es, t) && q < |t.records| && r < |t.records|
    ensures t.records[q].paymentAttemptId < |t.attempts| && t.records[r].paymentAttemptId < |t.attempts|
    ensures t.attempts[t.records[q].paymentAttemptId].amount == Some(t.records[q].feeAmount)
    ensures var a, b := t.attempts[t.records[q].paymentAttemptId], t.attempts[t.records[r].paymentAttemptId];
      || a.paymentIdentifier == b.paymentIdentifier
      || t.records[q].contentHash == t.records[r].contentHash
      || (t.records[q].feeTxHash.Some? && t.records[q].feeTxHash == t.records[r].feeTxHash)
      || (t.records[q].agentWallet == t.records[r].agentWallet && t.records[q].nonce == t.records[r].nonce)
      ==> q == r
  {
    RunSound(INITIAL, es, t);
    assert RecordTrue(t, t.records[q]) && RecordTrue(t, t.records[r]);
    if q < r {
      assert Apart(t.records[q], t.records[r]);
    } else if r < q {
      assert Apart(t.records[r], t.records[q]);
    }
  }

  /** Request `i` paid for record `r`. */
  predicate PaysFor(t: State, i: nat, r: RecordId) {
    && i < |t.requests| && r < |t.records|
    && t.requests[i].mine == Some(t.records[r].paymentAttemptId)
  }

  ghost predicate HasPayer(s: State, r: RecordId) { exists i: nat :: PaysFor(s, i, r) }

  lemma StepHasPayers(s: State, e: Event, r: RecordId)
    requires Sound(s) && Enabled(s, e) && r < |Next(s, e).records|
    requires forall q: RecordId :: q < |s.records| ==> HasPayer(s, q)
    ensures HasPayer(Next(s, e), r)
  {
    var t := Next(s, e);
    StepExtends(s, e);
    if r < |s.records| {
      assert HasPayer(s, r);
      var i: nat :| PaysFor(s, i, r);
      assert RequestTrue(s, s.requests[i]) && t.records[r] == s.records[r];
      assert PaysFor(t, i, r);
    } else {
      assert PaysFor(t, e.i, r);
    }
  }

  lemma {:induction false} RunHasPayers(s: State, es: seq<Event>, t: State)
    requires Sound(s) && Run(s, es, t) && forall q: RecordId :: q < |s.records| ==> HasPayer(s, q)
    ensures forall q: RecordId :: q < |t.records| ==> HasPayer(t, q)
    decreases |es|
  {
    if es == [] {
    } else {
      StepSound(s, es[0]);
      forall r: RecordId | r < |Next(s, es[0]).records| ensures HasPayer(Next(s, es[0]), r) {
        StepHasPayers(s, es[0], r);
      }
      RunHasPayers(Next(s, es[0]), es[1..], t);
    }
  }

  /** Exactly one request paid for each record. */
  lemma EveryRecordHasOnePayer(es: seq<Event>, t: State, r: RecordId)
    requires Run(INITIAL, es, t) && r < |t.records|
    ensures exists i: nat :: PaysFor(t, i, r) && forall j: nat :: PaysFor(t, j, r) ==> j == i
  {
    RunHasPayers(INITIAL, es, t);
    RunSound(INITIAL, es, t);
    assert HasPayer(t, r);
    var i: nat :| PaysFor(t, i, r);
    assert forall j: nat :: PaysFor(t, j, r) ==> j == i;
  }

  // ---------------------------------------------------------------- what a failed payment costs

  /** The attempt paid for nothing and no request works on it any more. */
  ghost predicate Spent(s: State, a: AttemptId) {
    && a < |s.attempts|
    && (forall r :: 0 <= r < |s.records| ==> s.records[r].paymentAttemptId != a)
    && (forall i :: 0 <= i < |s.requests| && s.requests[i].mine == Some(a) ==> !Unfinished(s.requests[i]))
  }

  lemma StepSpent(s: State, e: Event, a: AttemptId)
    requires Sound(s) && Enabled(s, e) && Spent(s, a)
    ensures Spent(Next(s, e), a)
  {
    var t := Next(s, e);
    if e.Step? {
      assert s.requests[e.i].mine != Some(a);
    }
  }

  /**
   * An attempt that ended without a record, whatever made it fail, uses its identifier up: no record
   * will ever be paid under it.
   */
  lemma {:induction false} FailedPaymentIsUsedUp(s: State, es: seq<Event>, t: State, a: AttemptId)
    requires Sound(s) && Run(s, es, t) && Spent(s, a)
    ensures a < |t.attempts| && t.attempts[a].paymentIdentifier == s.attempts[a].paymentIdentifier
    ensures forall r :: 0 <= r < |t.records| ==>
      t.records[r].paymentAttemptId < |t.attempts|
      && t.attempts[t.records[r].paymentAttemptId].paymentIdentifier != s.attempts[a].paymentIdentifier
    decreases |es|
  {
    if es == [] {
      forall r | 0 <= r < |t.records|
        ensures t.records[r].paymentAttemptId < |t.attempts|
                && t.attempts[t.records[r].paymentAttemptId].paymentIdentifier != s.attempts[a].paymentIdentifier
      {
        assert RecordTrue(t, t.records[r]);
      }
    } else {
      StepSound(s, es[0]);
      StepSpent(s, es[0], a);
      StepExtends(s, es[0]);
      FailedPaymentIsUsedUp(Next(s, es[0]), es[1..], t, a);
    }
  }
}
