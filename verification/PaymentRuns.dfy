/** Runs in which a settled payment and its record part ways. */
module PaymentRuns {
  import opened Outcomes
  import opened Payments

  lemma {:induction false} RunThen(s: State, es: seq<Event>, t: State, e: Event)
    requires Run(s, es, t) && Enabled(t, e)
    ensures Run(s, es + [e], Next(t, e))
    decreases |es|
  {
    if es == [] {
      assert [e][1..] == [] && es + [e] == [e];
    } else {
      RunThen(Next(s, es[0]), es[1..], t, e);
      assert (es + [e])[1..] == es[1..] + [e];
    }
  }

  /** Nothing stored stands in the way of the order, and it can pay. */
  ghost predicate Free(s: State, o: Order) {
    && !ContentTaken(s, o.contentHash) && !NonceTaken(s, o.agentWallet, o.nonce) && !FeeTaken(s, FeeOf(o))
    && !IdentifierTaken(s, IdentifierOf(o)) && Payable(o)
  }

  /** The last request, at a given place; the attempts as given; no records added. */
  predicate At(s: State, t: State, o: Order, mine: Option<AttemptId>, pc: Pc, attempts: seq<Attempt>) {
    t == State(attempts, s.records, s.requests + [Request(o, mine, pc)])
  }

  lemma Lookups(s: State, t: State, o: Order)
    requires Free(s, o) && At(s, t, o, None, PreChecking, s.attempts)
    ensures PcAfter(t, t.requests[|s.requests|], Fine(0)) == CheckingNonce
  {
    assert !ContentTaken(t, o.contentHash);
    assert forall r: nat :: r < |t.records| ==> !HasContent(t.records[r], o.contentHash);
  }

  /** A request with nothing in its way comes as far as the insert of its attempt. */
  lemma ReachesPayment(s: State, es: seq<Event>, t: State, o: Order) returns (fs: seq<Event>, u: State)
    requires Run(s, es, t) && Free(t, o)
    ensures Run(s, fs, u) && At(t, u, o, None, Inserting, t.attempts)
  {
    var i := |t.requests|;
    RunThen(s, es, t, Arrive(o));
    fs, u := es + [Arrive(o)], Next(t, Arrive(o));
    Lookups(t, u, o);
    RunThen(s, fs, u, Step(i, Fine(0)));
    fs, u := fs + [Step(i, Fine(0))], Next(u, Step(i, Fine(0)));
    assert At(t, u, o, None, CheckingNonce, t.attempts);
    assert !NonceTaken(u, o.agentWallet, o.nonce);
    RunThen(s, fs, u, Step(i, Fine(0)));
    fs, u := fs + [Step(i, Fine(0))], Next(u, Step(i, Fine(0)));
    assert At(t, u, o, None, CheckingFee, t.attempts);
    assert !FeeTaken(u, FeeOf(o));
    RunThen(s, fs, u, Step(i, Fine(0)));
    fs, u := fs + [Step(i, Fine(0))], Next(u, Step(i, Fine(0)));
  }

  function Paid(o: Order, amount: nat): Attempt { NewAttempt(o).(status := Settled, amount := Some(amount)) }

  /** It pays, and is about to store its record. */
  lemma Pays(s: State, es: seq<Event>, t: State, o: Order, amount: nat) returns (fs: seq<Event>, u: State)
    requires Run(s, es, t) && Free(t, o)
    ensures Run(s, fs, u) && At(t, u, o, Some(|t.attempts|), Creating, t.attempts + [Paid(o, amount)])
  {
    var i := |t.requests|;
    fs, u := ReachesPayment(s, es, t, o);
    assert !IdentifierTaken(u, IdentifierOf(o));
    RunThen(s, fs, u, Step(i, Fine(0)));
    fs, u := fs + [Step(i, Fine(0))], Next(u, Step(i, Fine(0)));
    assert At(t, u, o, Some(|t.attempts|), Verifying, t.attempts + [NewAttempt(o)]);
    RunThen(s, fs, u, Step(i, Fine(amount)));
    fs, u := fs + [Step(i, Fine(amount))], Next(u, Step(i, Fine(amount)));
    assert At(t, u, o, Some(|t.attempts|), Settling, t.attempts + [NewAttempt(o)]);
    RunThen(s, fs, u, Step(i, Fine(amount)));
    fs, u := fs + [Step(i, Fine(amount))], Next(u, Step(i, Fine(amount)));
  }

  /** It stores its record, when the constraints let it in. */
  lemma Creates(s: State, es: seq<Event>, t: State, i: nat) returns (fs: seq<Event>, u: State)
    requires Run(s, es, t) && i < |t.requests| && t.requests[i].pc.Creating? && Payments.Holds(t, t.requests[i])
    requires var q := t.requests[i]; Fits(t, NewRecord(q.order, q.mine.value, t.attempts[q.mine.value]))
    ensures Run(s, fs, u)
    ensures var q := t.requests[i];
      u == State(t.attempts, t.records + [NewRecord(q.order, q.mine.value, t.attempts[q.mine.value])],
                 t.requests[i := q.(pc := Linking(|t.records|))])
  {
    var e := Step(i, Fine(0));
    RunThen(s, es, t, e);
    fs, u := es + [e], Next(t, e);
    assert t.attempts[t.requests[i].mine.value := t.attempts[t.requests[i].mine.value]] == t.attempts;
  }

  /** It is refused, when they do not. */
  lemma IsRefused(s: State, es: seq<Event>, t: State, i: nat) returns (fs: seq<Event>, u: State)
    requires Run(s, es, t) && i < |t.requests| && t.requests[i].pc.Creating? && Payments.Holds(t, t.requests[i])
    requires var q := t.requests[i]; !Fits(t, NewRecord(q.order, q.mine.value, t.attempts[q.mine.value]))
    ensures Run(s, fs, u)
    ensures u == t.(requests := t.requests[i := t.requests[i].(pc := Thrown(t.requests[i]))])
  {
    var e := Step(i, Fine(0));
    RunThen(s, es, t, e);
    fs, u := es + [e], Next(t, e);
    assert t.attempts[t.requests[i].mine.value := t.attempts[t.requests[i].mine.value]] == t.attempts;
  }

  /**
   * A record that was stored and paid for, whose request is answered with an error and whose payment
   * is marked failed: for every single request, when linking the record to its payment throws.
   */
  lemma StoredRecordReportedFailed(o: Order, amount: nat)
    requires !o.batch && Payable(o) && FitsColumns(o.nonce, o.contentType)
    ensures exists es, t :: Run(INITIAL, es, t) && |t.records| == 1 && |t.attempts| == 1 && |t.requests| == 1
                            && t.records[0].paymentAttemptId == 0 && t.records[0].feeAmount == amount
                            && t.attempts[0].status.PaymentFailed? && t.requests[0].pc == Done(NotCreated)
  {
    var es, t := Pays(INITIAL, [], INITIAL, o, amount);
    es, t := Creates(INITIAL, es, t, 0);
    RunThen(INITIAL, es, t, Step(0, Throws));
    es, t := es + [Step(0, Throws)], Next(t, Step(0, Throws));
    assert t.requests == [Request(o, Some(0), Unwinding)];
    RunThen(INITIAL, es, t, Step(0, Fine(0)));
    es, t := es + [Step(0, Fine(0))], Next(t, Step(0, Fine(0)));
    assert t.requests == [Request(o, Some(0), Done(NotCreated))];
  }

  /**
   * A payment settled for nothing: two requests for one content that race past the checks both pay,
   * and only the first stores a record. The payment of the other is used up; when it was a batch item
   * its attempt even stays settled.
   */
  lemma RacerPaysForNothing(o: Order, late: Order, amount: nat)
    requires o.contentHash == late.contentHash && IdentifierOf(o) != IdentifierOf(late)
    requires Payable(o) && Payable(late) && FitsColumns(o.nonce, o.contentType)
    ensures exists es, t :: Run(INITIAL, es, t) && |t.attempts| == 2 && |t.records| == 1 && |t.requests| == 2
                            && t.records[0].paymentAttemptId == 0 && t.attempts[1] == Paid(late, amount)
                            && t.requests[1].pc == if late.batch then Done(NotCreated) else Unwinding
  {
    var es, t := Pays(INITIAL, [], INITIAL, o, amount);
    assert !IdentifierTaken(t, IdentifierOf(late));
    es, t := Pays(INITIAL, es, t, late, amount);
    es, t := Creates(INITIAL, es, t, 0);
    assert HasContent(t.records[0], late.contentHash);
    es, t := IsRefused(INITIAL, es, t, 1);
  }
}
