/**
 * What money pays for a record. Attempts are unique by a text: the fee transaction hash as the caller
 * spelled it, or a header that nothing ties to the signed payment. One transaction can be spelled in
 * many ways, since hexadecimal digits are accepted in either case and the chain does not mind.
 */
module PaymentFunds {
  import opened Outcomes
  import opened Payments
  import opened PaymentSafety
  import opened PaymentRuns

  /** How a request pays, as far as the caller chooses it. */
  datatype Payment = Payment(kind: Method, evidence: string, header: Option<string>)

  function PaymentOf(o: Order): Payment { Payment(o.kind, o.evidence, o.header) }

  function LowerHex(c: char): char {
    match c
    case 'A' => 'a' case 'B' => 'b' case 'C' => 'c' case 'D' => 'd' case 'E' => 'e' case 'F' => 'f'
    case _ => c
  }

  /** The transaction that a spelling of its hash names. */
  function TxOf(text: string): string { seq(|text|, i requires 0 <= i < |text| => LowerHex(text[i])) }

  /** The money itself: a transaction on the chain, or a signed payment. */
  datatype Funds = Transaction(hash: string) | Signature(text: string)

  function FundsOf(p: Payment): Funds {
    if p.kind.LegacyEth? then Transaction(TxOf(p.evidence)) else Signature(p.evidence)
  }

  /** What the attempt of a payment is unique by. */
  function IdentifierFor(p: Payment): string { IdentifierOf(Order(false, "", "", "", None, p.kind, p.evidence, p.header)) }

  predicate CanPay(p: Payment) { !p.kind.Unpaid? && |IdentifierFor(p)| <= 255 }

  // ---------------------------------------------------------------- one record for each payment of money

  predicate SameFunds(o: Order, p: Order) { FundsOf(PaymentOf(o)) == FundsOf(PaymentOf(p)) }

  ghost predicate FundsPayOnce(t: State) {
    forall i: nat, j: nat, q: RecordId, r: RecordId ::
      PaysFor(t, i, q) && PaysFor(t, j, r) && SameFunds(t.requests[i].order, t.requests[j].order) ==> q == r
  }

  /** A run in which all requests pay in ways that are accepted. */
  ghost predicate AcceptedRun(accepted: Payment -> bool, es: seq<Event>, t: State) {
    Run(INITIAL, es, t) && forall i :: 0 <= i < |t.requests| ==> accepted(PaymentOf(t.requests[i].order))
  }

  /** Accepted payments of the same money are accepted under one identifier, as far as it fits its column. */
  ghost predicate CanonicalIdentifiers(accepted: Payment -> bool) {
    forall p, q :: accepted(p) && accepted(q) && CanPay(p) && CanPay(q) && FundsOf(p) == FundsOf(q)
      ==> IdentifierFor(p) == IdentifierFor(q)
  }

  lemma SameIdentifierSameRecord(es: seq<Event>, t: State, i: nat, j: nat, q: RecordId, r: RecordId)
    requires Run(INITIAL, es, t) && PaysFor(t, i, q) && PaysFor(t, j, r)
    requires IdentifierOf(t.requests[i].order) == IdentifierOf(t.requests[j].order)
    ensures q == r
  {
    RunSound(INITIAL, es, t);
    assert RequestTrue(t, t.requests[i]) && RequestTrue(t, t.requests[j]);
    OnePaymentOneRecord(es, t, q, r);
  }

  /** With different identifiers nothing keeps two requests from both paying and storing a record. */
  lemma BothPay(o: Order, p: Order) returns (es: seq<Event>, t: State)
    requires Payable(o) && Payable(p) && IdentifierOf(o) != IdentifierOf(p)
    requires FitsColumns(o.nonce, o.contentType) && FitsColumns(p.nonce, p.contentType)
    requires o.contentHash != p.contentHash && (o.agentWallet != p.agentWallet || o.nonce != p.nonce)
    ensures Run(INITIAL, es, t) && |t.requests| == 2 && t.requests[0].order == o && t.requests[1].order == p
    ensures PaysFor(t, 0, 0) && PaysFor(t, 1, 1)
  {
    es, t := Pays(INITIAL, [], INITIAL, o, 0);
    es, t := Creates(INITIAL, es, t, 0);
    assert Free(t, p);
    var u := t;
    es, t := Pays(INITIAL, es, t, p, 0);
    assert t.requests == u.requests + [Request(p, Some(1), Creating)];
    assert Fits(t, NewRecord(p, 1, t.attempts[1]));
    es, t := Creates(INITIAL, es, t, 1);
  }

  /** An order for its own content that pays in this way. */
  function Paying(p: Payment, contentHash: string): Order {
    Order(false, contentHash, "", contentHash, None, p.kind, p.evidence, p.header)
  }

  lemma NotCanonicalPaysTwice(accepted: Payment -> bool, p: Payment, q: Payment) returns (es: seq<Event>, t: State)
    requires accepted(p) && accepted(q) && CanPay(p) && CanPay(q)
    requires FundsOf(p) == FundsOf(q) && IdentifierFor(p) != IdentifierFor(q)
    ensures AcceptedRun(accepted, es, t) && PaysFor(t, 0, 0) && PaysFor(t, 1, 1)
            && SameFunds(t.requests[0].order, t.requests[1].order)
  {
    assert "0" != "1";
    es, t := BothPay(Paying(p, "0"), Paying(q, "1"));
  }

  /**
   * Exactly when money pays for one record at most: under a rule for which payments are accepted, no
   * run stores two records for one transaction or one signature if and only if the rule accepts the
   * same money under one identifier only.
   */
  lemma MoneyPaysOnceExactlyIfIdentifiersAreCanonical(accepted: Payment -> bool)
    ensures (forall es, t :: AcceptedRun(accepted, es, t) ==> FundsPayOnce(t)) <==> CanonicalIdentifiers(accepted)
  {
    if CanonicalIdentifiers(accepted) {
      forall es, t | AcceptedRun(accepted, es, t) ensures FundsPayOnce(t) {
        CanonicalPaysOnce(accepted, es, t);
      }
    } else {
      var p, q :| accepted(p) && accepted(q) && CanPay(p) && CanPay(q) && FundsOf(p) == FundsOf(q)
                  && IdentifierFor(p) != IdentifierFor(q);
      var es, t := NotCanonicalPaysTwice(accepted, p, q);
      assert !FundsPayOnce(t);
    }
  }

  lemma SameMoneySameRecord(accepted: Payment -> bool, es: seq<Event>, t: State, i: nat, j: nat, q: RecordId, r: RecordId)
    requires CanonicalIdentifiers(accepted) && AcceptedRun(accepted, es, t)
    requires PaysFor(t, i, q) && PaysFor(t, j, r) && SameFunds(t.requests[i].order, t.requests[j].order)
    ensures q == r
  {
    RunSound(INITIAL, es, t);
    assert RequestTrue(t, t.requests[i]) && RequestTrue(t, t.requests[j]);
    assert accepted(PaymentOf(t.requests[i].order)) && accepted(PaymentOf(t.requests[j].order));
    SameIdentifierSameRecord(es, t, i, j, q, r);
  }

  lemma CanonicalPaysOnce(accepted: Payment -> bool, es: seq<Event>, t: State)
    requires CanonicalIdentifiers(accepted) && AcceptedRun(accepted, es, t)
    ensures FundsPayOnce(t)
  {
    forall i: nat, j: nat, q: RecordId, r: RecordId |
      PaysFor(t, i, q) && PaysFor(t, j, r) && SameFunds(t.requests[i].order, t.requests[j].order)
      ensures q == r
    {
      SameMoneySameRecord(accepted, es, t, i, j, q, r);
    }
  }

  // ---------------------------------------------------------------- the rule of the service

  predicate IsHexDigit(c: char) { '0' <= c <= '9' || 'a' <= c <= 'f' || 'A' <= c <= 'F' }

  /** A transaction hash as the schema accepts it. */
  predicate IsTxHashText(s: string) { |s| == 66 && s[..2] == "0x" && forall i :: 2 <= i < 66 ==> IsHexDigit(s[i]) }

  /** What the service accepts: any spelling of a fee transaction, any signature under any header. */
  predicate AcceptedByService(p: Payment) { p.kind.LegacyEth? ==> IsTxHashText(p.evidence) }

  /** The same, with the spelling of transactions fixed to lowercase and without x402. */
  predicate AcceptedInLowercase(p: Payment) {
    p.kind.LegacyEth? && IsTxHashText(p.evidence) && TxOf(p.evidence) == p.evidence
  }

  /** Lowercasing the hash of the fee transaction would make each transaction pay for one record at most. */
  lemma LowercaseTransactionsPayOnce(es: seq<Event>, t: State)
    requires AcceptedRun(AcceptedInLowercase, es, t)
    ensures FundsPayOnce(t)
  {
    CanonicalPaysOnce(AcceptedInLowercase, es, t);
  }

  /** As it is, every transaction whose hash has a letter digit can pay for two records. */
  lemma SpelledTwicePaysTwice(text: string, k: nat) returns (es: seq<Event>, t: State)
    requires IsTxHashText(text) && 2 <= k < 66 && TxOf(text) == text && 'a' <= text[k] <= 'f'
    ensures AcceptedRun(AcceptedByService, es, t) && PaysFor(t, 0, 0) && PaysFor(t, 1, 1)
    ensures t.requests[0].order.kind.LegacyEth? && t.requests[1].order.kind.LegacyEth?
    ensures TxOf(t.requests[0].order.evidence) == text && TxOf(t.requests[1].order.evidence) == text
  {
    var upper := (text[k] as int - 32) as char;
    var other := text[k := upper];
    assert LowerHex(upper) == text[k];
    assert forall i :: 0 <= i < 66 && i != k ==> LowerHex(other[i]) == TxOf(text)[i];
    assert TxOf(other) == text;
    assert other[..2] == text[..2];
    var p, q := Payment(LegacyEth, text, None), Payment(LegacyEth, other, None);
    assert FundsOf(p) == FundsOf(q) && IdentifierFor(p) != IdentifierFor(q);
    es, t := BothPay(Paying(p, "0"), Paying(q, "1"));
  }

  /** Nor is a signature tied to its header: sent under two of them, it can pay for two records. */
  lemma SignedOncePaysTwice(signature: string, first: string, second: string) returns (es: seq<Event>, t: State)
    requires first != second && |first| <= 255 && |second| <= 255
    ensures AcceptedRun(AcceptedByService, es, t) && PaysFor(t, 0, 0) && PaysFor(t, 1, 1)
    ensures t.requests[0].order.kind.X402? && t.requests[0].order.evidence == signature
    ensures t.requests[1].order.kind.X402? && t.requests[1].order.evidence == signature
  {
    var p, q := Payment(X402, signature, Some(first)), Payment(X402, signature, Some(second));
    assert IdentifierFor(p) != IdentifierFor(q);
    es, t := BothPay(Paying(p, "0"), Paying(q, "1"));
  }

  // ---------------------------------------------------------------- whose identifier it is

  /** No record was paid for under this identifier. */
  predicate NothingStoredUnder(t: State, payment: string) {
    forall r :: 0 <= r < |t.records| ==>
      t.records[r].paymentAttemptId < |t.attempts|
      && t.attempts[t.records[r].paymentAttemptId].paymentIdentifier != payment
  }

  /**
   * An identifier belongs to the request that enters it first, whoever's money it names: if the payment
   * of that request does not verify, no continuation stores a record under the identifier.
   */
  lemma FirstUseTakesIdentifier(es: seq<Event>, t: State, o: Order) returns (fs: seq<Event>, u: State)
    requires Run(INITIAL, es, t) && Free(t, o)
    ensures Run(INITIAL, fs, u) && u.records == t.records
    ensures u.attempts == t.attempts + [NewAttempt(o).(status := PaymentStatus.PaymentFailed)]
    ensures forall gs, v :: Run(u, gs, v) ==> NothingStoredUnder(v, IdentifierOf(o))
  {
    fs, u := Misses(es, t, o);
    RunSound(INITIAL, es, t);
    RunSound(INITIAL, fs, u);
    forall r | 0 <= r < |u.records| ensures u.records[r].paymentAttemptId != |t.attempts| {
      assert RecordTrue(t, t.records[r]);
    }
    forall i | 0 <= i < |t.requests| ensures t.requests[i].mine != Some(|t.attempts|) {
      assert RequestTrue(t, t.requests[i]);
    }
    assert Spent(u, |t.attempts|);
    forall gs, v | Run(u, gs, v) ensures NothingStoredUnder(v, IdentifierOf(o)) {
      FailedPaymentIsUsedUp(u, gs, v, |t.attempts|);
    }
  }

  /** The attempt is entered, its verification throws, and it is marked failed. */
  lemma Misses(es: seq<Event>, t: State, o: Order) returns (fs: seq<Event>, u: State)
    requires Run(INITIAL, es, t) && Free(t, o)
    ensures Run(INITIAL, fs, u)
    ensures u == State(t.attempts + [NewAttempt(o).(status := PaymentStatus.PaymentFailed)], t.records,
                       t.requests + [Request(o, Some(|t.attempts|), Done(NotSettled))])
  {
    var i := |t.requests|;
    fs, u := ReachesPayment(INITIAL, es, t, o);
    assert !IdentifierTaken(u, IdentifierOf(o));
    RunThen(INITIAL, fs, u, Step(i, Fine(0)));
    fs, u := fs + [Step(i, Fine(0))], Next(u, Step(i, Fine(0)));
    assert At(t, u, o, Some(|t.attempts|), Verifying, t.attempts + [NewAttempt(o)]);
    RunThen(INITIAL, fs, u, Step(i, Throws));
    fs, u := fs + [Step(i, Throws)], Next(u, Step(i, Throws));
    assert At(t, u, o, Some(|t.attempts|), Failing, t.attempts + [NewAttempt(o)]);
    RunThen(INITIAL, fs, u, Step(i, Fine(0)));
    fs, u := fs + [Step(i, Fine(0))], Next(u, Step(i, Fine(0)));
  }
}
