/**
 * Paid records, version 1: requests that each settle a payment and then store a record, interleaved
 * at every await, with a database that enforces the unique constraints of the two tables.
 */
module Payments {
  import opened Outcomes

  datatype Method = X402 | LegacyEth | Unpaid
  datatype PaymentStatus = PaymentPending | Settled | PaymentFailed

  type AttemptId = nat
  type RecordId = nat

  /** `amount` is set when the payment settles; nothing clears it. */
  datatype Attempt = Attempt(
    paymentIdentifier: string, kind: Method, status: PaymentStatus, contentHash: string, txHash: Option<string>,
    amount: Option<nat>, recordId: Option<RecordId>)

  datatype Record = Record(
    contentHash: string, agentWallet: string, nonce: string, contentType: Option<string>, feeTxHash: Option<string>,
    feeAmount: nat, paymentAttemptId: AttemptId)

  /**
   * A request, or one item of a batch: what it records and how it pays. The evidence is the text of the
   * fee transaction hash, or the signed x402 payment; the header is the payment identifier sent along.
   */
  datatype Order = Order(
    batch: bool, contentHash: string, agentWallet: string, nonce: string, contentType: Option<string>, kind: Method,
    evidence: string, header: Option<string>)

  datatype Outcome =
    | Created(id: RecordId) | Cached(id: RecordId) | DuplicateContentHash | DuplicateNonce | FeeTxReused
    | PaymentRequired | NotSettled | NotCreated

  datatype Pc =
    | PreChecking | CheckingNonce | CheckingFee
    | Inserting                 // the attempt
    | Verifying | Settling      // the payment, then its row
    | Failing                   // marking the attempt failed, after verification
    | Creating                  // the record
    | Linking(id: RecordId)
    | Unwinding                 // marking the attempt failed, after settlement
    | Done(outcome: Outcome)
    | Died

  datatype Request = Request(order: Order, mine: Option<AttemptId>, pc: Pc)

  datatype State = State(attempts: seq<Attempt>, records: seq<Record>, requests: seq<Request>)

  const INITIAL := State([], [], [])

  /** How an await ends: well, with an exception and no effect, or with an exception after its effect. */
  datatype Reply = Fine(amount: nat) | Throws | Lost(amount: nat)

  datatype Event = Arrive(order: Order) | Step(i: nat, reply: Reply) | Die(i: nat)

  predicate Unfinished(q: Request) { !q.pc.Done? && !q.pc.Died? }

  predicate Enabled(s: State, e: Event) {
    match e
    case Arrive(_) => true
    case Step(i, _) => i < |s.requests| && Unfinished(s.requests[i])
    case Die(i) => i < |s.requests| && Unfinished(s.requests[i])
  }

  // ---------------------------------------------------------------- queries

  predicate HasContent(r: Record, contentHash: string) { r.contentHash == contentHash }

  predicate HasNonce(r: Record, wallet: string, nonce: string) { r.agentWallet == wallet && r.nonce == nonce }

  predicate HasFee(r: Record, fee: Option<string>) { fee.Some? && r.feeTxHash == fee }

  predicate HasIdentifier(a: Attempt, payment: string) { a.paymentIdentifier == payment }

  ghost predicate ContentTaken(s: State, contentHash: string) {
    exists r :: 0 <= r < |s.records| && HasContent(s.records[r], contentHash)
  }

  ghost predicate NonceTaken(s: State, wallet: string, nonce: string) {
    exists r :: 0 <= r < |s.records| && HasNonce(s.records[r], wallet, nonce)
  }

  ghost predicate FeeTaken(s: State, fee: Option<string>) {
    exists r :: 0 <= r < |s.records| && HasFee(s.records[r], fee)
  }

  ghost predicate IdentifierTaken(s: State, payment: string) {
    exists a :: 0 <= a < |s.attempts| && HasIdentifier(s.attempts[a], payment)
  }

  function FeeOf(o: Order): Option<string> { if o.kind.LegacyEth? then Some(o.evidence) else None }

  /** What an attempt is unique by: the text of the transaction hash, or the header, whatever was signed. */
  function IdentifierOf(o: Order): string {
    if o.kind.LegacyEth? then o.evidence else if o.header.Some? then o.header.value else "unknown"
  }

  /** The column of the identifier takes 255 characters. */
  predicate IdentifierFits(o: Order) { |IdentifierOf(o)| <= 255 }

  predicate Payable(o: Order) { !o.kind.Unpaid? && IdentifierFits(o) }

  function NewAttempt(o: Order): Attempt {
    Attempt(IdentifierOf(o), o.kind, PaymentPending, o.contentHash, FeeOf(o), None, None)
  }

  /** The record of a request, paid by the attempt it holds. */
  function NewRecord(o: Order, a: AttemptId, attempt: Attempt): Record {
    Record(o.contentHash, o.agentWallet, o.nonce, o.contentType, attempt.txHash,
           if attempt.amount.Some? then attempt.amount.value else 0, a)
  }

  /** The columns take 64 characters, though requests may send up to 128 and 127. */
  predicate FitsColumns(nonce: string, contentType: Option<string>) {
    |nonce| <= 64 && (contentType.Some? ==> |contentType.value| <= 64)
  }

  /** The columns and the unique constraints of the records table let the record in. */
  ghost predicate Fits(s: State, r: Record) {
    && FitsColumns(r.nonce, r.contentType)
    && !ContentTaken(s, r.contentHash) && !NonceTaken(s, r.agentWallet, r.nonce) && !FeeTaken(s, r.feeTxHash)
  }

  // ---------------------------------------------------------------- the steps

  /** The record of some content; there is one at most. */
  function FindContent(records: seq<Record>, contentHash: string): (r: Option<RecordId>)
    ensures r.Some? ==> r.value < |records| && HasContent(records[r.value], contentHash)
    ensures r.None? ==> forall q :: 0 <= q < |records| ==> !HasContent(records[q], contentHash)
  {
    if records == [] then None
    else
      var n := |records| - 1;
      var before := FindContent(records[..n], contentHash);
      if before.Some? then before else if HasContent(records[n], contentHash) then Some(n) else None
  }

  /** The request repeats the one that paid for the record. */
  predicate PaidBy(s: State, r: Record, header: Option<string>) {
    && header.Some? && r.paymentAttemptId < |s.attempts|
    && s.attempts[r.paymentAttemptId].paymentIdentifier == header.value
  }

  /** What a request finds out about its content before it pays. */
  function PreCheck(s: State, o: Order): Option<Outcome> {
    match FindContent(s.records, o.contentHash)
    case Some(r) => Some(if PaidBy(s, s.records[r], o.header) then Cached(r) else DuplicateContentHash)
    case None => None
  }

  predicate Holds(s: State, q: Request) { q.mine.Some? && q.mine.value < |s.attempts| }

  /** After an exception once settled, a single request marks its attempt failed; a batch item does not. */
  function Thrown(q: Request): Pc { if q.order.batch then Done(NotCreated) else Unwinding }

  ghost function PcAfter(s: State, q: Request, reply: Reply): Pc {
    match q.pc
    case PreChecking =>
      if !reply.Fine? then Done(NotSettled)
      else if PreCheck(s, q.order).Some? then Done(PreCheck(s, q.order).value)
      else if q.order.kind.Unpaid? && !q.order.batch then Done(PaymentRequired) else CheckingNonce
    case CheckingNonce =>
      if !reply.Fine? then Done(NotSettled)
      else if NonceTaken(s, q.order.agentWallet, q.order.nonce) then Done(DuplicateNonce) else CheckingFee
    case CheckingFee =>
      if !reply.Fine? then Done(NotSettled)
      else if FeeTaken(s, FeeOf(q.order)) then Done(FeeTxReused)
      else if q.order.kind.Unpaid? then Done(PaymentRequired) else Inserting
    case Inserting =>
      if !reply.Fine? || !IdentifierFits(q.order) then Done(NotSettled)
      else if IdentifierTaken(s, IdentifierOf(q.order)) then Done(FeeTxReused) else Verifying
    case Verifying => if reply.Fine? then Settling else Failing
    case Settling => if reply.Fine? then Creating else Failing
    case Failing => Done(NotSettled)
    case Creating =>
      if Holds(s, q) && Fits(s, NewRecord(q.order, q.mine.value, s.attempts[q.mine.value])) && reply.Fine? then
        Linking(|s.records|)
      else Thrown(q)
    case Linking(id) => if reply.Fine? then Done(Created(id)) else Thrown(q)
    case Unwinding => Done(NotCreated)
    case Done(_) => q.pc
    case Died => q.pc
  }

  /** The row of the attempt a request holds, after its step takes effect. */
  function AttemptAfter(a: Attempt, pc: Pc, reply: Reply): Attempt {
    match pc
    case Settling => if reply.Throws? then a else a.(status := Settled, amount := Some(reply.amount))
    case Failing => if reply.Throws? then a else a.(status := PaymentFailed)
    case Linking(id) => if reply.Throws? then a else a.(recordId := Some(id))
    case Unwinding => if reply.Throws? then a else a.(status := PaymentFailed)
    case _ => a
  }

  ghost predicate InsertsAttempt(s: State, q: Request, reply: Reply) {
    && q.pc.Inserting? && !reply.Throws?
    && IdentifierFits(q.order) && !IdentifierTaken(s, IdentifierOf(q.order))
  }

  ghost predicate InsertsRecord(s: State, q: Request, reply: Reply) {
    && q.pc.Creating? && !reply.Throws? && Holds(s, q)
    && Fits(s, NewRecord(q.order, q.mine.value, s.attempts[q.mine.value]))
  }

  ghost function AttemptsAfter(s: State, q: Request, reply: Reply): seq<Attempt> {
    if InsertsAttempt(s, q, reply) then s.attempts + [NewAttempt(q.order)]
    else if Holds(s, q) then s.attempts[q.mine.value := AttemptAfter(s.attempts[q.mine.value], q.pc, reply)]
    else s.attempts
  }

  ghost function RecordsAfter(s: State, q: Request, reply: Reply): seq<Record> {
    if InsertsRecord(s, q, reply) then s.records + [NewRecord(q.order, q.mine.value, s.attempts[q.mine.value])]
    else s.records
  }

  ghost function RequestAfter(s: State, q: Request, reply: Reply): Request {
    Request(q.order, if InsertsAttempt(s, q, reply) then Some(|s.attempts|) else q.mine, PcAfter(s, q, reply))
  }

  ghost function Next(s: State, e: Event): State
    requires Enabled(s, e)
  {
    match e
    case Arrive(order) => s.(requests := s.requests + [Request(order, None, PreChecking)])
    case Die(i) => s.(requests := s.requests[i := s.requests[i].(pc := Died)])
    case Step(i, reply) =>
      var q := s.requests[i];
      State(AttemptsAfter(s, q, reply), RecordsAfter(s, q, reply), s.requests[i := RequestAfter(s, q, reply)])
  }

  ghost predicate Run(s: State, es: seq<Event>, t: State)
    decreases |es|
  {
    if es == [] then s == t else Enabled(s, es[0]) && Run(Next(s, es[0]), es[1..], t)
  }

  // ---------------------------------------------------------------- what every state keeps

  /** Which attempt a request may still turn into a record. */
  predicate MayCreate(q: Request) { q.pc.Verifying? || q.pc.Settling? || q.pc.Creating? }

  predicate BeforePayment(q: Request) {
    q.pc.PreChecking? || q.pc.CheckingNonce? || q.pc.CheckingFee? || q.pc.Inserting?
  }

  /** A request that is past its attempt holds it; one about to create has it settled. */
  predicate RequestTrue(s: State, q: Request) {
    && (BeforePayment(q) ==> q.mine.None?)
    && (q.pc.Inserting? || q.mine.Some? ==> !q.order.kind.Unpaid?)
    && (Unfinished(q) && !BeforePayment(q) ==> Holds(s, q))
    && (q.mine.Some? ==> Holds(s, q) && s.attempts[q.mine.value].paymentIdentifier == IdentifierOf(q.order)
                         && s.attempts[q.mine.value].txHash == FeeOf(q.order) && IdentifierFits(q.order)
                         && s.attempts[q.mine.value].contentHash == q.order.contentHash
                         && s.attempts[q.mine.value].kind == q.order.kind)
    && (q.pc.Creating? ==> s.attempts[q.mine.value].status.Settled? && s.attempts[q.mine.value].amount.Some?)
    && (q.pc.Linking? ==> q.pc.id < |s.records| && s.records[q.pc.id].paymentAttemptId == q.mine.value)
    && (q.pc.Done? && q.pc.outcome.Created? ==>
        q.mine.Some? && q.pc.outcome.id < |s.records|
        && s.records[q.pc.outcome.id].paymentAttemptId == q.mine.value)
  }

  /** A record was paid for: its attempt once settled, for the amount the record states. */
  predicate RecordTrue(s: State, r: Record) {
    && r.paymentAttemptId < |s.attempts|
    && s.attempts[r.paymentAttemptId].amount == Some(r.feeAmount)
    && r.feeTxHash == s.attempts[r.paymentAttemptId].txHash
  }

  predicate AttemptTrue(s: State, a: AttemptId)
    requires a < |s.attempts|
  {
    && (s.attempts[a].status.Settled? ==> s.attempts[a].amount.Some?)
    && (s.attempts[a].recordId.Some? ==>
        s.attempts[a].recordId.value < |s.records| && s.records[s.attempts[a].recordId.value].paymentAttemptId == a)
  }

  predicate Apart(r: Record, q: Record) {
    && r.contentHash != q.contentHash && !(r.agentWallet == q.agentWallet && r.nonce == q.nonce)
    && (r.feeTxHash.Some? ==> r.feeTxHash != q.feeTxHash)
    && r.paymentAttemptId != q.paymentAttemptId
  }

  /** The constraints of both tables, and one attempt for each payment and each request. */
  ghost predicate Unique(s: State) {
    && (forall a, b :: 0 <= a < b < |s.attempts| ==> s.attempts[a].paymentIdentifier != s.attempts[b].paymentIdentifier)
    && (forall q, r :: 0 <= q < r < |s.records| ==> Apart(s.records[q], s.records[r]))
    && (forall i, j :: 0 <= i < j < |s.requests| && s.requests[i].mine.Some? ==> s.requests[i].mine != s.requests[j].mine)
  }

  /** No request that may still create a record holds an attempt that already paid for one. */
  predicate Unspent(s: State, q: Request) {
    MayCreate(q) ==> forall r :: 0 <= r < |s.records| ==> Some(s.records[r].paymentAttemptId) != q.mine
  }

  ghost predicate Sound(s: State) {
    && Unique(s)
    && (forall i :: 0 <= i < |s.requests| ==> RequestTrue(s, s.requests[i]) && Unspent(s, s.requests[i]))
    && (forall r :: 0 <= r < |s.records| ==> RecordTrue(s, s.records[r]))
    && (forall a :: 0 <= a < |s.attempts| ==> AttemptTrue(s, a))
  }

  /** Rows are only added; what an attempt was made for stays, and what it was paid once a record states it. */
  predicate Extends(s: State, t: State) {
    && |s.attempts| <= |t.attempts| && s.records <= t.records
    && (forall a :: 0 <= a < |s.attempts| ==>
          && t.attempts[a].paymentIdentifier == s.attempts[a].paymentIdentifier
          && t.attempts[a].txHash == s.attempts[a].txHash)
  }

  lemma StepExtends(s: State, e: Event)
    requires Enabled(s, e)
    ensures Extends(s, Next(s, e))
  {
  }

  /** Only the request that holds an attempt changes it. */
  predicate OnlyMineChanges(s: State, t: State, mine: Option<AttemptId>) {
    |s.attempts| <= |t.attempts| && forall a :: 0 <= a < |s.attempts| && mine != Some(a) ==> t.attempts[a] == s.attempts[a]
  }

  lemma StepTouches(s: State, i: nat, reply: Reply)
    requires Enabled(s, Step(i, reply))
    ensures OnlyMineChanges(s, Next(s, Step(i, reply)), s.requests[i].mine)
  {
  }

  lemma OthersStayTrue(s: State, t: State, q: Request)
    requires Extends(s, t) && RequestTrue(s, q)
    requires q.mine.Some? ==> t.attempts[q.mine.value] == s.attempts[q.mine.value]
    ensures RequestTrue(t, q)
  {
    if q.pc.Linking? {
      assert t.records[q.pc.id] == s.records[q.pc.id];
    } else if q.pc.Done? && q.pc.outcome.Created? {
      assert t.records[q.pc.outcome.id] == s.records[q.pc.outcome.id];
    }
  }

  lemma StepperStaysTrue(s: State, i: nat, reply: Reply)
    requires Enabled(s, Step(i, reply)) && RequestTrue(s, s.requests[i])
    ensures RequestTrue(Next(s, Step(i, reply)), RequestAfter(s, s.requests[i], reply))
  {
    var q, t := s.requests[i], Next(s, Step(i, reply));
    StepExtends(s, Step(i, reply));
    if q.pc.Linking? {
      assert t.records[q.pc.id] == s.records[q.pc.id];
    }
  }

  lemma RequestsStayTrue(s: State, e: Event, j: nat)
    requires Sound(s) && Enabled(s, e) && j < |Next(s, e).requests|
    ensures RequestTrue(Next(s, e), Next(s, e).requests[j])
  {
    var t := Next(s, e);
    if j < |s.requests| {
      assert RequestTrue(s, s.requests[j]);
      if e.Step? && e.i == j {
        StepperStaysTrue(s, e.i, e.reply);
      } else if !(e.Die? && e.i == j) {
        StepExtends(s, e);
        if e.Step? {
          StepTouches(s, e.i, e.reply);
        }
        OthersStayTrue(s, t, s.requests[j]);
      }
    }
  }

  /** The requests keep distinct attempts. */
  lemma MinesStayApart(s: State, e: Event)
    requires Sound(s) && Enabled(s, e)
    ensures var t := Next(s, e);
      forall i, j :: 0 <= i < j < |t.requests| && t.requests[i].mine.Some? ==> t.requests[i].mine != t.requests[j].mine
  {
    var t := Next(s, e);
    forall i, j | 0 <= i < j < |t.requests| && t.requests[i].mine.Some?
      ensures t.requests[i].mine != t.requests[j].mine
    {
      assert i < |s.requests| ==> RequestTrue(s, s.requests[i]);
      assert j < |s.requests| ==> RequestTrue(s, s.requests[j]);
    }
  }

  lemma AttemptsStayApart(s: State, e: Event)
    requires Sound(s) && Enabled(s, e)
    ensures var t := Next(s, e);
      forall a, b :: 0 <= a < b < |t.attempts| ==> t.attempts[a].paymentIdentifier != t.attempts[b].paymentIdentifier
  {
    var t := Next(s, e);
    StepExtends(s, e);
    forall a, b | 0 <= a < b < |t.attempts| ensures t.attempts[a].paymentIdentifier != t.attempts[b].paymentIdentifier {
      if b == |s.attempts| {
        assert !HasIdentifier(s.attempts[a], IdentifierOf(s.requests[e.i].order));
      }
    }
  }

  lemma NewRecordIsApart(s: State, q: Request, reply: Reply, r: nat)
    requires RequestTrue(s, q) && Unspent(s, q) && InsertsRecord(s, q, reply) && r < |s.records|
    ensures Apart(s.records[r], NewRecord(q.order, q.mine.value, s.attempts[q.mine.value]))
  {
    var n := NewRecord(q.order, q.mine.value, s.attempts[q.mine.value]);
    assert !HasContent(s.records[r], n.contentHash) && !HasNonce(s.records[r], n.agentWallet, n.nonce);
    assert !HasFee(s.records[r], n.feeTxHash);
  }

  lemma RecordsStayApart(s: State, e: Event)
    requires Sound(s) && Enabled(s, e)
    ensures var t := Next(s, e); forall q, r :: 0 <= q < r < |t.records| ==> Apart(t.records[q], t.records[r])
  {
    var t := Next(s, e);
    forall q, r | 0 <= q < r < |t.records| ensures Apart(t.records[q], t.records[r]) {
      if r == |s.records| {
        assert RequestTrue(s, s.requests[e.i]) && Unspent(s, s.requests[e.i]);
        NewRecordIsApart(s, s.requests[e.i], e.reply, q);
      }
    }
  }

  lemma UnspentStays(s: State, e: Event, j: nat)
    requires Sound(s) && Enabled(s, e) && j < |Next(s, e).requests|
    ensures Unspent(Next(s, e), Next(s, e).requests[j])
  {
    var t := Next(s, e);
    MinesStayApart(s, e);
    if j < |s.requests| {
      assert RequestTrue(s, s.requests[j]) && Unspent(s, s.requests[j]);
    }
    forall r | MayCreate(t.requests[j]) && 0 <= r < |t.records|
      ensures Some(t.records[r].paymentAttemptId) != t.requests[j].mine
    {
      if r < |s.records| {
        assert RecordTrue(s, s.records[r]) && t.records[r] == s.records[r];
      } else {
        assert t.requests[e.i].mine == Some(t.records[r].paymentAttemptId);
      }
    }
  }

  lemma RecordsStayTrue(s: State, e: Event, r: nat)
    requires Sound(s) && Enabled(s, e) && r < |Next(s, e).records|
    ensures RecordTrue(Next(s, e), Next(s, e).records[r])
  {
    var t := Next(s, e);
    if r < |s.records| {
      assert RecordTrue(s, s.records[r]) && t.records[r] == s.records[r];
      if e.Step? {
        assert Unspent(s, s.requests[e.i]);
        StepTouches(s, e.i, e.reply);
      }
    } else {
      assert RequestTrue(s, s.requests[e.i]);
    }
  }

  lemma AttemptsStayTrue(s: State, e: Event, a: AttemptId)
    requires Sound(s) && Enabled(s, e) && a < |Next(s, e).attempts|
    ensures AttemptTrue(Next(s, e), a)
  {
    var t := Next(s, e);
    StepExtends(s, e);
    if a < |s.attempts| {
      assert AttemptTrue(s, a);
      if s.attempts[a].recordId.Some? {
        assert t.records[s.attempts[a].recordId.value] == s.records[s.attempts[a].recordId.value];
      }
      if e.Step? {
        assert RequestTrue(s, s.requests[e.i]);
      }
    }
  }

  lemma StepSound(s: State, e: Event)
    requires Sound(s) && Enabled(s, e)
    ensures Sound(Next(s, e))
  {
    AttemptsStayApart(s, e);
    RecordsStayApart(s, e);
    MinesStayApart(s, e);
    forall j | 0 <= j < |Next(s, e).requests|
      ensures RequestTrue(Next(s, e), Next(s, e).requests[j]) && Unspent(Next(s, e), Next(s, e).requests[j])
    {
      RequestsStayTrue(s, e, j);
      UnspentStays(s, e, j);
    }
    forall r | 0 <= r < |Next(s, e).records| ensures RecordTrue(Next(s, e), Next(s, e).records[r]) {
      RecordsStayTrue(s, e, r);
    }
    forall a | 0 <= a < |Next(s, e).attempts| ensures AttemptTrue(Next(s, e), a) {
      AttemptsStayTrue(s, e, a);
    }
  }

  lemma {:induction false} RunSound(s: State, es: seq<Event>, t: State)
    requires Sound(s) && Run(s, es, t)
    ensures Sound(t) && Extends(s, t)
    decreases |es|
  {
    if es == [] {
    } else {
      StepSound(s, es[0]);
      StepExtends(s, es[0]);
      RunSound(Next(s, es[0]), es[1..], t);
    }
  }
}
