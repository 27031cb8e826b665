/**
 * How payments end: what the status of every attempt is, and which payments end with a record, told
 * from the replies that the awaits of its request had.
 */
module PaymentTrails {
  import opened Outcomes
  import opened Payments
  import PaymentRuns

  // ---------------------------------------------------------------- the replies of each request

  function NextTrails(trails: seq<seq<Reply>>, e: Event): seq<seq<Reply>> {
    match e
    case Arrive(_) => trails + [[]]
    case Step(i, reply) => if i < |trails| then trails[i := trails[i] + [reply]] else trails
    case Die(_) => trails
  }

  /** The replies so far, request by request, after the events. */
  function Trails(trails: seq<seq<Reply>>, es: seq<Event>): seq<seq<Reply>>
    decreases |es|
  {
    if es == [] then trails else Trails(NextTrails(trails, es[0]), es[1..])
  }

  // Positions of the replies of a request that gets so far.
  const VERIFY := 4
  const SETTLE := 5
  const CREATE := 6
  const LINK := 7

  predicate Arrived(replies: seq<Reply>, k: nat) { k < |replies| && replies[k].Fine? }

  predicate TookEffect(replies: seq<Reply>, k: nat) { k < |replies| && !replies[k].Throws? }

  // ---------------------------------------------------------------- what they say

  /** Both its verification and its settlement came back, so the request went on to store a record. */
  predicate SettledInTime(replies: seq<Reply>) { Arrived(replies, VERIFY) && Arrived(replies, SETTLE) }

  /** The insert of its record was not lost on the way. */
  predicate Attempted(replies: seq<Reply>) { SettledInTime(replies) && TookEffect(replies, CREATE) }

  /** The payment was entered as settled. */
  predicate Entered(replies: seq<Reply>) { Arrived(replies, VERIFY) && TookEffect(replies, SETTLE) }

  /** The replies to storing and to linking its record both arrived. */
  predicate BothArrived(replies: seq<Reply>) { Arrived(replies, CREATE) && Arrived(replies, LINK) }

  /** A stored record's payment was marked failed afterwards. */
  predicate Unwound(replies: seq<Reply>) { TookEffect(replies, if Arrived(replies, CREATE) then LINK + 1 else LINK) }

  /** The payment was marked failed though there is no record. */
  predicate MarkedFailed(batch: bool, replies: seq<Reply>) {
    if !Arrived(replies, VERIFY) then TookEffect(replies, SETTLE)
    else if !Arrived(replies, SETTLE) then TookEffect(replies, CREATE)
    else !batch && TookEffect(replies, LINK)
  }

  function StatusOf(batch: bool, stored: bool, replies: seq<Reply>): PaymentStatus {
    if stored then (if batch || BothArrived(replies) || !Unwound(replies) then Settled else PaymentStatus.PaymentFailed)
    else if MarkedFailed(batch, replies) then PaymentStatus.PaymentFailed
    else if Entered(replies) then Settled else PaymentPending
  }

  // ---------------------------------------------------------------- the invariant

  predicate PaidWith(r: Record, a: AttemptId) { r.paymentAttemptId == a }

  ghost predicate HasRecord(s: State, a: AttemptId) { exists r :: 0 <= r < |s.records| && PaidWith(s.records[r], a) }

  ghost predicate Stored(s: State, q: Request) { q.mine.Some? && HasRecord(s, q.mine.value) }

  /** The record would violate a unique constraint beside the one the order asks for. */
  predicate Blocks(r: Record, o: Order) {
    HasContent(r, o.contentHash) || HasNonce(r, o.agentWallet, o.nonce) || HasFee(r, FeeOf(o))
  }

  predicate IsFor(r: Record, o: Order) {
    && r.contentHash == o.contentHash && r.agentWallet == o.agentWallet && r.nonce == o.nonce
    && r.contentType == o.contentType && r.feeTxHash == FeeOf(o)
  }

  predicate HasColumns(o: Order) { FitsColumns(o.nonce, o.contentType) }

  ghost predicate Blocked(s: State, o: Order) { exists r :: 0 <= r < |s.records| && Blocks(s.records[r], o) }

  /** How many replies a request has had at each place, and how they ended. */
  predicate Placed(pc: Pc, batch: bool, stored: bool, replies: seq<Reply>) {
    match pc
    case PreChecking => |replies| == 0
    case CheckingNonce => |replies| == 1
    case CheckingFee => |replies| == 2
    case Inserting => |replies| == 3
    case Verifying => |replies| == 4
    case Settling => |replies| == 5 && Arrived(replies, VERIFY)
    case Failing =>
      if |replies| == 5 then !Arrived(replies, VERIFY)
      else |replies| == 6 && Arrived(replies, VERIFY) && !Arrived(replies, SETTLE)
    case Creating => |replies| == 6 && SettledInTime(replies) && !stored
    case Linking(_) => |replies| == 7 && SettledInTime(replies) && Arrived(replies, CREATE) && stored
    case Unwinding =>
      && !batch && SettledInTime(replies)
      && if |replies| == 7 then !(stored && Arrived(replies, CREATE))
         else |replies| == 8 && stored && Arrived(replies, CREATE) && !Arrived(replies, LINK)
    case _ => true
  }

  ghost predicate TrailTrue(s: State, q: Request, replies: seq<Reply>) {
    && Placed(q.pc, q.order.batch, Stored(s, q), replies)
    && (q.mine.Some? ==>
        && |replies| >= 4 && q.mine.value < |s.attempts|
        && s.attempts[q.mine.value].status == StatusOf(q.order.batch, Stored(s, q), replies)
        && (Stored(s, q) ==> Attempted(replies) && HasColumns(q.order))
        && (Attempted(replies) && HasColumns(q.order) && !Stored(s, q) ==> Blocked(s, q.order))
        && (forall r :: 0 <= r < |s.records| && PaidWith(s.records[r], q.mine.value) ==> IsFor(s.records[r], q.order)))
  }

  ghost predicate TrailsTrue(s: State, trails: seq<seq<Reply>>) {
    |trails| == |s.requests| && forall i :: 0 <= i < |trails| ==> TrailTrue(s, s.requests[i], trails[i])
  }

  // ---------------------------------------------------------------- steps

  /** A step of another request changes neither the attempt of this one nor whether it has a record. */
  lemma OthersKeepTrail(s: State, t: State, q: Request, replies: seq<Reply>)
    requires TrailTrue(s, q, replies) && Extends(s, t)
    requires q.mine.Some? ==> t.attempts[q.mine.value] == s.attempts[q.mine.value]
    requires forall r :: |s.records| <= r < |t.records| ==> Some(t.records[r].paymentAttemptId) != q.mine
    ensures TrailTrue(t, q, replies)
  {
    if q.mine.Some? {
      SameStored(s, t, q);
      forall r | 0 <= r < |t.records| && PaidWith(t.records[r], q.mine.value) ensures IsFor(t.records[r], q.order) {
        assert t.records[r] == s.records[r];
      }
      if Blocked(s, q.order) {
        var r :| 0 <= r < |s.records| && Blocks(s.records[r], q.order);
        assert Blocks(t.records[r], q.order);
      }
    }
  }

  lemma SameStored(s: State, t: State, q: Request)
    requires Extends(s, t)
    requires forall r :: |s.records| <= r < |t.records| ==> Some(t.records[r].paymentAttemptId) != q.mine
    ensures Stored(t, q) <==> Stored(s, q)
  {
    if Stored(s, q) {
      var r :| 0 <= r < |s.records| && PaidWith(s.records[r], q.mine.value);
      assert PaidWith(t.records[r], q.mine.value);
    }
    if Stored(t, q) {
      var r :| 0 <= r < |t.records| && PaidWith(t.records[r], q.mine.value);
      assert PaidWith(s.records[r], q.mine.value);
    }
  }

  /** The acting request before it has an attempt, and as it gets one. */
  lemma EarlyStepKeepsTrail(s: State, i: nat, reply: Reply, replies: seq<Reply>)
    requires Enabled(s, Step(i, reply)) && BeforePayment(s.requests[i]) && s.requests[i].mine.None?
    requires TrailTrue(s, s.requests[i], replies)
    requires forall r :: 0 <= r < |s.records| ==> s.records[r].paymentAttemptId < |s.attempts|
    ensures var t := Next(s, Step(i, reply)); TrailTrue(t, t.requests[i], replies + [reply])
  {
  }

  /** While it pays, nothing is stored. */
  lemma PayingStepKeepsTrail(s: State, i: nat, reply: Reply, replies: seq<Reply>)
    requires Enabled(s, Step(i, reply)) && Holds(s, s.requests[i])
    requires s.requests[i].pc.Verifying? || s.requests[i].pc.Settling? || s.requests[i].pc.Failing?
    requires TrailTrue(s, s.requests[i], replies)
    ensures var t := Next(s, Step(i, reply)); TrailTrue(t, t.requests[i], replies + [reply])
  {
    var q, t := s.requests[i], Next(s, Step(i, reply));
    assert !Stored(s, q) by { assert !Attempted(replies); }
    StepExtends(s, Step(i, reply));
    SameStored(s, t, q);
  }

  lemma CreatingStepKeepsTrail(s: State, i: nat, reply: Reply, replies: seq<Reply>)
    requires Enabled(s, Step(i, reply)) && s.requests[i].pc.Creating? && RequestTrue(s, s.requests[i])
    requires TrailTrue(s, s.requests[i], replies)
    ensures var t := Next(s, Step(i, reply)); TrailTrue(t, t.requests[i], replies + [reply])
  {
    var q, t := s.requests[i], Next(s, Step(i, reply));
    var a := q.mine.value;
    if InsertsRecord(s, q, reply) {
      assert PaidWith(t.records[|s.records|], a);
      assert forall r :: 0 <= r < |s.records| ==> t.records[r] == s.records[r] && !PaidWith(s.records[r], a);
    } else {
      SameStored(s, t, q);
      if !reply.Throws? && HasColumns(q.order) {
        BlockedByMisfit(s, q.order, NewRecord(q.order, a, s.attempts[a]));
      }
    }
  }

  lemma BlockedByMisfit(s: State, o: Order, n: Record)
    requires !Fits(s, n) && IsFor(n, o) && HasColumns(o)
    ensures Blocked(s, o)
  {
    if ContentTaken(s, n.contentHash) {
      var r :| 0 <= r < |s.records| && HasContent(s.records[r], n.contentHash);
      assert Blocks(s.records[r], o);
    } else if NonceTaken(s, n.agentWallet, n.nonce) {
      var r :| 0 <= r < |s.records| && HasNonce(s.records[r], n.agentWallet, n.nonce);
      assert Blocks(s.records[r], o);
    } else {
      var r :| 0 <= r < |s.records| && HasFee(s.records[r], n.feeTxHash);
      assert Blocks(s.records[r], o);
    }
  }

  lemma LateStepKeepsTrail(s: State, i: nat, reply: Reply, replies: seq<Reply>)
    requires Enabled(s, Step(i, reply)) && Holds(s, s.requests[i])
    requires s.requests[i].pc.Linking? || s.requests[i].pc.Unwinding?
    requires TrailTrue(s, s.requests[i], replies)
    ensures var t := Next(s, Step(i, reply)); TrailTrue(t, t.requests[i], replies + [reply])
  {
    var q, t := s.requests[i], Next(s, Step(i, reply));
    StepExtends(s, Step(i, reply));
    SameStored(s, t, q);
  }

  lemma StepKeepsTrail(s: State, e: Event, trails: seq<seq<Reply>>, i: nat)
    requires Sound(s) && Enabled(s, e) && TrailsTrue(s, trails) && i < |Next(s, e).requests|
    ensures i < |NextTrails(trails, e)| && TrailTrue(Next(s, e), Next(s, e).requests[i], NextTrails(trails, e)[i])
  {
    var t := Next(s, e);
    if i < |s.requests| {
      var q := s.requests[i];
      assert RequestTrue(s, q) && TrailTrue(s, q, trails[i]);
      if e.Step? && e.i == i {
        forall r | 0 <= r < |s.records| ensures s.records[r].paymentAttemptId < |s.attempts| {
          assert RecordTrue(s, s.records[r]);
        }
        if BeforePayment(q) {
          EarlyStepKeepsTrail(s, i, e.reply, trails[i]);
        } else if q.pc.Creating? {
          CreatingStepKeepsTrail(s, i, e.reply, trails[i]);
        } else if q.pc.Linking? || q.pc.Unwinding? {
          LateStepKeepsTrail(s, i, e.reply, trails[i]);
        } else {
          PayingStepKeepsTrail(s, i, e.reply, trails[i]);
        }
      } else if e.Step? {
        StepExtends(s, e);
        StepTouches(s, e.i, e.reply);
        assert RequestTrue(s, s.requests[e.i]);
        OthersKeepTrail(s, t, q, trails[i]);
      }
    }
  }

  lemma {:induction false} RunKeepsTrails(s: State, es: seq<Event>, t: State, trails: seq<seq<Reply>>)
    requires Sound(s) && Run(s, es, t) && TrailsTrue(s, trails)
    ensures Sound(t) && TrailsTrue(t, Trails(trails, es))
    decreases |es|
  {
    if es == [] {
    } else {
      StepSound(s, es[0]);
      forall i | 0 <= i < |Next(s, es[0]).requests|
        ensures i < |NextTrails(trails, es[0])|
                && TrailTrue(Next(s, es[0]), Next(s, es[0]).requests[i], NextTrails(trails, es[0])[i])
      {
        StepKeepsTrail(s, es[0], trails, i);
      }
      RunKeepsTrails(Next(s, es[0]), es[1..], t, NextTrails(trails, es[0]));
    }
  }

  // ---------------------------------------------------------------- how payments end

  lemma OthersAreApart(t: State, q: RecordId, r: RecordId)
    requires Unique(t) && q < |t.records| && r < |t.records|
    ensures q == r || Apart(t.records[q], t.records[r]) || Apart(t.records[r], t.records[q])
  {
  }

  /**
   * Exactly when a payment ends with a record: when its nonce and content type fit their columns, its
   * settlement came back in time, its insert was not lost, and no record of another payment has its
   * content, its fee transaction, or its wallet and nonce.
   */
  lemma RecordExactlyIfNothingBlocks(es: seq<Event>, t: State, i: nat)
    requires Run(INITIAL, es, t) && i < |t.requests| && t.requests[i].mine.Some?
    ensures i < |Trails([], es)|
    ensures HasRecord(t, t.requests[i].mine.value)
      <==> && HasColumns(t.requests[i].order) && Attempted(Trails([], es)[i])
           && forall r :: 0 <= r < |t.records| && Blocks(t.records[r], t.requests[i].order)
                          ==> PaidWith(t.records[r], t.requests[i].mine.value)
  {
    RunKeepsTrails(INITIAL, es, t, []);
    var q, a := t.requests[i], t.requests[i].mine.value;
    assert TrailTrue(t, q, Trails([], es)[i]);
    if HasRecord(t, a) {
      var own :| 0 <= own < |t.records| && PaidWith(t.records[own], a);
      forall r | 0 <= r < |t.records| && Blocks(t.records[r], q.order) ensures PaidWith(t.records[r], a) {
        OthersAreApart(t, r, own);
      }
    } else if HasColumns(q.order) && Attempted(Trails([], es)[i]) {
      var r :| 0 <= r < |t.records| && Blocks(t.records[r], q.order);
      assert !PaidWith(t.records[r], a);
    }
  }

  /** The order, sent alone, ends with a record. */
  ghost predicate StoredAlone(o: Order, es: seq<Event>, t: State) {
    && Run(INITIAL, es, t) && |t.requests| == 1 && t.requests[0].order == o && t.requests[0].mine.Some?
    && HasRecord(t, t.requests[0].mine.value)
  }

  /**
   * Which orders with a payment can end with a record at all, however the awaits end: exactly those
   * whose nonce, content type and payment identifier fit their columns.
   */
  lemma CanBeStoredExactlyIfItFits(o: Order)
    requires !o.kind.Unpaid?
    ensures (exists es, t :: StoredAlone(o, es, t)) <==> HasColumns(o) && IdentifierFits(o)
  {
    if HasColumns(o) && IdentifierFits(o) {
      var es, t := PaymentRuns.Pays(INITIAL, [], INITIAL, o, 0);
      es, t := PaymentRuns.Creates(INITIAL, es, t, 0);
      assert PaidWith(t.records[0], 0);
      assert StoredAlone(o, es, t);
    }
    forall es, t | StoredAlone(o, es, t) ensures HasColumns(o) && IdentifierFits(o) {
      RunKeepsTrails(INITIAL, es, t, []);
      assert RequestTrue(t, t.requests[0]);
      RecordExactlyIfNothingBlocks(es, t, 0);
    }
  }

  /** Nonce and content type are not looked at before the payment: without room for them it settles for nothing. */
  lemma OversizePaysForNothing(o: Order, amount: nat) returns (es: seq<Event>, t: State)
    requires Payable(o) && !HasColumns(o)
    ensures Run(INITIAL, es, t) && t.attempts == [PaymentRuns.Paid(o, amount)] && t.records == []
    ensures t.requests == [Request(o, Some(0), Thrown(Request(o, Some(0), Creating)))]
  {
    es, t := PaymentRuns.Pays(INITIAL, [], INITIAL, o, amount);
    es, t := PaymentRuns.IsRefused(INITIAL, es, t, 0);
  }

  /**
   * Exactly when a stored record's payment stays settled: its request is a batch item, or the replies
   * to storing and to linking it both arrived, or marking the payment failed had no effect.
   */
  lemma StoredPaymentSettledExactly(es: seq<Event>, t: State, i: nat)
    requires Run(INITIAL, es, t) && i < |t.requests| && t.requests[i].mine.Some?
    requires HasRecord(t, t.requests[i].mine.value)
    ensures i < |Trails([], es)| && t.requests[i].mine.value < |t.attempts|
    ensures var replies := Trails([], es)[i];
      if t.requests[i].order.batch || BothArrived(replies) || !Unwound(replies)
      then t.attempts[t.requests[i].mine.value].status.Settled?
      else t.attempts[t.requests[i].mine.value].status.PaymentFailed?
  {
    RunKeepsTrails(INITIAL, es, t, []);
    assert TrailTrue(t, t.requests[i], Trails([], es)[i]);
  }

  /**
   * Exactly when a payment without a record stands as settled: it was entered as settled, and neither
   * the handler of its failed verification nor that of its failed creation has marked it failed. A
   * batch item has no such handler for its creation.
   */
  lemma LostPaymentSettledExactly(es: seq<Event>, t: State, i: nat)
    requires Run(INITIAL, es, t) && i < |t.requests| && t.requests[i].mine.Some?
    requires !HasRecord(t, t.requests[i].mine.value)
    ensures i < |Trails([], es)| && t.requests[i].mine.value < |t.attempts|
    ensures t.attempts[t.requests[i].mine.value].status.Settled?
      <==> Entered(Trails([], es)[i]) && !MarkedFailed(t.requests[i].order.batch, Trails([], es)[i])
  {
    RunKeepsTrails(INITIAL, es, t, []);
    assert TrailTrue(t, t.requests[i], Trails([], es)[i]);
  }
}
