/**
 * Why lost replies count among the conditions of an orderly run: runs in which no call outlives its
 * lease, no hash is lost and no lookup fails, but the reply to giving a claim back is lost. The call
 * goes to its catch block and fails a row that another call has claimed meanwhile.
 */
module AnchorReleases {
  import opened Outcomes
  import opened Store
  import opened AnchorProtocol
  import opened AnchorTally
  import opened AnchorRuns
  import opened AnchorTight

  /** No call ever outlives its lease; replies may be lost. */
  ghost predicate InLeaseRun(s: State, es: seq<Event>, t: State)
    decreases |es|
  {
    && InLease(s)
    && if es == [] then s == t else Enabled(s, es[0]) && InLeaseRun(Next(s, es[0]), es[1..], t)
  }

  lemma {:induction false} InLeaseStep(s: State, es: seq<Event>, t: State, e: Event, u: State)
    requires InLeaseRun(s, es, t) && Enabled(t, e) && Next(t, e) == u && InLease(u)
    ensures InLeaseRun(s, es + [e], u)
    decreases |es|
  {
    if es == [] {
      assert [e][1..] == [] && es + [e] == [e];
    } else {
      InLeaseStep(Next(s, es[0]), es[1..], t, e, u);
      assert (es + [e])[1..] == es[1..] + [e];
    }
  }

  /** A call on row 0, claimed at time 0. */
  function CallAt(pc: Pc, overlapped: bool, released: bool, sent: Option<TxHash>): Worker {
    Worker(0, 300000, pc, false, overlapped, false, false, false, released, sent)
  }

  function RowAt(content: Content, state: RowState, attempts: int, error: Option<string>): Row {
    Row(content, state, attempts, if state.Anchoring? then Some(300000) else None, error, None, None, None)
  }

  /** A state at time 0 with one row, the calls on it, and transactions that went through. */
  function StateAt(maxAttempts: int, row: Row, workers: seq<Worker>, n: nat): State
    requires Anchorable(row.content)
  {
    State(0, maxAttempts, map[0 := row], workers, GoodChain(row.content, n))
  }

  /** Call 0 gave its claim back, which took effect, and is in its catch block; call 1 has claimed and sent. */
  function Crossed(content: Content, maxAttempts: int): State
    requires Anchorable(content)
  {
    StateAt(maxAttempts, RowAt(content, Anchoring, 1, Some("")),
            [CallAt(Failing, false, true, None), CallAt(Recording(0), true, false, Some(0))], 1)
  }

  /** Accepted, claimed, and given back with the reply lost. */
  lemma GivesBack(content: Content, maxAttempts: int) returns (es: seq<Event>, t: State)
    requires Anchorable(content)
    ensures InLeaseRun(Initial(0, maxAttempts), es, t)
    ensures t == StateAt(maxAttempts, RowAt(content, Pending, 0, Some("")), [CallAt(Failing, false, true, None)], 0)
  {
    var s := Initial(0, maxAttempts);
    var row := RowAt(content, Anchoring, 1, None);
    es, t := [], s;
    var u := StateAt(maxAttempts, NewRow(content), [], 0);
    InLeaseStep(s, es, t, Accept(0, content), u);
    es, t := es + [Accept(0, content)], u;
    u := StateAt(maxAttempts, row, [CallAt(Deciding, false, false, None)], 0);
    InLeaseStep(s, es, t, Claim(0, 300), u);
    es, t := es + [Claim(0, 300)], u;
    u := StateAt(maxAttempts, row, [CallAt(Releasing, false, false, None)], 0);
    InLeaseStep(s, es, t, SeeLowBalance(0), u);
    es, t := es + [SeeLowBalance(0)], u;
    u := StateAt(maxAttempts, RowAt(content, Pending, 0, Some("")), [CallAt(Failing, false, true, None)], 0);
    InLeaseStep(s, es, t, Release(0, "", false), u);
    es, t := es + [Release(0, "", false)], u;
  }

  lemma Crosses(content: Content, maxAttempts: int) returns (es: seq<Event>)
    requires Anchorable(content)
    ensures InLeaseRun(Initial(0, maxAttempts), es, Crossed(content, maxAttempts))
  {
    var s := Initial(0, maxAttempts);
    var t;
    es, t := GivesBack(content, maxAttempts);
    assert Live(t.workers[0]) && Busy(t.workers, 0);
    var calls := [CallAt(Failing, false, true, None), CallAt(Deciding, true, false, None)];
    var u := StateAt(maxAttempts, RowAt(content, Anchoring, 1, Some("")), calls, 0);
    InLeaseStep(s, es, t, Claim(0, 300), u);
    es := es + [Claim(0, 300)];
    var send := Send(1, GoodFate(content), true);
    assert Next(u, send).chain == GoodChain(content, 1);
    InLeaseStep(s, es, u, send, Crossed(content, maxAttempts));
    es := es + [send];
  }

  /** No call lost a hash or failed a lookup. */
  predicate NothingElseLost(t: State) {
    forall i :: 0 <= i < |t.workers| ==> !t.workers[i].hashLost && !t.workers[i].lookupFailed
  }

  /** The calls once call 0 has put the row back to pending and `third` has claimed it. */
  function Reclaimed(content: Content, third: Worker, n: nat): State
    requires Anchorable(content)
  {
    StateAt(5, RowAt(content, Anchoring, 2, Some("")),
            [CallAt(Returned(OutAttempt(Some(Pending))), false, true, None),
             CallAt(Recording(0), true, false, Some(0)), third], n)
  }

  lemma Reclaims(content: Content) returns (es: seq<Event>)
    requires Anchorable(content)
    ensures InLeaseRun(Initial(0, 5), es, Reclaimed(content, CallAt(Deciding, true, false, None), 1))
  {
    var s := Initial(0, 5);
    es := Crosses(content, 5);
    var calls := [CallAt(Returned(OutAttempt(Some(Pending))), false, true, None),
                  CallAt(Recording(0), true, false, Some(0))];
    var u := StateAt(5, RowAt(content, Pending, 1, Some("")), calls, 1);
    InLeaseStep(s, es, Crossed(content, 5), Fail(0, ""), u);
    es := es + [Fail(0, "")];
    assert Live(u.workers[1]) && Busy(u.workers, 0);
    InLeaseStep(s, es, u, Claim(0, 300), Reclaimed(content, CallAt(Deciding, true, false, None), 1));
    es := es + [Claim(0, 300)];
  }

  /** Within all leases, a lost reply to giving a claim back can let a declaration be anchored twice. */
  lemma LostReleaseAnchorsTwice(content: Content) returns (es: seq<Event>, t: State)
    requires Anchorable(content)
    ensures InLeaseRun(Initial(0, 5), es, t) && NothingElseLost(t) && Proofs(t.chain, 0) == 2
  {
    es := Reclaims(content);
    var u, send := Reclaimed(content, CallAt(Deciding, true, false, None), 1), Send(2, GoodFate(content), true);
    t := Reclaimed(content, CallAt(Recording(1), true, false, Some(1)), 2);
    assert Next(u, send).chain == t.chain && Next(u, send).workers == t.workers;
    InLeaseStep(Initial(0, 5), es, u, send, t);
    es := es + [send];
    GoodChainProves(content, 2);
  }

  /** The calls when call 0 has failed the row for good and call 1 is at `pc`. */
  function FailedAt(content: Content, pc: Pc): State
    requires Anchorable(content)
  {
    StateAt(1, RowAt(content, Failed, 1, Some("")),
            [CallAt(Returned(OutAttempt(Some(Failed))), false, true, None), CallAt(pc, true, false, Some(0))], 1)
  }

  lemma FailsTheRow(content: Content) returns (es: seq<Event>)
    requires Anchorable(content)
    ensures InLeaseRun(Initial(0, 1), es, FailedAt(content, Awaiting(0)))
  {
    var s := Initial(0, 1);
    es := Crosses(content, 1);
    InLeaseStep(s, es, Crossed(content, 1), Fail(0, ""), FailedAt(content, Recording(0)));
    es := es + [Fail(0, "")];
    InLeaseStep(s, es, FailedAt(content, Recording(0)), Record(1, true), FailedAt(content, Awaiting(0)));
    es := es + [Record(1, true)];
  }

  /** And it can let a call report an anchor whose row is failed. */
  lemma LostReleaseReportsFalsely(content: Content) returns (es: seq<Event>, t: State)
    requires Anchorable(content)
    ensures InLeaseRun(Initial(0, 1), es, t) && NothingElseLost(t)
    ensures |t.workers| == 2 && t.workers[1].pc == Returned(OutAnchored(0, Found(0, 0, 0)))
    ensures 0 in t.rows && t.rows[0].state.Failed?
  {
    var s, found := Initial(0, 1), Found(0, 0, 0);
    es := FailsTheRow(content);
    var u, v := FailedAt(content, Awaiting(0)), FailedAt(content, Marking(0, found));
    GoodFateIsProof(content, u.chain[0]);
    InLeaseStep(s, es, u, Receive(1, true), v);
    es := es + [Receive(1, true)];
    t := FailedAt(content, Returned(OutAnchored(0, found)));
    InLeaseStep(s, es, v, Mark(1, true), t);
    es := es + [Mark(1, true)];
  }
}
