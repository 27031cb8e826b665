/**
 * Each kind of incident costs an anchor: runs whose only incidents are lost hashes, or overlapping
 * claims, and that reach the bound. `AnchorRuns` has the one for failed lookups.
 */
module AnchorTight {
  import opened Outcomes
  import opened Store
  import opened AnchorProtocol
  import opened AnchorTally
  import opened AnchorRuns

  predicate Anchorable(content: Content) { |content.digest| == 32 && Sendable(content) }

  function GoodTx(content: Content): Tx
    requires Anchorable(content)
  {
    Tx(0, CallFor(content), GoodFate(content))
  }

  function GoodChain(content: Content, n: nat): seq<Tx>
    requires Anchorable(content)
  {
    seq(n, _ => GoodTx(content))
  }

  lemma {:induction false} GoodChainProves(content: Content, n: nat)
    requires Anchorable(content)
    ensures Proofs(GoodChain(content, n), 0) == n
  {
    if n == 0 {
    } else {
      GoodChainProves(content, n - 1);
      GoodFateIsProof(content, GoodTx(content));
      assert GoodChain(content, n)[..n - 1] == GoodChain(content, n - 1);
    }
  }

  /** The first `k` calls of a list are no incidents, and each of the others is one. */
  lemma {:induction false} EachCounts(ws: seq<Worker>, k: nat)
    requires forall i :: 0 <= i < |ws| ==> Share(Incidents, ws[i], 0) == if i < k then 0 else 1
    ensures Tally(Incidents, ws, 0) == if |ws| <= k then 0 else |ws| - k
  {
    if ws == [] {
    } else {
      EachCounts(ws[..|ws| - 1], k);
    }
  }

  /** A claim that finds no recorded hash, and its transaction. */
  lemma ClaimAndSend(s: State, es: seq<Event>, t: State, content: Content, n: nat) returns (fs: seq<Event>, u: State)
    requires Anchorable(content) && Run(s, es, t) && |t.workers| == n && |t.chain| == n
    requires 0 in t.rows && t.rows[0].content == content && Claimable(t.rows[0], t.now) && t.rows[0].anchorTxHash.None?
    ensures Run(s, fs, u)
    ensures u == State(t.now, t.maxAttempts, t.rows[0 := Claimed(t.rows[0], t.now, 0)],
                       t.workers + [NewWorker(t, 0, 0).(pc := Recording(n), sent := Some(n))],
                       t.chain + [GoodTx(content)])
  {
    RunStep(s, es, t, Claim(0, 0));
    fs, u := es + [Claim(0, 0)], Next(t, Claim(0, 0));
    var v, e := u, Send(n, GoodFate(content), true);
    RunStep(s, fs, v, e);
    fs, u := fs + [e], Next(v, e);
    assert u.rows == v.rows;
    assert u.workers == t.workers + [NewWorker(t, 0, 0).(pc := Recording(n), sent := Some(n))];
  }

  // ---------------------------------------------------------------- lost hashes

  function LostWorker(tx: TxHash): Worker {
    Worker(0, 300000, Returned(OutAttempt(Some(Pending))), false, false, false, false, true, false, Some(tx))
  }

  function Losers(n: nat): seq<Worker> { seq(n, i requires 0 <= i < n => LostWorker(i)) }

  /** `n` calls have sent and lost their hash; the row is pending again. */
  function AfterLosses(content: Content, maxAttempts: int, n: nat): State
    requires Anchorable(content)
  {
    State(0, maxAttempts,
          map[0 := Row(content, Pending, n, None, if n == 0 then None else Some(""), None, None, None)],
          Losers(n), GoodChain(content, n))
  }

  /** A call whose transaction goes out and whose reply is lost. */
  lemma LoseHash(s: State, es: seq<Event>, content: Content, maxAttempts: int, n: nat) returns (fs: seq<Event>)
    requires Anchorable(content) && n + 1 < maxAttempts && Run(s, es, AfterLosses(content, maxAttempts, n))
    ensures Run(s, fs, AfterLosses(content, maxAttempts, n + 1))
  {
    var t := AfterLosses(content, maxAttempts, n);
    RunStep(s, es, t, Claim(0, 300));
    var claimed := Row(content, Anchoring, n + 1, Some(300000), t.rows[0].lastError, None, None, None);
    var w := Worker(0, 300000, Deciding, false, false, false, false, false, false, None);
    var u := State(0, maxAttempts, map[0 := claimed], t.workers + [w], t.chain);
    assert NewWorker(t, 0, 300) == w && Next(t, Claim(0, 300)) == u;
    SendAndLose(s, es + [Claim(0, 300)], u, content, n, t.workers, w);
    var sent := w.(pc := Failing, hashLost := true, sent := Some(n));
    var v := u.(workers := t.workers + [sent], chain := t.chain + [GoodTx(content)]);
    fs := es + [Claim(0, 300)] + [Send(n, GoodFate(content), false)];
    RunStep(s, fs, v, Fail(n, ""));
    fs := fs + [Fail(n, "")];
    FailsBack(v, content, maxAttempts, n);
  }

  lemma SendAndLose(s: State, es: seq<Event>, u: State, content: Content, n: nat, before: seq<Worker>, w: Worker)
    requires Anchorable(content) && Run(s, es, u) && |before| == n && |u.chain| == n
    requires u.workers == before + [w] && w.pc.Deciding? && w.id == 0 && 0 in u.rows && u.rows[0].content == content
    ensures Run(s, es + [Send(n, GoodFate(content), false)],
                u.(workers := before + [w.(pc := Failing, hashLost := true, sent := Some(n))],
                   chain := u.chain + [GoodTx(content)]))
  {
    var e := Send(n, GoodFate(content), false);
    RunStep(s, es, u, e);
    assert Next(u, e).rows == u.rows;
    assert Next(u, e).workers == before + [w.(pc := Failing, hashLost := true, sent := Some(n))];
  }

  lemma FailsBack(v: State, content: Content, maxAttempts: int, n: nat)
    requires Anchorable(content) && n + 1 < maxAttempts && v.maxAttempts == maxAttempts && v.now == 0
    requires 0 in v.rows && v.rows.Keys == {0} && v.rows[0].content == content && v.rows[0].state.Anchoring?
    requires v.rows[0].attempts == n + 1 && v.rows[0].anchorTxHash.None? && v.rows[0].anchor.None? && v.rows[0].anchoredAt.None?
    requires v.chain == GoodChain(content, n) + [GoodTx(content)]
    requires v.workers == Losers(n)
                          + [Worker(0, 300000, Failing, false, false, false, false, true, false, Some(n))]
    ensures Enabled(v, Fail(n, "")) && Next(v, Fail(n, "")) == AfterLosses(content, maxAttempts, n + 1)
  {
    var t, goal := Next(v, Fail(n, "")), AfterLosses(content, maxAttempts, n + 1);
    assert t.rows == goal.rows;
    assert t.workers == goal.workers;
    assert t.chain == goal.chain;
  }

  lemma {:induction false} LoseHashes(content: Content, maxAttempts: int, n: nat) returns (es: seq<Event>)
    requires Anchorable(content) && n < maxAttempts
    ensures Run(Initial(0, maxAttempts), es, AfterLosses(content, maxAttempts, n))
  {
    var s := Initial(0, maxAttempts);
    if n == 0 {
      RunStep(s, [], s, Accept(0, content));
      es := [] + [Accept(0, content)];
      assert Next(s, Accept(0, content)) == AfterLosses(content, maxAttempts, 0);
    } else {
      es := LoseHashes(content, maxAttempts, n - 1);
      es := LoseHash(s, es, content, maxAttempts, n - 1);
    }
  }

  /** For every n some run has exactly n incidents, all lost hashes, and anchors a declaration n + 1 times. */
  lemma EveryLostHashCanCostAnAnchor(content: Content, n: nat) returns (es: seq<Event>, t: State)
    requires Anchorable(content)
    ensures Run(Initial(0, n + 2), es, t)
    ensures Proofs(t.chain, 0) == n + 1 && Tally(Incidents, t.workers, 0) == n
    ensures forall i :: 0 <= i < |t.workers| ==> !t.workers[i].lookupFailed && !t.workers[i].overlapped
  {
    es := LoseHashes(content, n + 2, n);
    var u := AfterLosses(content, n + 2, n);
    var w := NewWorker(u, 0, 0).(pc := Recording(n), sent := Some(n));
    assert !Busy(u.workers, 0);
    es, t := ClaimAndSend(Initial(0, n + 2), es, u, content, n);
    assert t.chain == GoodChain(content, n + 1);
    GoodChainProves(content, n + 1);
    LossesCount(n, w);
  }

  lemma LossesCount(n: nat, w: Worker)
    requires Share(Incidents, w, 0) == 0
    ensures Tally(Incidents, Losers(n) + [w], 0) == n
  {
    EachCounts(Losers(n), 0);
    TallyAppend(Incidents, Losers(n), w, 0);
  }

  // ---------------------------------------------------------------- overlapping claims

  /** Call `i` claimed the row at time `i`, when the lease of the call before it had just expired. */
  function LateWorker(i: nat): Worker {
    Worker(0, i, Recording(i), i > 0, i > 0, false, false, false, false, Some(i))
  }

  /** `n + 1` calls have claimed the row and sent; none has recorded its hash. */
  function AfterOverlaps(content: Content, maxAttempts: int, n: nat): State
    requires Anchorable(content)
  {
    State(n, maxAttempts,
          map[0 := Row(content, Anchoring, n + 1, Some(n), None, None, None, None)],
          seq(n + 1, i requires 0 <= i < n + 1 => LateWorker(i)), GoodChain(content, n + 1))
  }

  lemma {:induction false} Overlaps(content: Content, maxAttempts: int, n: nat) returns (es: seq<Event>)
    requires Anchorable(content)
    ensures Run(Initial(0, maxAttempts), es, AfterOverlaps(content, maxAttempts, n))
  {
    var s, u := Initial(0, maxAttempts), Initial(0, maxAttempts);
    var goal := AfterOverlaps(content, maxAttempts, n);
    if n == 0 {
      RunStep(s, [], s, Accept(0, content));
      es, u := ClaimAndSend(s, [] + [Accept(0, content)], Next(s, Accept(0, content)), content, 0);
    } else {
      es := Overlaps(content, maxAttempts, n - 1);
      var t := AfterOverlaps(content, maxAttempts, n - 1);
      RunStep(s, es, t, Wait(1));
      assert t.workers[0].id == 0 && Live(t.workers[0]);
      es, u := ClaimAndSend(s, es + [Wait(1)], Next(t, Wait(1)), content, n);
    }
    assert u.rows == goal.rows;
    assert u.workers == goal.workers;
    assert u.chain == goal.chain;
  }

  /** For every n some run has exactly n incidents, all overlapping claims, and anchors n + 1 times. */
  lemma EveryOverlapCanCostAnAnchor(content: Content, maxAttempts: int, n: nat) returns (es: seq<Event>, t: State)
    requires Anchorable(content)
    ensures Run(Initial(0, maxAttempts), es, t)
    ensures Proofs(t.chain, 0) == n + 1 && Tally(Incidents, t.workers, 0) == n
    ensures forall i :: 0 <= i < |t.workers| ==> !t.workers[i].lookupFailed && !t.workers[i].hashLost
  {
    es := Overlaps(content, maxAttempts, n);
    t := AfterOverlaps(content, maxAttempts, n);
    GoodChainProves(content, n + 1);
    EachCounts(t.workers, 1);
  }
}
