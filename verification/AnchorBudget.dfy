/** What anchoring a declaration costs: attempts, sends and takeovers, over all runs. */
module AnchorBudget {
  import opened Outcomes
  import opened Store
  import opened AnchorProtocol
  import opened AnchorSafety
  import opened AnchorTally

  /** Transactions sent for row `id`, whatever became of them. */
  function SentFor(chain: seq<Tx>, id: RowId): nat {
    if chain == [] then 0 else SentFor(chain[..|chain| - 1], id) + if chain[|chain| - 1].id == id then 1 else 0
  }

  lemma SentForAppend(chain: seq<Tx>, tx: Tx, id: RowId)
    ensures SentFor(chain + [tx], id) == SentFor(chain, id) + if tx.id == id then 1 else 0
  {
    assert (chain + [tx])[..|chain|] == chain;
  }

  lemma {:induction false} SentForApart(chain: seq<Tx>, longer: seq<Tx>, id: RowId)
    requires |chain| <= |longer| && chain == longer[..|chain|]
    requires forall k :: |chain| <= k < |longer| ==> longer[k].id != id
    ensures SentFor(longer, id) == SentFor(chain, id)
    decreases |longer|
  {
    if |chain| < |longer| {
      SentForApart(chain, longer[..|longer| - 1], id);
    } else {
      assert longer[..|chain|] == longer;
    }
  }

  lemma {:induction false} SentForNone(chain: seq<Tx>, id: RowId)
    requires forall k :: 0 <= k < |chain| ==> chain[k].id != id
    ensures SentFor(chain, id) == 0
  {
    if chain == [] {
    } else {
      SentForNone(chain[..|chain| - 1], id);
    }
  }

  lemma {:induction false} TallyAtLeast(what: Measure, ws: seq<Worker>, i: nat, id: RowId)
    requires i < |ws|
    ensures Tally(what, ws, id) >= Share(what, ws[i], id)
  {
    if i < |ws| - 1 {
      TallyAtLeast(what, ws[..|ws| - 1], i, id);
    }
  }

  lemma {:induction false} SendsAreUnreleased(ws: seq<Worker>, id: RowId)
    requires forall i :: 0 <= i < |ws| ==> ws[i].sent.Some? ==> !ws[i].released
    ensures Tally(Sends, ws, id) <= Tally(Unreleased, ws, id) <= Tally(Claims, ws, id)
  {
    if ws == [] {
    } else {
      SendsAreUnreleased(ws[..|ws| - 1], id);
    }
  }

  /** A call on the row still runs, or ended without a last word. */
  ghost predicate Held(ws: seq<Worker>, id: RowId) {
    exists i :: 0 <= i < |ws| && ws[i].id == id && !ws[i].pc.Returned?
  }

  ghost predicate Budgeted(s: State, id: RowId)
    requires id in s.rows
  {
    var row := s.rows[id];
    && row.attempts == Tally(Unreleased, s.workers, id)
    && SentFor(s.chain, id) == Tally(Sends, s.workers, id)
    && row.attempts <= s.maxAttempts + Tally(Takeovers, s.workers, id)
    && (row.state.Pending? ==> row.attempts < s.maxAttempts + Tally(Takeovers, s.workers, id))
    && (row.state.Anchoring? ==> Held(s.workers, id))
  }

  lemma BudgetApart(s: State, t: State, id: RowId)
    requires Apart(s, t, id) && Budgeted(s, id)
    ensures Budgeted(t, id)
  {
    TallyApart(Unreleased, s.workers, t.workers, id);
    TallyApart(Sends, s.workers, t.workers, id);
    TallyApart(Takeovers, s.workers, t.workers, id);
    SentForApart(s.chain, t.chain, id);
    if Held(s.workers, id) {
      var i :| 0 <= i < |s.workers| && s.workers[i].id == id && !s.workers[i].pc.Returned?;
      assert t.workers[i] == s.workers[i];
    }
  }

  lemma AcceptBudget(s: State, e: Event)
    requires Sound(s) && Enabled(s, e) && e.Accept? && s.maxAttempts >= 1
    ensures Budgeted(Next(s, e), e.id)
  {
    forall i | 0 <= i < |s.workers| ensures s.workers[i].id != e.id {
      assert WorkerTrue(s, s.workers[i]);
    }
    forall k | 0 <= k < |s.chain| ensures s.chain[k].id != e.id {
      assert TxTrue(s, s.chain[k]);
    }
    TallyNone(Unreleased, s.workers, e.id);
    TallyNone(Sends, s.workers, e.id);
    TallyNone(Takeovers, s.workers, e.id);
    SentForNone(s.chain, e.id);
  }

  lemma ClaimBudget(s: State, e: Event)
    requires Enabled(s, e) && e.Claim? && Budgeted(s, e.id)
    ensures Budgeted(Next(s, e), e.id)
  {
    var t, w := Next(s, e), NewWorker(s, e.id, e.leaseSeconds);
    TallyAppend(Unreleased, s.workers, w, e.id);
    TallyAppend(Sends, s.workers, w, e.id);
    TallyAppend(Takeovers, s.workers, w, e.id);
    assert t.workers[|s.workers|] == w;
  }

  /** The books of one call: what a step does to them and to the row. */
  lemma ActorBooks(s: State, e: Event)
    requires Enabled(s, e) && Actor(e).Some? && WorkerTrue(s, s.workers[Actor(e).value])
    ensures var w, v := s.workers[Actor(e).value], WorkerAfter(s, e);
      var row, next := s.rows[w.id], RowAfter(s, e);
      && v.id == w.id && v.tookOver == w.tookOver
      && (v.sent.Some? <==> w.sent.Some? || e.Send?) && (e.Send? ==> w.sent.None?)
      && (e.Release? ==> !w.released && v.released == row.state.Anchoring? && next == WithRelease(row, e.reason))
      && (!e.Release? ==> v.released == w.released && next.attempts == row.attempts)
      && (next.state == row.state || !next.state.Anchoring?)
      && (next.state.Pending? ==> row.state.Pending? || e.Release? || next.attempts < s.maxAttempts)
      && (v.pc.Returned? ==> !next.state.Anchoring?)
  {
    match e {
      case LookUp(_, _) =>
      case SeeLowBalance(_) =>
      case Release(_, _, _) =>
      case Send(_, _, _) =>
      case Record(_, _) =>
      case Receive(_, _) =>
      case Mark(_, _) =>
      case Throw(_) =>
      case Fail(_, _) =>
      case Crash(_) =>
    }
  }

  lemma ActorBudget(s: State, e: Event, i: nat, id: RowId, t: State)
    requires Enabled(s, e) && Actor(e) == Some(i) && id == s.workers[i].id && t == Next(s, e)
    requires WorkerTrue(s, s.workers[i]) && Budgeted(s, id)
    ensures Budgeted(t, id)
  {
    var v := WorkerAfter(s, e);
    ActorBooks(s, e);
    TallyUpdate(Unreleased, s.workers, i, v, id);
    TallyUpdate(Sends, s.workers, i, v, id);
    TallyUpdate(Takeovers, s.workers, i, v, id);
    TallyAtLeast(Unreleased, s.workers, i, id);
    if e.Send? {
      SentForAppend(s.chain, Tx(id, CallFor(s.rows[id].content), e.fate), id);
    }
    if t.rows[id].state.Anchoring? {
      assert t.workers[i] == v && v.id == id && !v.pc.Returned?;
    }
  }

  lemma StepBudget(s: State, e: Event, id: RowId)
    requires Sound(s) && Enabled(s, e) && s.maxAttempts >= 1 && id in Next(s, e).rows
    requires id in s.rows ==> Budgeted(s, id)
    ensures Budgeted(Next(s, e), id)
  {
    if Target(s, e) != Some(id) {
      ElsewhereIsApart(s, e, id);
      BudgetApart(s, Next(s, e), id);
    } else if e.Accept? {
      AcceptBudget(s, e);
    } else if e.Claim? {
      ClaimBudget(s, e);
    } else {
      assert WorkerTrue(s, s.workers[Actor(e).value]);
      ActorBudget(s, e, Actor(e).value, id, Next(s, e));
    }
  }

  lemma {:induction false} RunBudget(s: State, es: seq<Event>, t: State, id: RowId)
    requires Sound(s) && Run(s, es, t) && s.maxAttempts >= 1 && id in t.rows
    requires id in s.rows ==> Budgeted(s, id)
    ensures Sound(t) && Budgeted(t, id) && t.maxAttempts == s.maxAttempts
    decreases |es|
  {
    if es == [] {
    } else {
      var u := Next(s, es[0]);
      StepSound(s, es[0]);
      StepExtends(s, es[0]);
      if id in u.rows {
        StepBudget(s, es[0], id);
      }
      RunBudget(u, es[1..], t, id);
    }
  }

  /**
   * Attempt accounting, in every run: the attempts counted on a row are its successful claims minus
   * the claims given back, so the floor at zero is never used; no more transactions were sent than
   * attempts counted, and no more attempts than `maxAttempts` plus the expired leases taken over.
   */
  lemma AttemptsAreAccounted(now: int, maxAttempts: int, es: seq<Event>, t: State, id: RowId)
    requires Run(Initial(now, maxAttempts), es, t) && maxAttempts >= 1 && id in t.rows
    ensures SentFor(t.chain, id) <= t.rows[id].attempts == Tally(Unreleased, t.workers, id)
    ensures t.rows[id].attempts <= maxAttempts + Tally(Takeovers, t.workers, id)
    ensures (exists i :: 0 <= i < |t.workers| && t.workers[i].id == id && t.workers[i].pc.Releasing?)
            ==> t.rows[id].attempts >= 1
  {
    InitialSound(now, maxAttempts);
    RunBudget(Initial(now, maxAttempts), es, t, id);
    forall i | 0 <= i < |t.workers| ensures t.workers[i].sent.Some? ==> !t.workers[i].released {
      assert WorkerTrue(t, t.workers[i]);
    }
    SendsAreUnreleased(t.workers, id);
    forall i | 0 <= i < |t.workers| && t.workers[i].id == id && t.workers[i].pc.Releasing?
      ensures t.rows[id].attempts >= 1
    {
      assert WorkerTrue(t, t.workers[i]);
      TallyAtLeast(Unreleased, t.workers, i, id);
    }
  }

  /**
   * Without takeovers and pauses a row is claimed at most `maxAttempts` times, and once it has been,
   * it is never pending again: when its calls have all returned, it is anchored or failed.
   */
  lemma RowsFinish(now: int, maxAttempts: int, es: seq<Event>, t: State, id: RowId)
    requires Run(Initial(now, maxAttempts), es, t) && maxAttempts >= 1 && id in t.rows
    requires Tally(Takeovers, t.workers, id) == 0
    requires forall i :: 0 <= i < |t.workers| && t.workers[i].id == id ==> !t.workers[i].released
    ensures Tally(Claims, t.workers, id) <= maxAttempts
    ensures Tally(Claims, t.workers, id) == maxAttempts ==> !t.rows[id].state.Pending?
    ensures Tally(Claims, t.workers, id) == maxAttempts && !Held(t.workers, id) ==> Terminal(t.rows[id])
  {
    InitialSound(now, maxAttempts);
    RunBudget(Initial(now, maxAttempts), es, t, id);
    ClaimsUnreleased(t.workers, id);
  }

  lemma {:induction false} ClaimsUnreleased(ws: seq<Worker>, id: RowId)
    requires forall i :: 0 <= i < |ws| && ws[i].id == id ==> !ws[i].released
    ensures Tally(Claims, ws, id) == Tally(Unreleased, ws, id)
  {
    if ws == [] {
    } else {
      ClaimsUnreleased(ws[..|ws| - 1], id);
    }
  }
}
