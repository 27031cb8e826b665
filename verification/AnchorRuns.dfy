/** Runs of the anchoring protocol: orderly ones, ones that show the bounds are met, and recovery. */
module AnchorRuns {
  import opened Bytes
  import opened Outcomes
  import opened Erc8263
  import opened Store
  import opened AnchorProtocol
  import opened AnchorSafety
  import opened AnchorTally
  import opened AnchorBound

  // ---------------------------------------------------------------- orderly runs

  /** No running call has outlived its lease. */
  ghost predicate InLease(s: State) {
    forall i :: 0 <= i < |s.workers| && Live(s.workers[i]) ==> s.now <= s.workers[i].leaseUntil
  }

  /** No call outlives its lease, and no reply to giving a claim back gets lost. */
  ghost predicate OrderlyRun(s: State, es: seq<Event>, t: State)
    decreases |es|
  {
    && InLease(s)
    && if es == [] then s == t
       else Enabled(s, es[0]) && (es[0].Release? ==> es[0].replied) && OrderlyRun(Next(s, es[0]), es[1..], t)
  }

  /** A running call holds its row, under its own lease, and is the only one on it. */
  ghost predicate Exclusive(s: State) {
    && (forall i :: 0 <= i < |s.workers| ==> s.workers[i].id in s.rows && !s.workers[i].overlapped)
    && (forall i :: 0 <= i < |s.workers| && Live(s.workers[i]) ==> HoldsRow(s, s.workers[i]))
    && (forall i, j :: 0 <= i < j < |s.workers| && Live(s.workers[i]) && Live(s.workers[j])
         ==> s.workers[i].id != s.workers[j].id)
  }

  predicate HoldsRow(s: State, w: Worker)
    requires w.id in s.rows
  {
    var row := s.rows[w.id];
    row.state.Anchored? || (row.state.Anchoring? && row.leaseUntil == Some(w.leaseUntil))
  }

  /** The row under an acting call: still held by it, unless the call is over. */
  lemma ActorHolds(s: State, e: Event)
    requires Enabled(s, e) && Actor(e).Some? && (e.Release? ==> e.replied)
    requires HoldsRow(s, s.workers[Actor(e).value])
    ensures var w, v := s.workers[Actor(e).value], WorkerAfter(s, e);
      && v.id == w.id && v.leaseUntil == w.leaseUntil && v.overlapped == w.overlapped && Live(w)
      && (Live(v) ==> HoldsRow(Next(s, e), v))
  {
    match e {
      case LookUp(_, _) =>
      case SeeLowBalance(_) =>
      case Release(_, _, _) =>
      case Send(_, _, _) =>
      case Record(_, _) =>
      case Receive(_, _) =>
      case Mark(_, _) =>
      case Throw(_) =>
      case Fail(_, _) =>
      case Crash(_) =>
    }
  }

  lemma OthersHold(s: State, e: Event, j: nat)
    requires Enabled(s, e) && Exclusive(s) && Actor(e).Some? && j < |s.workers| && j != Actor(e).value
    ensures Next(s, e).workers[j] == s.workers[j] && s.workers[j].id in Next(s, e).rows
    ensures Live(s.workers[j]) && Live(s.workers[Actor(e).value])
            ==> s.workers[j].id != s.workers[Actor(e).value].id && HoldsRow(Next(s, e), s.workers[j])
  {
    StepExtends(s, e);
    OthersUntouched(s, e);
  }

  lemma ActorExclusive(s: State, e: Event, i: nat, v: Worker, t: State)
    requires Enabled(s, e) && Exclusive(s) && (e.Release? ==> e.replied)
    requires Actor(e) == Some(i) && v == WorkerAfter(s, e) && t == Next(s, e)
    ensures Exclusive(t)
  {
    ActorHolds(s, e);
    assert t.workers == s.workers[i := v] && v.id in t.rows;
    forall j | 0 <= j < |t.workers| && j != i
      ensures t.workers[j] == s.workers[j] && s.workers[j].id in t.rows
      ensures Live(s.workers[j]) ==> s.workers[j].id != v.id && HoldsRow(t, s.workers[j])
    {
      OthersHold(s, e, j);
    }
  }

  lemma ClaimsAreFree(s: State, e: Event)
    requires Enabled(s, e) && e.Claim? && Exclusive(s) && InLease(s)
    ensures !Busy(s.workers, e.id)
  {
  }

  lemma ClaimExclusive(s: State, e: Event, t: State)
    requires Enabled(s, e) && e.Claim? && Exclusive(s) && InLease(s) && t == Next(s, e)
    ensures Exclusive(t)
  {
    ClaimsAreFree(s, e);
    var w := NewWorker(s, e.id, e.leaseSeconds);
    assert t.workers == s.workers + [w] && !w.overlapped && HoldsRow(t, w);
    forall j | 0 <= j < |s.workers| && Live(s.workers[j])
      ensures t.workers[j] == s.workers[j] && s.workers[j].id != e.id && HoldsRow(t, s.workers[j])
    {
    }
  }

  lemma StepExclusive(s: State, e: Event)
    requires Enabled(s, e) && Exclusive(s) && InLease(s) && (e.Release? ==> e.replied)
    ensures Exclusive(Next(s, e))
  {
    if Actor(e).Some? {
      ActorExclusive(s, e, Actor(e).value, WorkerAfter(s, e), Next(s, e));
    } else if e.Claim? {
      ClaimExclusive(s, e, Next(s, e));
    }
  }

  lemma {:induction false} OrderlyRunExclusive(s: State, es: seq<Event>, t: State)
    requires OrderlyRun(s, es, t) && Exclusive(s)
    ensures Run(s, es, t) && Exclusive(t)
    decreases |es|
  {
    if es == [] {
    } else {
      StepExclusive(s, es[0]);
      OrderlyRunExclusive(Next(s, es[0]), es[1..], t);
    }
  }

  /**
   * When no call outlives its lease and no reply to giving a claim back is lost, two calls never hold
   * one row, so only lost hashes and failed lookups cost extra anchors; without those a declaration is
   * anchored at most once.
   */
  lemma OrderlyAnchorsOnce(now: int, maxAttempts: int, es: seq<Event>, t: State, id: RowId)
    requires OrderlyRun(Initial(now, maxAttempts), es, t)
    ensures forall i, j :: 0 <= i < j < |t.workers| && Live(t.workers[i]) && Live(t.workers[j])
                           ==> t.workers[i].id != t.workers[j].id
    ensures Proofs(t.chain, id) <= 1 + Tally(Incidents, t.workers, id)
    ensures (forall i :: 0 <= i < |t.workers| && t.workers[i].id == id
                         ==> !t.workers[i].hashLost && !t.workers[i].lookupFailed)
            ==> Proofs(t.chain, id) <= 1
  {
    OrderlyRunExclusive(Initial(now, maxAttempts), es, t);
    AnchorsAreBounded(now, maxAttempts, es, t, id);
    if forall i :: 0 <= i < |t.workers| && t.workers[i].id == id
                   ==> !t.workers[i].hashLost && !t.workers[i].lookupFailed
    {
      NoIncidents(t.workers, id);
    }
  }

  lemma {:induction false} NoIncidents(ws: seq<Worker>, id: RowId)
    requires forall i :: 0 <= i < |ws| && ws[i].id == id
                         ==> !ws[i].hashLost && !ws[i].lookupFailed && !ws[i].overlapped
    ensures Tally(Incidents, ws, id) == 0
  {
    if ws == [] {
    } else {
      NoIncidents(ws[..|ws| - 1], id);
    }
  }

  // ---------------------------------------------------------------- when a reported anchor is true

  /** The row says what a call reports: anchored, by that transaction, at that place. */
  predicate RowSays(row: Row, tx: TxHash, found: Found) {
    row.state.Anchored? && row.anchorTxHash == Some(tx) && row.anchor == Some(found)
  }

  /** What a call reports, if it reports an anchor, is what its row says. */
  predicate ReportTrue(s: State, w: Worker) {
    w.pc.Returned? && w.pc.outcome.OutAnchored? ==>
      w.id in s.rows && RowSays(s.rows[w.id], w.pc.outcome.tx, w.pc.outcome.found)
  }

  /**
   * Exactly when a report is true, in any run: at its mark, the report is true if and only if the row
   * is still anchoring as the mark takes effect, or already said the same. A report that is true then
   * stays true in every continuation, and one about a failed row never becomes true.
   */
  lemma ReportTrueExactlyIfStillAnchoring(s: State, w: nat, es: seq<Event>, t: State)
    requires Enabled(s, Mark(w, true)) && Run(Next(s, Mark(w, true)), es, t)
    ensures var before, u := s.rows[s.workers[w].id], Next(s, Mark(w, true));
      && u.workers[w].pc == Returned(OutAnchored(s.workers[w].pc.tx, s.workers[w].pc.found))
      && (ReportTrue(u, u.workers[w])
          <==> before.state.Anchoring? || RowSays(before, s.workers[w].pc.tx, s.workers[w].pc.found))
      && (ReportTrue(u, u.workers[w]) ==> ReportTrue(t, u.workers[w]))
      && (before.state.Failed? ==> !ReportTrue(t, u.workers[w]))
  {
    var u, id := Next(s, Mark(w, true)), s.workers[w].id;
    if Terminal(u.rows[id]) {
      TerminalForever(u, es, t, id);
    }
  }

  /** Reports are true, and the row of a call that has not marked it is still anchoring. */
  ghost predicate ReportsTrue(s: State) {
    && (forall i :: 0 <= i < |s.workers| ==> ReportTrue(s, s.workers[i]))
    && (forall i :: 0 <= i < |s.workers| && Live(s.workers[i]) ==> Unmarked(s, s.workers[i]))
  }

  predicate Unmarked(s: State, w: Worker) { w.pc.Failing? || (w.id in s.rows && s.rows[w.id].state.Anchoring?) }

  lemma ActorReports(s: State, e: Event, i: nat)
    requires Enabled(s, e) && Actor(e) == Some(i) && Unmarked(s, s.workers[i])
    ensures var t := Next(s, e);
      ReportTrue(t, t.workers[i]) && (Live(t.workers[i]) ==> Unmarked(t, t.workers[i]))
  {
    match e {
      case LookUp(_, _) =>
      case SeeLowBalance(_) =>
      case Release(_, _, _) =>
      case Send(_, _, _) =>
      case Record(_, _) =>
      case Receive(_, _) =>
      case Mark(_, _) =>
      case Throw(_) =>
      case Fail(_, _) =>
      case Crash(_) =>
    }
  }

  /** Anchored rows stay as they are, so reports about them stay true. */
  lemma OldReportStays(s: State, e: Event, w: Worker)
    requires Enabled(s, e) && ReportTrue(s, w)
    ensures ReportTrue(Next(s, e), w)
  {
    if w.pc.Returned? && w.pc.outcome.OutAnchored? {
      assert [e][1..] == [];
      assert Run(Next(s, e), [e][1..], Next(s, e));
      TerminalForever(s, [e], Next(s, e), w.id);
    }
  }

  lemma StepReports(s: State, e: Event)
    requires Enabled(s, e) && Exclusive(s) && InLease(s) && (e.Release? ==> e.replied) && ReportsTrue(s)
    ensures ReportsTrue(Next(s, e))
  {
    var t := Next(s, e);
    StepExclusive(s, e);
    OthersUntouched(s, e);
    if e.Claim? {
      ClaimsAreFree(s, e);
    }
    forall i | 0 <= i < |t.workers|
      ensures ReportTrue(t, t.workers[i]) && (Live(t.workers[i]) ==> Unmarked(t, t.workers[i]))
    {
      if Actor(e) == Some(i) {
        ActorReports(s, e, i);
      } else if i < |s.workers| {
        OldReportStays(s, e, s.workers[i]);
      }
    }
  }

  lemma {:induction false} OrderlyRunReports(s: State, es: seq<Event>, t: State)
    requires OrderlyRun(s, es, t) && Exclusive(s) && ReportsTrue(s)
    ensures ReportsTrue(t)
    decreases |es|
  {
    if es == [] {
    } else {
      StepExclusive(s, es[0]);
      StepReports(s, es[0]);
      OrderlyRunReports(Next(s, es[0]), es[1..], t);
    }
  }

  /**
   * When no call outlives its lease and no reply to giving a claim back is lost, every call that
   * reports an anchor reports the truth: its row is anchored, by the reported transaction, at the
   * reported place.
   */
  lemma OrderlyReportsAreTrue(now: int, maxAttempts: int, es: seq<Event>, t: State, i: nat)
    requires OrderlyRun(Initial(now, maxAttempts), es, t) && i < |t.workers|
    requires t.workers[i].pc.Returned? && t.workers[i].pc.outcome.OutAnchored?
    ensures t.workers[i].id in t.rows
    ensures RowSays(t.rows[t.workers[i].id], t.workers[i].pc.outcome.tx, t.workers[i].pc.outcome.found)
  {
    OrderlyRunReports(Initial(now, maxAttempts), es, t);
    assert ReportTrue(t, t.workers[i]);
  }

  // ---------------------------------------------------------------- no row is stuck

  /** The fate of a transaction that goes through: one AnchorProof log with the arguments of the call. */
  function GoodFate(content: Content): Fate
    requires |content.digest| == 32
  {
    var log := Log(content.contract, [TOPIC0, ZERO_WORD, content.digest, ZERO_WORD], None, Some(0), Some(0), None);
    Succeeded(0, 0, [log])
  }

  lemma GoodFateIsProof(content: Content, tx: Tx)
    requires |content.digest| == 32 && tx.fate == GoodFate(content)
    ensures FindAnchorLog(tx, content.contract, content.digest) == Located(Found(0, 0, 0))
    ensures Sendable(content) && tx.call == CallFor(content) ==> IsProof(tx)
  {
    assert tx.fate.logs[0].topics[2] == content.digest;
  }

  /** How long until a claim would take the row. */
  function UntilDue(s: State, id: RowId): nat
    requires id in s.rows
  {
    var row := s.rows[id];
    if Claimable(row, s.now) || row.leaseUntil.None? || row.leaseUntil.value < s.now then 0
    else row.leaseUntil.value - s.now + 1
  }

  /** The steps of a call that ignores the past and anchors anew. */
  function AnchorSteps(s: State, id: RowId): seq<Event>
    requires id in s.rows && |s.rows[id].content.digest| == 32
  {
    var n := |s.workers|;
    [Wait(UntilDue(s, id)), Claim(id, 300)]
    + (if s.rows[id].anchorTxHash.Some? then [LookUp(n, false)] else [])
    + [Send(n, GoodFate(s.rows[id].content), true), Record(n, true), Receive(n, true), Mark(n, true)]
  }

  /**
   * No row is stuck, whether or not it was ever enqueued: a row that is neither anchored nor failed
   * is taken by a claim, and listed by the reconciler, now or at any time after the lease it records;
   * and from there a single call can anchor it.
   */
  lemma NoRowIsStuck(s: State, id: RowId) returns (t: State)
    requires Sound(s) && id in s.rows && !Terminal(s.rows[id])
    ensures forall later :: later >= s.now + UntilDue(s, id) ==> Claimable(s.rows[id], later)
    ensures |s.rows[id].content.digest| == 32 && Sendable(s.rows[id].content)
            ==> Run(s, AnchorSteps(s, id), t) && id in t.rows && t.rows[id].state.Anchored?
  {
    assert RowTrue(s, id);
    t := s;
    var content := s.rows[id].content;
    if |content.digest| == 32 && Sendable(content) {
      var n, c := |s.workers|, |s.chain|;
      var s1 := Next(s, Wait(UntilDue(s, id)));
      var s2 := Next(s1, Claim(id, 300));
      var recorded := s.rows[id].anchorTxHash.Some?;
      var s3 := if recorded then Next(s2, LookUp(n, false)) else s2;
      assert s3.workers[n].pc == Deciding && s3.workers[n].id == id && s3.rows[id].state.Anchoring?;
      t := FinishAnchoring(s3, n);
      var head, tail := [Wait(UntilDue(s, id)), Claim(id, 300)], FinishSteps(n, content);
      assert Run(s, head, s2) by {
        assert head[1..] == [Claim(id, 300)] && head[1..][1..] == [];
      }
      if recorded {
        assert Run(s2, [LookUp(n, false)], s3) by { assert [LookUp(n, false)][1..] == []; }
        RunAppend(s, head, s2, [LookUp(n, false)], s3);
        RunAppend(s, head + [LookUp(n, false)], s3, tail, t);
      } else {
        RunAppend(s, head, s2, tail, t);
        assert head + [] == head;
      }
    }
  }

  function FinishSteps(n: nat, content: Content): seq<Event>
    requires |content.digest| == 32
  {
    [Send(n, GoodFate(content), true), Record(n, true), Receive(n, true), Mark(n, true)]
  }

  /** From its decision on, an undisturbed call whose transaction goes through anchors its row. */
  lemma FinishAnchoring(s: State, n: nat) returns (t: State)
    requires n < |s.workers| && s.workers[n].pc.Deciding? && s.workers[n].id in s.rows
    requires var row := s.rows[s.workers[n].id];
      row.state.Anchoring? && |row.content.digest| == 32 && Sendable(row.content)
    ensures var id := s.workers[n].id;
      && Run(s, FinishSteps(n, s.rows[id].content), t) && id in t.rows
      && t.rows[id].state.Anchored? && t.rows[id].anchorTxHash == Some(|s.chain|)
  {
    var id, c := s.workers[n].id, |s.chain|;
    var content := s.rows[id].content;
    var es := FinishSteps(n, content);
    var s1 := Next(s, es[0]);
    GoodFateIsProof(content, s1.chain[c]);
    var s2 := Next(s1, es[1]);
    var s3 := Next(s2, es[2]);
    t := Next(s3, es[3]);
    RunOfFour(s, es, s1, s2, s3, t);
  }

  lemma RunOfFour(s: State, es: seq<Event>, s1: State, s2: State, s3: State, t: State)
    requires |es| == 4
    requires Enabled(s, es[0]) && s1 == Next(s, es[0]) && Enabled(s1, es[1]) && s2 == Next(s1, es[1])
    requires Enabled(s2, es[2]) && s3 == Next(s2, es[2]) && Enabled(s3, es[3]) && t == Next(s3, es[3])
    ensures Run(s, es, t)
  {
    assert es[3..][1..] == [] && es[2..][1..] == es[3..] && es[1..][1..] == es[2..];
    assert Run(s3, es[3..], t);
    assert Run(s2, es[2..], t);
    assert Run(s1, es[1..], t);
  }

  // ---------------------------------------------------------------- the bound is met

  /** A call whose transaction goes through but whose receipt does not come in time. */
  function TimeOutSteps(n: nat, content: Content): seq<Event>
    requires |content.digest| == 32
  {
    [Send(n, GoodFate(content), true), Record(n, true), Receive(n, false), Fail(n, "")]
  }

  /** Between rounds: the row is pending with a recorded proof, and nothing runs. */
  ghost predicate Resting(s: State, id: RowId) {
    && id in s.rows && s.rows[id].state.Pending? && |s.rows[id].content.digest| == 32 && Sendable(s.rows[id].content)
    && RecordedProof(s, id) && !Busy(s.workers, id)
  }

  /** The only running call on row `id` is call `n`, and the row is its own. */
  ghost predicate Alone(s: State, n: nat, id: RowId, content: Content) {
    && n < |s.workers| && s.workers[n].id == id && !s.workers[n].hashLost
    && id in s.rows && s.rows[id].content == content && |content.digest| == 32 && Sendable(content)
    && s.rows[id].state.Anchoring?
    && forall j :: 0 <= j < |s.workers| && s.workers[j].id == id && Live(s.workers[j]) ==> j == n
  }

  /** An actor's step on its own row, seen from that row. */
  lemma AloneStep(s: State, e: Event, n: nat, id: RowId, content: Content)
    requires Alone(s, n, id, content) && Enabled(s, e) && Actor(e) == Some(n)
    requires RowAfter(s, e).state.Anchoring? && !WorkerAfter(s, e).hashLost
    ensures Alone(Next(s, e), n, id, content)
    ensures Next(s, e).rows[id] == RowAfter(s, e) && Next(s, e).workers == s.workers[n := WorkerAfter(s, e)]
    ensures WorkerAfter(s, e).overlapped == s.workers[n].overlapped
            && (!e.LookUp? ==> WorkerAfter(s, e).lookupFailed == s.workers[n].lookupFailed)
  {
  }

  lemma SendAndRecord(s: State, n: nat, id: RowId, content: Content) returns (t: State)
    requires Alone(s, n, id, content) && s.workers[n].pc.Deciding?
    ensures Run(s, [Send(n, GoodFate(content), true), Record(n, true)], t) && Alone(t, n, id, content)
    ensures t.workers[n].pc == Awaiting(|s.chain|) && |t.chain| == |s.chain| + 1 && RecordedProof(t, id)
    ensures FindAnchorLog(t.chain[|s.chain|], content.contract, content.digest).Located?
    ensures |t.workers| == |s.workers| && t.rows[id].leaseUntil == s.rows[id].leaseUntil
    ensures t.maxAttempts == s.maxAttempts && t.rows[id].attempts == s.rows[id].attempts
    ensures Proofs(t.chain, id) == Proofs(s.chain, id) + 1
    ensures Tally(Incidents, t.workers, id) == Tally(Incidents, s.workers, id)
  {
    var e0, e1 := Send(n, GoodFate(content), true), Record(n, true);
    var tx := Tx(id, CallFor(content), GoodFate(content));
    GoodFateIsProof(content, tx);
    RunStep(s, [], s, e0);
    AloneStep(s, e0, n, id, content);
    var s1 := Next(s, e0);
    assert s1.chain == s.chain + [tx];
    RunStep(s, [] + [e0], s1, e1);
    AloneStep(s1, e1, n, id, content);
    t := Next(s1, e1);
    assert [] + [e0] + [e1] == [e0, e1];
    TallyUpdate(Incidents, s.workers, n, s1.workers[n], id);
    TallyUpdate(Incidents, s1.workers, n, t.workers[n], id);
    ProofsAppend(s.chain, tx, id);
  }

  lemma TimeOut(s: State, n: nat, id: RowId, content: Content) returns (t: State)
    requires Alone(s, n, id, content) && s.workers[n].pc.Deciding? && s.rows[id].attempts < s.maxAttempts
    ensures Run(s, TimeOutSteps(n, content), t)
    ensures Resting(t, id) && t.rows[id].content == content
    ensures t.maxAttempts == s.maxAttempts && t.rows[id].attempts == s.rows[id].attempts
    ensures Proofs(t.chain, id) == Proofs(s.chain, id) + 1
    ensures Tally(Incidents, t.workers, id) == Tally(Incidents, s.workers, id)
  {
    var s2 := SendAndRecord(s, n, id, content);
    var e2, e3 := Receive(n, false), Fail(n, "");
    RunStep(s2, [], s2, e2);
    AloneStep(s2, e2, n, id, content);
    var s3 := Next(s2, e2);
    RunStep(s2, [] + [e2], s3, e3);
    t := Next(s3, e3);
    RunAppend(s, [Send(n, GoodFate(content), true), Record(n, true)], s2, [] + [e2] + [e3], t);
    assert [Send(n, GoodFate(content), true), Record(n, true)] + ([] + [e2] + [e3]) == TimeOutSteps(n, content);
    TallyUpdate(Incidents, s2.workers, n, s3.workers[n], id);
    TallyUpdate(Incidents, s3.workers, n, t.workers[n], id);
  }

  /** One more anchor for one failed lookup, with every other reply on time. */
  function RoundSteps(n: nat, id: RowId, content: Content): seq<Event>
    requires |content.digest| == 32
  {
    [Claim(id, 300), LookUp(n, false)] + TimeOutSteps(n, content)
  }

  lemma Round(s: State, id: RowId) returns (t: State)
    requires Resting(s, id) && s.rows[id].attempts + 1 < s.maxAttempts
    ensures Run(s, RoundSteps(|s.workers|, id, s.rows[id].content), t)
    ensures Resting(t, id) && t.maxAttempts == s.maxAttempts && t.rows[id].attempts == s.rows[id].attempts + 1
    ensures Proofs(t.chain, id) == Proofs(s.chain, id) + 1
    ensures Tally(Incidents, t.workers, id) == Tally(Incidents, s.workers, id) + 1
  {
    var n, content := |s.workers|, s.rows[id].content;
    var e0, e1 := Claim(id, 300), LookUp(n, false);
    RunStep(s, [], s, e0);
    var s1 := Next(s, e0);
    assert s1.workers == s.workers + [NewWorker(s, id, 300)] && s1.workers[n].pc.Looking?;
    RunStep(s, [] + [e0], s1, e1);
    var s2 := Next(s1, e1);
    assert s2.workers == s.workers + [s2.workers[n]] && s2.chain == s.chain;
    TallyAppend(Incidents, s.workers, s2.workers[n], id);
    t := TimeOut(s2, n, id, content);
    RunAppend(s, [] + [e0] + [e1], s2, TimeOutSteps(n, content), t);
    assert [] + [e0] + [e1] == [e0, e1];
  }

  lemma {:induction false} Rounds(s: State, id: RowId, n: nat) returns (es: seq<Event>, t: State)
    requires Resting(s, id) && s.rows[id].attempts + n < s.maxAttempts
    ensures Run(s, es, t)
    ensures Proofs(t.chain, id) == Proofs(s.chain, id) + n
    ensures Tally(Incidents, t.workers, id) == Tally(Incidents, s.workers, id) + n
    decreases n
  {
    if n == 0 {
      es, t := [], s;
    } else {
      var u := Round(s, id);
      var fs;
      fs, t := Rounds(u, id, n - 1);
      es := RoundSteps(|s.workers|, id, s.rows[id].content) + fs;
      RunAppend(s, RoundSteps(|s.workers|, id, s.rows[id].content), u, fs, t);
    }
  }

  /** A row accepted and claimed for the first time. */
  lemma FirstClaim(content: Content, maxAttempts: nat) returns (t: State)
    requires |content.digest| == 32 && Sendable(content)
    ensures Run(Initial(0, maxAttempts), [Accept(0, content), Claim(0, 300)], t)
    ensures Alone(t, 0, 0, content) && t.workers[0].pc.Deciding?
    ensures t.maxAttempts == maxAttempts && t.rows[0].attempts == 1 && |t.workers| == 1
    ensures t.rows[0].leaseUntil.Some? && t.chain == []
    ensures Proofs(t.chain, 0) == 0 && Tally(Incidents, t.workers, 0) == 0
  {
    var s0 := Initial(0, maxAttempts);
    var e0, e1 := Accept(0, content), Claim(0, 300);
    RunStep(s0, [], s0, e0);
    var s1 := State(0, maxAttempts, map[0 := NewRow(content)], [], []);
    assert s1 == Next(s0, e0);
    RunStep(s0, [] + [e0], s1, e1);
    t := State(0, maxAttempts, map[0 := Claimed(NewRow(content), 0, 300)], [] + [NewWorker(s1, 0, 300)], []);
    assert t == Next(s1, e1);
    assert [] + [e0] + [e1] == [e0, e1];
    TallyAppend(Incidents, [], t.workers[0], 0);
  }

  /**
   * "A retry never anchors twice" is not so, and the bound cannot be improved: for every n some run
   * has exactly n incidents, all failed lookups, and anchors the same declaration n + 1 times.
   */
  lemma EveryFailedLookupCanCostAnAnchor(content: Content, n: nat) returns (es: seq<Event>, t: State)
    requires |content.digest| == 32 && Sendable(content)
    ensures Run(Initial(0, n + 2), es, t)
    ensures Proofs(t.chain, 0) == n + 1 && Tally(Incidents, t.workers, 0) == n
  {
    var first := [Accept(0, content), Claim(0, 300)];
    var s2 := FirstClaim(content, n + 2);
    var s3 := TimeOut(s2, 0, 0, content);
    RunAppend(Initial(0, n + 2), first, s2, TimeOutSteps(0, content), s3);
    var more;
    more, t := Rounds(s3, 0, n);
    es := first + TimeOutSteps(0, content) + more;
    RunAppend(Initial(0, n + 2), first + TimeOutSteps(0, content), s3, more, t);
  }

  /**
   * A call may report a row as anchored that is not: its lease expired, another call failed the row,
   * and the late update found nothing to change.
   */
  lemma ReportedAnchoredButFailed(content: Content) returns (es: seq<Event>, t: State)
    requires |content.digest| == 32 && Sendable(content)
    ensures Run(Initial(0, 2), es, t)
    ensures |t.workers| > 0 && t.workers[0].pc.Returned? && t.workers[0].pc.outcome.OutAnchored?
    ensures 0 in t.rows && t.rows[0].state.Failed?
  {
    var first := [Accept(0, content), Claim(0, 300)];
    var s2 := FirstClaim(content, 2);
    var s3 := SendAndRecord(s2, 0, 0, content);
    var sends := [Send(0, GoodFate(content), true), Record(0, true)];
    RunAppend(Initial(0, 2), first, s2, sends, s3);
    var rest;
    rest, t := StaleFinish(s3, content);
    es := first + sends + rest;
    RunAppend(Initial(0, 2), first + sends, s3, rest, t);
  }

  /** A stale call about to mark row 0, while a second call has taken the row over. */
  ghost predicate Overtaken(s: State, second: Pc) {
    && |s.workers| == 2 && s.workers[0].id == 0 && s.workers[1].id == 0
    && s.workers[0].pc.Marking? && s.workers[1].pc == second
    && 0 in s.rows && s.rows[0].state.Anchoring? && s.rows[0].attempts == 2 && s.maxAttempts == 2
  }

  lemma Overtake(s: State, content: Content) returns (es: seq<Event>, t: State, tx: TxHash)
    requires Alone(s, 0, 0, content) && s.workers[0].pc.Awaiting? && s.workers[0].pc.tx < |s.chain|
    requires FindAnchorLog(s.chain[s.workers[0].pc.tx], content.contract, content.digest).Located?
    requires s.maxAttempts == 2 && s.rows[0].attempts == 1 && s.rows[0].leaseUntil.Some?
    requires s.rows[0].anchorTxHash.Some? && s.rows[0].anchorTxHash.value < |s.chain| && |s.workers| == 1
    ensures Run(s, es, t) && tx < |t.chain| && Overtaken(t, Looking(tx))
  {
    var e0, e1, e2 := Receive(0, true), Wait(UntilDue(s, 0)), Claim(0, 300);
    tx := s.rows[0].anchorTxHash.value;
    RunStep(s, [], s, e0);
    AloneStep(s, e0, 0, 0, content);
    var s1 := Next(s, e0);
    RunStep(s, [] + [e0], s1, e1);
    var s2 := Next(s1, e1);
    assert s2.workers == s1.workers && s2.rows == s1.rows;
    RunStep(s, [] + [e0] + [e1], s2, e2);
    t := Next(s2, e2);
    es := [] + [e0] + [e1] + [e2];
  }

  lemma StaleFinish(s: State, content: Content) returns (es: seq<Event>, t: State)
    requires Alone(s, 0, 0, content) && s.workers[0].pc.Awaiting? && s.workers[0].pc.tx < |s.chain|
    requires FindAnchorLog(s.chain[s.workers[0].pc.tx], content.contract, content.digest).Located?
    requires s.maxAttempts == 2 && s.rows[0].attempts == 1 && s.rows[0].leaseUntil.Some?
    requires s.rows[0].anchorTxHash.Some? && s.rows[0].anchorTxHash.value < |s.chain| && |s.workers| == 1
    ensures Run(s, es, t)
    ensures |t.workers| > 0 && t.workers[0].pc.Returned? && t.workers[0].pc.outcome.OutAnchored?
    ensures 0 in t.rows && t.rows[0].state.Failed?
  {
    var head, s3, tx := Overtake(s, content);
    var e3, e4, e5, e6 := LookUp(1, false), Throw(1), Fail(1, "rpc down"), Mark(0, true);
    RunStep(s3, [], s3, e3);
    var s4 := Next(s3, e3);
    assert Overtaken(s4, Deciding);
    RunStep(s3, [] + [e3], s4, e4);
    var s5 := Next(s4, e4);
    assert Overtaken(s5, Failing);
    RunStep(s3, [] + [e3] + [e4], s5, e5);
    var s6 := Next(s5, e5);
    assert s6.rows[0].state.Failed? && s6.workers[0] == s5.workers[0];
    RunStep(s3, [] + [e3] + [e4] + [e5], s6, e6);
    t := Next(s6, e6);
    var tail := [] + [e3] + [e4] + [e5] + [e6];
    RunAppend(s, head, s3, tail, t);
    es := head + tail;
  }
}
