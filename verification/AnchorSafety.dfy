/** What holds in every reachable state of the anchoring protocol, under any interleaving. */
module AnchorSafety {
  import opened Outcomes
  import opened Store
  import opened AnchorProtocol

  /** The row a step may change, if any. */
  function Target(s: State, e: Event): Option<RowId>
    requires Enabled(s, e)
  {
    if e.Wait? then None
    else if e.Accept? || e.Claim? then Some(e.id)
    else Some(s.workers[Actor(e).value].id)
  }

  lemma OthersUntouched(s: State, e: Event)
    requires Enabled(s, e)
    ensures forall id :: id in s.rows && Target(s, e) != Some(id) ==> Next(s, e).rows[id] == s.rows[id]
    ensures forall i :: 0 <= i < |s.workers| && Actor(e) != Some(i) ==> Next(s, e).workers[i] == s.workers[i]
    ensures |s.workers| <= |Next(s, e).workers|
    ensures |Next(s, e).workers| == |s.workers| + if e.Claim? then 1 else 0
  {
  }

  /** The acting call stays true to the state before the step, apart from what it just sent. */
  lemma LookerAfterIsTrue(s: State, e: Event)
    requires Enabled(s, e) && e.LookUp? && WorkerTrue(s, s.workers[e.w])
    requires TxTrue(s, s.chain[s.workers[e.w].pc.tx])
    ensures WorkerTrue(s, WorkerAfter(s, e))
  {
  }

  lemma ReceiverAfterIsTrue(s: State, e: Event)
    requires Enabled(s, e) && e.Receive? && WorkerTrue(s, s.workers[e.w])
    ensures WorkerTrue(s, WorkerAfter(s, e))
  {
  }

  lemma WriterAfterIsTrue(s: State, e: Event)
    requires Enabled(s, e) && Actor(e).Some? && !e.Send? && !e.LookUp? && !e.Receive?
    requires WorkerTrue(s, s.workers[Actor(e).value])
    ensures WorkerTrue(s, WorkerAfter(s, e))
  {
    match e {
      case SeeLowBalance(_) =>
      case Release(_, _, _) =>
      case Record(_, _) =>
      case Mark(_, _) =>
      case Throw(_) =>
      case Fail(_, _) =>
      case Crash(_) =>
    }
  }

  lemma ActorStaysTrue(s: State, e: Event)
    requires Sound(s) && Enabled(s, e) && Actor(e).Some?
    ensures WorkerTrue(Next(s, e), Next(s, e).workers[Actor(e).value])
  {
    StepExtends(s, e);
    if e.Send? {
      assert WorkerTrue(s, s.workers[e.w]);
    } else {
      var w := s.workers[Actor(e).value];
      assert WorkerTrue(s, w);
      if e.LookUp? {
        assert TxTrue(s, s.chain[w.pc.tx]);
        LookerAfterIsTrue(s, e);
      } else if e.Receive? {
        ReceiverAfterIsTrue(s, e);
      } else {
        WriterAfterIsTrue(s, e);
      }
      WorkerStaysTrue(s, Next(s, e), WorkerAfter(s, e));
    }
  }

  lemma NewWorkerTrue(s: State, e: Event)
    requires Sound(s) && Enabled(s, e) && e.Claim?
    ensures WorkerTrue(Next(s, e), Next(s, e).workers[|s.workers|])
  {
    assert RowTrue(s, e.id);
  }

  lemma TargetStaysTrue(s: State, e: Event)
    requires Sound(s) && Enabled(s, e) && Target(s, e).Some?
    ensures RowTrue(Next(s, e), Target(s, e).value)
  {
    var t, id := Next(s, e), Target(s, e).value;
    StepExtends(s, e);
    if e.Accept? {
    } else {
      assert RowTrue(s, id);
      if t.rows[id] == s.rows[id] {
        RowStaysTrue(s, t, id);
      } else if e.Claim? {
      } else {
        assert WorkerTrue(s, s.workers[Actor(e).value]);
      }
    }
  }

  lemma RowsStayTrue(s: State, e: Event, id: RowId)
    requires Sound(s) && Enabled(s, e) && id in Next(s, e).rows
    ensures RowTrue(Next(s, e), id)
  {
    if Target(s, e) == Some(id) {
      TargetStaysTrue(s, e);
    } else {
      StepExtends(s, e);
      OthersUntouched(s, e);
      assert RowTrue(s, id);
      RowStaysTrue(s, Next(s, e), id);
    }
  }

  lemma WorkersStayTrue(s: State, e: Event, i: nat)
    requires Sound(s) && Enabled(s, e) && i < |Next(s, e).workers|
    ensures WorkerTrue(Next(s, e), Next(s, e).workers[i])
  {
    OthersUntouched(s, e);
    if Actor(e) == Some(i) {
      ActorStaysTrue(s, e);
    } else if i == |s.workers| {
      NewWorkerTrue(s, e);
    } else {
      StepExtends(s, e);
      WorkerStaysTrue(s, Next(s, e), s.workers[i]);
    }
  }

  lemma ChainStaysTrue(s: State, e: Event, k: nat)
    requires Sound(s) && Enabled(s, e) && k < |Next(s, e).chain|
    ensures TxTrue(Next(s, e), Next(s, e).chain[k])
  {
    if k < |s.chain| {
      StepExtends(s, e);
      TxStaysTrue(s, Next(s, e), s.chain[k]);
    }
  }

  lemma RowsStayUnique(s: State, e: Event)
    requires Unique(s.rows) && Enabled(s, e)
    ensures Unique(Next(s, e).rows)
  {
    if e.Accept? {
      assert s.rows - {e.id} == s.rows;
      InsertKeepsUnique(s.rows, e.id, e.content);
    } else {
      StepExtends(s, e);
      assert Next(s, e).rows.Keys == s.rows.Keys;
    }
  }

  /** Every step keeps the table, the workers and the chain in agreement. */
  lemma StepSound(s: State, e: Event)
    requires Sound(s) && Enabled(s, e)
    ensures Sound(Next(s, e))
  {
    forall id | id in Next(s, e).rows ensures RowTrue(Next(s, e), id) {
      RowsStayTrue(s, e, id);
    }
    forall i | 0 <= i < |Next(s, e).workers| ensures WorkerTrue(Next(s, e), Next(s, e).workers[i]) {
      WorkersStayTrue(s, e, i);
    }
    forall k | 0 <= k < |Next(s, e).chain| ensures TxTrue(Next(s, e), Next(s, e).chain[k]) {
      ChainStaysTrue(s, e, k);
    }
    RowsStayUnique(s, e);
  }

  lemma {:induction false} RunSound(s: State, es: seq<Event>, t: State)
    requires Sound(s) && Run(s, es, t)
    ensures Sound(t) && Extends(s, t)
    decreases |es|
  {
    if es == [] {
    } else {
      StepSound(s, es[0]);
      StepExtends(s, es[0]);
      RunSound(Next(s, es[0]), es[1..], t);
      ExtendsTransitive(s, Next(s, es[0]), t);
    }
  }

  lemma ExtendsTransitive(s: State, t: State, u: State)
    requires Extends(s, t) && Extends(t, u)
    ensures Extends(s, u)
  {
    assert s.chain == u.chain[..|t.chain|][..|s.chain|];
  }

  lemma InitialSound(now: int, maxAttempts: int)
    ensures Sound(Initial(now, maxAttempts))
  {
  }

  /**
   * Anchored means anchored: after any run from an empty table, the hash and the log index of an
   * anchored row name the first AnchorProof log, for its contract and digest, of a successful
   * transaction that was sent for that row with that row's arguments.
   */
  lemma AnchoredRowsAreTrue(now: int, maxAttempts: int, es: seq<Event>, t: State, id: RowId)
    requires Run(Initial(now, maxAttempts), es, t)
    requires id in t.rows && t.rows[id].state.Anchored?
    ensures t.rows[id].anchorTxHash.Some? && t.rows[id].anchor.Some?
    ensures var row := t.rows[id]; var tx := row.anchorTxHash.value;
      && tx < |t.chain| && t.chain[tx].id == id && Sendable(row.content)
      && t.chain[tx].call == CallFor(row.content) && t.chain[tx].fate.Succeeded?
      && row.anchor.value.block == t.chain[tx].fate.block
      && row.anchor.value.blockTime == t.chain[tx].fate.blockTime
      && exists log :: log in t.chain[tx].fate.logs && IsAnchorLog(log, row.content.contract, row.content.digest)
                       && log.logIndex == Some(row.anchor.value.logIndex)
  {
    InitialSound(now, maxAttempts);
    RunSound(Initial(now, maxAttempts), es, t);
    assert RowTrue(t, id);
    assert TxTrue(t, t.chain[t.rows[id].anchorTxHash.value]);
    var log := FirstAnchorLog(t.chain[t.rows[id].anchorTxHash.value].fate.logs,
                              t.rows[id].content.contract, t.rows[id].content.digest).value;
    assert log.logIndex == Some(t.rows[id].anchor.value.logIndex);
  }

  /** Anchored and failed rows never change again, whatever stale calls still do. */
  lemma {:induction false} TerminalForever(s: State, es: seq<Event>, t: State, id: RowId)
    requires Run(s, es, t) && id in s.rows && Terminal(s.rows[id])
    ensures id in t.rows && t.rows[id] == s.rows[id]
    decreases |es|
  {
    if es == [] {
    } else {
      TerminalForever(Next(s, es[0]), es[1..], t, id);
    }
  }
}
