/** `anchorDeclaration` as the sequential program it is, and its place in the protocol. */
module AnchorWorker {
  import opened Outcomes
  import opened Erc8263
  import opened Store
  import opened AnchorProtocol

  /** The transactions sent so far; sending appends. */
  class Chain {
    var txs: seq<Tx>

    method WriteContract(id: RowId, call: Call, fate: Fate) returns (tx: TxHash)
      modifies this
      ensures tx == |old(txs)| && txs == old(txs) + [Tx(id, call, fate)]
    {
      tx := |txs|;
      txs := txs + [Tx(id, call, fate)];
    }
  }

  datatype Sending = Refused | Broadcast(fate: Fate, replied: bool)

  /** How the chain and the relayer respond during one call; an absent balance means the read threw. */
  datatype World = World(
    earlierAnswered: bool, minBalance: Option<int>, balance: Option<int>, sending: Sending, receiptAnswered: bool)

  datatype Answered = AnchoredNow(tx: TxHash, found: Found) | Skipped | Paused | Retry | GaveUp

  method FindLog(chain: Chain, tx: TxHash, content: Content, answered: bool) returns (r: Lookup)
    requires tx < |chain.txs|
    ensures r == if answered then FindAnchorLog(chain.txs[tx], content.contract, content.digest) else Throws
  {
    return if answered then FindAnchorLog(chain.txs[tx], content.contract, content.digest) else Throws;
  }

  /** The protocol state `t` mirrors the table and the chain, with call `n` on row `id` holding it. */
  ghost predicate Mirrors(t: State, rows: map<RowId, Row>, txs: seq<Tx>, n: nat, id: RowId) {
    && t.rows == rows && t.chain == txs && n < |t.workers| && t.workers[n].id == id
    && id in rows && rows[id].state.Anchoring?
  }

  /** Only call `n` has moved. */
  ghost predicate OnlyMoved(t: State, u: State, n: nat) {
    && n < |t.workers| && |u.workers| == |t.workers| && u.workers == t.workers[n := u.workers[n]]
    && u.workers[n].id == t.workers[n].id && u.now == t.now && u.maxAttempts == t.maxAttempts
  }

  /**
   * One undisturbed call. It is a run of the protocol in which a new worker takes part, so whatever
   * holds of all runs holds of it; and undisturbed, its answer tells the truth about the row: anchored
   * only with that transaction recorded, paused only with the attempt given back, and no second
   * transaction when the recorded one is found.
   */
  method AnchorDeclaration(
      db: Table, chain: Chain, world: World, id: RowId, leaseSeconds: nat, maxAttempts: int, now: int,
      ghost workers: seq<Worker>)
    returns (out: Answered, ghost es: seq<Event>, ghost t: State)
    requires Sound(State(now, maxAttempts, db.rows, workers, chain.txs))
    modifies db, chain
    ensures Run(State(now, maxAttempts, old(db.rows), workers, old(chain.txs)), es, t)
    ensures t.rows == db.rows && t.chain == chain.txs && t.now == now
    ensures out.Skipped? <==> !(id in old(db.rows) && Claimable(old(db.rows)[id], now))
    ensures out.Skipped? ==> t == State(now, maxAttempts, old(db.rows), workers, old(chain.txs))
    ensures !out.Skipped? ==> |t.workers| == |workers| + 1 && t.workers[..|workers|] == workers
                              && t.workers[|workers|].id == id && t.workers[|workers|].pc.Returned?
    ensures !out.Skipped? ==> id in db.rows && AnswerIsTrue(out, old(db.rows)[id], db.rows[id], maxAttempts)
    ensures |chain.txs| <= |old(chain.txs)| + 1 && (out.Paused? ==> LowBalance(world) && chain.txs == old(chain.txs))
    ensures !out.Skipped? && GoesThrough(world, id, old(db.rows)[id].content) ==> out.AnchoredNow?
    ensures !out.Skipped? && world.earlierAnswered
            && RecordedProof(State(now, maxAttempts, old(db.rows), workers, old(chain.txs)), id)
            ==> out.AnchoredNow? && chain.txs == old(chain.txs)
  {
    ghost var s, n := State(now, maxAttempts, db.rows, workers, chain.txs), |workers|;
    es, t := [], s;
    if id in db.rows { RowTrueOf(s, id); }
    var claimed := db.ClaimForAnchoring(id, leaseSeconds, now);
    if claimed.None? {
      out := Skipped;
      return;
    }
    var row := claimed.value;
    RunStep(s, [], s, Claim(id, leaseSeconds));
    es, t := [] + [Claim(id, leaseSeconds)], Next(s, Claim(id, leaseSeconds));
    assert t.workers == workers + [t.workers[n]];
    ghost var fs, u;

    // A previous attempt may have sent the transaction and died before recording the result.
    if row.anchorTxHash.Some? {
      fs, u := LookUpStage(t, n, id, world.earlierAnswered);
      RunAppend(s, es, t, fs, u);
      es, t := es + fs, u;
      var previous := CheckEarlier(db, chain, id, row, world.earlierAnswered, now);
      if previous.Located? {
        out := AnchoredNow(row.anchorTxHash.value, previous.found);
        return;
      }
    }
    out, fs, u := DecideAndSend(db, chain, world, id, row, maxAttempts, now, t, n);
    RunAppend(s, es, t, fs, u);
    es, t := es + fs, u;
  }

  predicate LowBalance(world: World) {
    && world.minBalance.Some? && world.minBalance.value > 0
    && world.balance.Some? && world.balance.value < world.minBalance.value
  }

  predicate Funded(world: World) {
    || world.minBalance.None? || world.minBalance.value <= 0
    || (world.balance.Some? && world.balance.value >= world.minBalance.value)
  }

  /** Everything this call depends on works: the transaction goes out, succeeds and is seen. */
  predicate GoesThrough(world: World, id: RowId, content: Content) {
    && Funded(world) && Sendable(content)
    && world.sending.Broadcast? && world.sending.replied && world.receiptAnswered
    && FindAnchorLog(Tx(id, CallFor(content), world.sending.fate), content.contract, content.digest).Located?
  }

  /** What each answer says about the row before the call and after it. */
  ghost predicate AnswerIsTrue(out: Answered, before: Row, after: Row, maxAttempts: int) {
    match out
    case Skipped => true
    case AnchoredNow(tx, found) =>
      after.state.Anchored? && after.anchorTxHash == Some(tx) && after.anchor == Some(found)
    case Paused => after.state.Pending? && (before.attempts >= 0 ==> after.attempts == before.attempts)
    case Retry => after.state.Pending? && after.attempts == before.attempts + 1 < maxAttempts
    case GaveUp => after.state.Failed? && after.attempts == before.attempts + 1 >= maxAttempts
  }

  // ---------------------------------------------------------------- the same stages as runs of the protocol

  /** `t` has call `n` on row `id`, which it holds. */
  ghost predicate Holding(t: State, n: nat, id: RowId) {
    n < |t.workers| && t.workers[n].id == id && id in t.rows && t.rows[id].state.Anchoring?
  }

  /** From `t` a run leads to `u`, in which only call `n` and row `id` have moved. */
  ghost predicate Leads(t: State, es: seq<Event>, u: State, n: nat, id: RowId, row: Row, txs: seq<Tx>) {
    && Run(t, es, u) && OnlyMoved(t, u, n)
    && id in t.rows && u.rows == t.rows[id := row] && u.chain == txs
  }

  /** A step of call `n` moves that call and its row, and sends for its row only. */
  lemma StepMoves(u: State, e: Event, n: nat, id: RowId)
    requires Enabled(u, e) && Actor(e) == Some(n) && u.workers[n].id == id
    ensures var v := Next(u, e);
      && OnlyMoved(u, v, n) && v.workers[n] == WorkerAfter(u, e) && v.rows == u.rows[id := RowAfter(u, e)]
      && v.chain == if e.Send? then u.chain + [Tx(id, CallFor(u.rows[id].content), e.fate)] else u.chain
  {
  }

  lemma LeadsOn(t: State, es: seq<Event>, u: State, n: nat, id: RowId, e: Event) returns (fs: seq<Event>, v: State)
    requires Run(t, es, u) && OnlyMoved(t, u, n) && id in t.rows && id in u.rows && t.workers[n].id == id
    requires u.rows == t.rows[id := u.rows[id]]
    requires Enabled(u, e) && Actor(e) == Some(n)
    ensures Leads(t, fs, v, n, id, RowAfter(u, e),
                  if e.Send? then u.chain + [Tx(id, CallFor(u.rows[id].content), e.fate)] else u.chain)
    ensures v.workers[n] == WorkerAfter(u, e)
  {
    RunStep(t, es, u, e);
    fs, v := es + [e], Next(u, e);
    StepMoves(u, e, n, id);
  }

  lemma LookUpStage(t: State, n: nat, id: RowId, answered: bool) returns (es: seq<Event>, u: State)
    requires Holding(t, n, id) && t.workers[n].pc.Looking? && t.workers[n].pc.tx < |t.chain|
    ensures var answer, tx := Answer(t, t.workers[n], answered), t.workers[n].pc.tx;
      if answer.Located? then
        Leads(t, es, u, n, id, WithAnchor(t.rows[id], tx, answer.found, t.now), t.chain) && u.workers[n].pc.Returned?
      else
        Leads(t, es, u, n, id, t.rows[id], t.chain) && u.workers[n].pc.Deciding?
  {
    if Answer(t, t.workers[n], answered).Located? {
      es, u := FindStage(t, n, id, answered);
    } else {
      es, u := LeadsOn(t, [], t, n, id, LookUp(n, answered));
    }
  }

  lemma FindStage(t: State, n: nat, id: RowId, answered: bool) returns (es: seq<Event>, u: State)
    requires Holding(t, n, id) && t.workers[n].pc.Looking? && t.workers[n].pc.tx < |t.chain|
    requires Answer(t, t.workers[n], answered).Located?
    ensures var found, tx := Answer(t, t.workers[n], answered).found, t.workers[n].pc.tx;
      Leads(t, es, u, n, id, WithAnchor(t.rows[id], tx, found, t.now), t.chain) && u.workers[n].pc.Returned?
  {
    es, u := LeadsOn(t, [], t, n, id, LookUp(n, answered));
    es, u := LeadsOn(t, es, u, n, id, Mark(n, true));
  }

  lemma PauseStage(t: State, n: nat, id: RowId, reason: string) returns (es: seq<Event>, u: State)
    requires Holding(t, n, id) && t.workers[n].pc.Deciding?
    ensures Leads(t, es, u, n, id, WithRelease(t.rows[id], reason), t.chain) && u.workers[n].pc.Returned?
  {
    es, u := LeadsOn(t, [], t, n, id, SeeLowBalance(n));
    es, u := LeadsOn(t, es, u, n, id, Release(n, reason, true));
  }

  lemma ThrowStage(t: State, n: nat, id: RowId, error: string) returns (es: seq<Event>, u: State)
    requires Holding(t, n, id) && t.workers[n].pc.Deciding?
    ensures Leads(t, es, u, n, id, WithFailure(t.rows[id], error, t.maxAttempts), t.chain)
    ensures u.workers[n].pc.Returned?
  {
    es, u := LeadsOn(t, [], t, n, id, Throw(n));
    es, u := LeadsOn(t, es, u, n, id, Fail(n, error));
  }

  lemma LostSendStage(t: State, n: nat, id: RowId, fate: Fate, error: string) returns (es: seq<Event>, u: State)
    requires Holding(t, n, id) && t.workers[n].pc.Deciding? && Sendable(t.rows[id].content)
    ensures Leads(t, es, u, n, id, WithFailure(t.rows[id], error, t.maxAttempts),
                  t.chain + [Tx(id, CallFor(t.rows[id].content), fate)])
    ensures u.workers[n].pc.Returned?
  {
    es, u := LeadsOn(t, [], t, n, id, Send(n, fate, false));
    es, u := LeadsOn(t, es, u, n, id, Fail(n, error));
  }

  lemma RecordStage(t: State, n: nat, id: RowId, fate: Fate) returns (es: seq<Event>, u: State)
    requires Holding(t, n, id) && t.workers[n].pc.Deciding? && Sendable(t.rows[id].content)
    ensures Leads(t, es, u, n, id, WithSentTx(t.rows[id], |t.chain|),
                  t.chain + [Tx(id, CallFor(t.rows[id].content), fate)])
    ensures u.workers[n].pc == Awaiting(|t.chain|)
  {
    es, u := LeadsOn(t, [], t, n, id, Send(n, fate, true));
    es, u := LeadsOn(t, es, u, n, id, Record(n, true));
  }

  lemma SendStage(t: State, n: nat, id: RowId, fate: Fate, answered: bool, error: string)
    returns (es: seq<Event>, u: State)
    requires Holding(t, n, id) && t.workers[n].pc.Deciding? && Sendable(t.rows[id].content)
    ensures var content := t.rows[id].content;
      var tx, recorded := Tx(id, CallFor(content), fate), WithSentTx(t.rows[id], |t.chain|);
      var answer := if answered then FindAnchorLog(tx, content.contract, content.digest) else Throws;
      && Leads(t, es, u, n, id,
               if answer.Located? then WithAnchor(recorded, |t.chain|, answer.found, t.now)
               else WithFailure(recorded, error, t.maxAttempts),
               t.chain + [tx])
      && u.workers[n].pc.Returned?
  {
    es, u := RecordStage(t, n, id, fate);
    es, u := LeadsOn(t, es, u, n, id, Receive(n, answered));
    if u.workers[n].pc.Marking? {
      es, u := LeadsOn(t, es, u, n, id, Mark(n, true));
    } else {
      es, u := LeadsOn(t, es, u, n, id, Fail(n, error));
    }
  }

  // ---------------------------------------------------------------- the stages as the program runs them

  method CheckEarlier(db: Table, chain: Chain, id: RowId, row: Row, answered: bool, now: int)
    returns (previous: Lookup)
    requires id in db.rows && row == db.rows[id] && row.state.Anchoring?
    requires row.anchorTxHash.Some? && row.anchorTxHash.value < |chain.txs|
    modifies db
    ensures previous == if answered then
      FindAnchorLog(chain.txs[row.anchorTxHash.value], row.content.contract, row.content.digest) else Throws
    ensures db.rows == if previous.Located? then
      old(db.rows)[id := WithAnchor(row, row.anchorTxHash.value, previous.found, now)] else old(db.rows)
  {
    previous := FindLog(chain, row.anchorTxHash.value, row.content, answered);
    if previous.Located? {
      var done := db.MarkAnchored(id, row.anchorTxHash.value, previous.found, now);
    }
  }

  /** The balance check, the send and its confirmation. */
  method DecideAndSend(db: Table, chain: Chain, world: World, id: RowId, row: Row, maxAttempts: int, now: int,
                       ghost t: State, ghost n: nat)
    returns (out: Answered, ghost es: seq<Event>, ghost u: State)
    requires Mirrors(t, db.rows, chain.txs, n, id) && t.workers[n].pc.Deciding?
    requires row == db.rows[id] && t.maxAttempts == maxAttempts && t.now == now
    modifies db, chain
    ensures id in db.rows && !out.Skipped?
    ensures Leads(t, es, u, n, id, db.rows[id], chain.txs) && u.rows == db.rows && u.workers[n].pc.Returned?
    ensures AnswerIsTrue(out, row.(attempts := row.attempts - 1), db.rows[id], maxAttempts)
    ensures |chain.txs| <= |old(chain.txs)| + 1 && (out.Paused? ==> LowBalance(world) && chain.txs == old(chain.txs))
    ensures GoesThrough(world, id, row.content) ==> out.AnchoredNow?
  {
    var stopped;
    stopped, es, u := CheckBalance(db, world, id, row, maxAttempts, t, n, chain.txs);
    if stopped.Some? {
      out := stopped.value;
      return;
    }
    var aux := EncodeSingleAux(row.content.signature);
    if aux.Err? || world.sending.Refused? {
      es, u := ThrowStage(t, n, id, "writeContract");
      out := CatchBlock(db, id, maxAttempts, "writeContract");
      return;
    }
    out, es, u := SendAndConfirm(db, chain, world, id, row, maxAttempts, now, t, n);
  }

  /** The relayer's balance: a call that may not go on has paused, or failed to read it. */
  method CheckBalance(db: Table, world: World, id: RowId, row: Row, maxAttempts: int,
                      ghost t: State, ghost n: nat, ghost txs: seq<Tx>)
    returns (stopped: Option<Answered>, ghost es: seq<Event>, ghost u: State)
    requires Mirrors(t, db.rows, txs, n, id) && t.workers[n].pc.Deciding?
    requires row == db.rows[id] && t.maxAttempts == maxAttempts
    modifies db
    ensures stopped.None? <==> Funded(world)
    ensures stopped.None? ==> db.rows == old(db.rows)
    ensures stopped.Some? ==>
      && id in db.rows && !stopped.value.Skipped? && !stopped.value.AnchoredNow?
      && Leads(t, es, u, n, id, db.rows[id], txs) && u.rows == db.rows && u.workers[n].pc.Returned?
      && AnswerIsTrue(stopped.value, row.(attempts := row.attempts - 1), db.rows[id], maxAttempts)
      && (stopped.value.Paused? ==> LowBalance(world))
  {
    stopped, es, u := None, [], t;
    if world.minBalance.Some? && world.minBalance.value > 0 {
      if world.balance.None? {
        es, u := ThrowStage(t, n, id, "getBalance");
        var out := CatchBlock(db, id, maxAttempts, "getBalance");
        stopped := Some(out);
      } else if world.balance.value < world.minBalance.value {
        es, u := PauseStage(t, n, id, "relayer_low_balance");
        db.ReleaseClaim(id, "relayer_low_balance");
        stopped := Some(Paused);
      }
    }
  }

  method SendAndConfirm(db: Table, chain: Chain, world: World, id: RowId, row: Row, maxAttempts: int, now: int,
                        ghost t: State, ghost n: nat)
    returns (out: Answered, ghost es: seq<Event>, ghost u: State)
    requires Mirrors(t, db.rows, chain.txs, n, id) && t.workers[n].pc.Deciding?
    requires row == db.rows[id] && t.maxAttempts == maxAttempts && t.now == now
    requires world.sending.Broadcast? && Sendable(row.content)
    modifies db, chain
    ensures id in db.rows && !out.Skipped? && !out.Paused?
    ensures Leads(t, es, u, n, id, db.rows[id], chain.txs) && u.rows == db.rows && u.workers[n].pc.Returned?
    ensures AnswerIsTrue(out, row.(attempts := row.attempts - 1), db.rows[id], maxAttempts)
    ensures |chain.txs| == |old(chain.txs)| + 1 && (GoesThrough(world, id, row.content) ==> out.AnchoredNow?)
  {
    var call := Call(row.content.contract, row.content.agentIdScheme, row.content.agentId, row.content.digest,
                     EncodeSingleAux(row.content.signature).value);
    var tx := chain.WriteContract(id, call, world.sending.fate);
    if !world.sending.replied {
      es, u := LostSendStage(t, n, id, world.sending.fate, "writeContract");
      out := CatchBlock(db, id, maxAttempts, "writeContract");
      return;
    }
    es, u := SendStage(t, n, id, world.sending.fate, world.receiptAnswered, "not confirmed");
    db.RecordSentTx(id, tx);
    var res := FindLog(chain, tx, row.content, world.receiptAnswered);
    if !res.Located? {
      out := CatchBlock(db, id, maxAttempts, "not confirmed");
      return;
    }
    var done := db.MarkAnchored(id, tx, res.found, now);
    out := AnchoredNow(tx, res.found);
  }

  /** The catch block: back to pending, or failed once the attempts are used up. */
  method CatchBlock(db: Table, id: RowId, maxAttempts: int, error: string) returns (out: Answered)
    requires id in db.rows && db.rows[id].state.Anchoring?
    modifies db
    ensures db.rows == old(db.rows)[id := WithFailure(old(db.rows)[id], error, maxAttempts)]
    ensures out == if db.rows[id].attempts >= maxAttempts then GaveUp else Retry
  {
    var state := db.MarkAttemptFailed(id, error, maxAttempts);
    return if state == Some(Failed) then GaveUp else Retry;
  }

  lemma RowTrueOf(s: State, id: RowId)
    requires Sound(s) && id in s.rows
    ensures RowTrue(s, id)
    ensures RecordedProof(s, id)
      ==> FindAnchorLog(s.chain[s.rows[id].anchorTxHash.value], s.rows[id].content.contract, s.rows[id].content.digest)
          .Located?
  {
    assert RowTrue(s, id);
    if s.rows[id].anchorTxHash.Some? {
      assert TxTrue(s, s.chain[s.rows[id].anchorTxHash.value]);
    }
  }
}
