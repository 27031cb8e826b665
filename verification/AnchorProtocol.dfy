/**
 * The anchoring protocol as a state machine: any number of calls of `anchorDeclaration` over one
 * table and one chain, interleaved at every await. Each SQL statement is one atomic step.
 */
module AnchorProtocol {
  import opened Bytes
  import opened Outcomes
  import opened Erc8263
  import opened Store

  // ---------------------------------------------------------------- the chain

  datatype Call = Call(contract: Bytes, agentIdScheme: int, agentId: Bytes, digest: Bytes, aux: Bytes)

  /** What eventually becomes of a transaction. It is fixed, but a reader may learn it late or never. */
  datatype Fate = NeverMined | Reverted | Succeeded(block: nat, blockTime: int, logs: seq<Log>)

  datatype Tx = Tx(id: RowId, call: Call, fate: Fate)

  datatype Lookup = Throws | IsReverted | Located(found: Found)

  predicate IsAnchorLog(log: Log, contract: Bytes, digest: Bytes) {
    && log.address == contract
    && |log.topics| > 2 && log.topics[0] == TOPIC0 && log.topics[2] == digest
  }

  function FirstAnchorLog(logs: seq<Log>, contract: Bytes, digest: Bytes): (r: Option<Log>)
    ensures r.Some? ==> r.value in logs && IsAnchorLog(r.value, contract, digest)
    ensures r.None? ==> forall l :: l in logs ==> !IsAnchorLog(l, contract, digest)
  {
    if logs == [] then None
    else if IsAnchorLog(logs[0], contract, digest) then Some(logs[0])
    else FirstAnchorLog(logs[1..], contract, digest)
  }

  /** `findAnchorLog` once the receipt arrives; without a receipt it throws. */
  function FindAnchorLog(tx: Tx, contract: Bytes, digest: Bytes): Lookup {
    match tx.fate
    case NeverMined => Throws
    case Reverted => IsReverted
    case Succeeded(block, blockTime, logs) =>
      match FirstAnchorLog(logs, contract, digest)
      case None => Throws
      case Some(log) => if log.logIndex.None? then Throws else Located(Found(log.logIndex.value, block, blockTime))
  }

  /** A successful transaction holding the AnchorProof log its call asked for. */
  predicate IsProof(tx: Tx) { FindAnchorLog(tx, tx.call.contract, tx.call.digest).Located? }

  predicate Sendable(content: Content) { EncodeSingleAux(content.signature).Ok? }

  function CallFor(content: Content): Call
    requires Sendable(content)
  {
    Call(content.contract, content.agentIdScheme, content.agentId, content.digest,
         EncodeSingleAux(content.signature).value)
  }

  // ---------------------------------------------------------------- the workers

  datatype Outcome = OutAnchored(tx: TxHash, found: Found) | OutPaused | OutAttempt(state: Option<RowState>)

  /** Where a call that has claimed its row stands: the await it is at. */
  datatype Pc =
    | Looking(tx: TxHash)              // receipt of the transaction recorded by an earlier attempt
    | Deciding                         // relayer balance, then the send
    | Releasing                        // giving the claim back
    | Recording(tx: TxHash)            // storing the hash just received
    | Awaiting(tx: TxHash)             // receipt of its own transaction
    | Marking(tx: TxHash, found: Found)
    | Failing                          // in the catch block
    | Returned(outcome: Outcome)
    | Crashed

  /** One call, and what is worth remembering of its past. */
  datatype Worker = Worker(
    id: RowId, leaseUntil: int, pc: Pc,
    tookOver: bool,      // it claimed a row whose lease had expired
    overlapped: bool,    // another call on the row was still running when it claimed
    knewProof: bool,     // the hash recorded at its claim is that of a proof
    lookupFailed: bool,  // the lookup of the earlier transaction threw
    hashLost: bool,      // its transaction went out and the hash was not stored
    released: bool,      // it gave the claim back
    sent: Option<TxHash>)

  predicate Live(w: Worker) { !w.pc.Returned? && !w.pc.Crashed? }

  predicate Busy(ws: seq<Worker>, id: RowId) { exists i :: 0 <= i < |ws| && ws[i].id == id && Live(ws[i]) }

  datatype State = State(now: int, maxAttempts: int, rows: map<RowId, Row>, workers: seq<Worker>, chain: seq<Tx>)

  function Initial(now: int, maxAttempts: int): State { State(now, maxAttempts, map[], [], []) }

  // ---------------------------------------------------------------- the steps

  datatype Event =
    | Wait(millis: nat)
    | Accept(id: RowId, content: Content)
    | Claim(id: RowId, leaseSeconds: nat)
    | LookUp(w: nat, answered: bool)
    | SeeLowBalance(w: nat)
    | Release(w: nat, reason: string, replied: bool)
    | Send(w: nat, fate: Fate, replied: bool)
    | Record(w: nat, replied: bool)
    | Receive(w: nat, answered: bool)
    | Mark(w: nat, replied: bool)
    | Throw(w: nat)
    | Fail(w: nat, error: string)
    | Crash(w: nat)

  predicate At(s: State, w: nat) { w < |s.workers| && s.workers[w].id in s.rows }

  predicate Enabled(s: State, e: Event) {
    match e
    case Wait(_) => true
    case Accept(id, content) => CanInsert(s.rows, id, content)
    case Claim(id, _) => id in s.rows && Claimable(s.rows[id], s.now)
    case LookUp(w, _) => At(s, w) && s.workers[w].pc.Looking? && s.workers[w].pc.tx < |s.chain|
    case SeeLowBalance(w) => At(s, w) && s.workers[w].pc.Deciding?
    case Release(w, _, _) => At(s, w) && s.workers[w].pc.Releasing?
    case Send(w, _, _) => At(s, w) && s.workers[w].pc.Deciding? && Sendable(s.rows[s.workers[w].id].content)
    case Record(w, _) => At(s, w) && s.workers[w].pc.Recording?
    case Receive(w, _) => At(s, w) && s.workers[w].pc.Awaiting? && s.workers[w].pc.tx < |s.chain|
    case Mark(w, _) => At(s, w) && s.workers[w].pc.Marking?
    case Throw(w) => At(s, w) && MayThrow(s.workers[w].pc)
    case Fail(w, _) => At(s, w) && s.workers[w].pc.Failing?
    case Crash(w) => At(s, w) && Live(s.workers[w])
  }

  /** The awaits inside the try block; the lookup of the earlier transaction has its own catch. */
  predicate MayThrow(pc: Pc) { pc.Deciding? || pc.Releasing? || pc.Recording? || pc.Marking? }

  function NewWorker(s: State, id: RowId, leaseSeconds: nat): Worker
    requires id in s.rows
  {
    var row := s.rows[id];
    Worker(id, s.now + 1000 * leaseSeconds,
           if row.anchorTxHash.Some? then Looking(row.anchorTxHash.value) else Deciding,
           row.state.Anchoring?, Busy(s.workers, id), RecordedProof(s, id),
           false, false, false, None)
  }

  /** The hash in the row is that of a proof. */
  predicate RecordedProof(s: State, id: RowId) {
    && id in s.rows && s.rows[id].anchorTxHash.Some?
    && s.rows[id].anchorTxHash.value < |s.chain| && IsProof(s.chain[s.rows[id].anchorTxHash.value])
  }

  /** The call a step moves, if any. */
  function Actor(e: Event): Option<nat> {
    match e
    case Wait(_) => None
    case Accept(_, _) => None
    case Claim(_, _) => None
    case LookUp(w, _) => Some(w)
    case SeeLowBalance(w) => Some(w)
    case Release(w, _, _) => Some(w)
    case Send(w, _, _) => Some(w)
    case Record(w, _) => Some(w)
    case Receive(w, _) => Some(w)
    case Mark(w, _) => Some(w)
    case Throw(w) => Some(w)
    case Fail(w, _) => Some(w)
    case Crash(w) => Some(w)
  }

  /** What a reader of transaction `tx` is told, when it is told anything. */
  function Answer(s: State, w: Worker, answered: bool): Lookup
    requires w.id in s.rows
    requires (w.pc.Looking? || w.pc.Awaiting?) && w.pc.tx < |s.chain|
  {
    var content := s.rows[w.id].content;
    if answered then FindAnchorLog(s.chain[w.pc.tx], content.contract, content.digest) else Throws
  }

  /** The acting call after a step: where `anchorDeclaration` goes next. */
  function WorkerAfter(s: State, e: Event): Worker
    requires Enabled(s, e) && Actor(e).Some?
  {
    var w := s.workers[Actor(e).value];
    match e
    case LookUp(_, answered) =>
      (match Answer(s, w, answered)
       case Throws => w.(pc := Deciding, lookupFailed := true)
       case IsReverted => w.(pc := Deciding)
       case Located(found) => w.(pc := Marking(w.pc.tx, found)))
    case SeeLowBalance(_) => w.(pc := Releasing)
    case Release(_, _, replied) =>
      w.(pc := if replied then Returned(OutPaused) else Failing, released := s.rows[w.id].state.Anchoring?)
    case Send(_, _, replied) =>
      w.(pc := if replied then Recording(|s.chain|) else Failing, hashLost := !replied, sent := Some(|s.chain|))
    case Record(_, replied) => w.(pc := if replied then Awaiting(w.pc.tx) else Failing)
    case Receive(_, answered) =>
      (match Answer(s, w, answered)
       case Throws => w.(pc := Failing)
       case IsReverted => w.(pc := Failing)
       case Located(found) => w.(pc := Marking(w.pc.tx, found)))
    case Mark(_, replied) => w.(pc := if replied then Returned(OutAnchored(w.pc.tx, w.pc.found)) else Failing)
    case Throw(_) => w.(pc := Failing, hashLost := w.hashLost || w.pc.Recording?)
    case Fail(_, _) =>
      var result := if s.rows[w.id].state.Anchoring? then Some(RowAfter(s, e).state) else None;
      w.(pc := Returned(OutAttempt(result)))
    case Crash(_) => w.(pc := Crashed, hashLost := w.hashLost || w.pc.Recording?)
  }

  /** The row of the acting call after a step. */
  function RowAfter(s: State, e: Event): Row
    requires Enabled(s, e) && Actor(e).Some?
  {
    var w := s.workers[Actor(e).value];
    var row := s.rows[w.id];
    if e.Release? then WithRelease(row, e.reason)
    else if e.Record? then WithSentTx(row, w.pc.tx)
    else if e.Mark? then WithAnchor(row, w.pc.tx, w.pc.found, s.now)
    else if e.Fail? then WithFailure(row, e.error, s.maxAttempts)
    else row
  }

  function Next(s: State, e: Event): State
    requires Enabled(s, e)
  {
    if e.Wait? then s.(now := s.now + e.millis)
    else if e.Accept? then s.(rows := s.rows[e.id := NewRow(e.content)])
    else if e.Claim? then
      s.(rows := s.rows[e.id := Claimed(s.rows[e.id], s.now, e.leaseSeconds)],
         workers := s.workers + [NewWorker(s, e.id, e.leaseSeconds)])
    else
      var i := Actor(e).value;
      var id := s.workers[i].id;
      State(s.now, s.maxAttempts, s.rows[id := RowAfter(s, e)], s.workers[i := WorkerAfter(s, e)],
            if e.Send? then s.chain + [Tx(id, CallFor(s.rows[id].content), e.fate)] else s.chain)
  }

  /** `es` is a run from `s` to `t`. */
  ghost predicate Run(s: State, es: seq<Event>, t: State)
    decreases |es|
  {
    if es == [] then s == t else Enabled(s, es[0]) && Run(Next(s, es[0]), es[1..], t)
  }

  lemma {:induction false} RunAppend(s: State, es: seq<Event>, t: State, fs: seq<Event>, u: State)
    requires Run(s, es, t) && Run(t, fs, u)
    ensures Run(s, es + fs, u)
    decreases |es|
  {
    if es == [] {
      assert es + fs == fs;
    } else {
      RunAppend(Next(s, es[0]), es[1..], t, fs, u);
      assert (es + fs)[1..] == es[1..] + fs;
    }
  }

  lemma RunStep(s: State, es: seq<Event>, t: State, e: Event)
    requires Run(s, es, t) && Enabled(t, e)
    ensures Run(s, es + [e], Next(t, e))
  {
    assert [e][1..] == [];
    RunAppend(s, es, t, [e], Next(t, e));
  }

  // ---------------------------------------------------------------- what every state keeps

  predicate TxOf(s: State, tx: TxHash, id: RowId) { tx < |s.chain| && s.chain[tx].id == id }

  predicate RowTrue(s: State, id: RowId)
    requires id in s.rows
  {
    var row := s.rows[id];
    && (row.anchorTxHash.Some? ==> TxOf(s, row.anchorTxHash.value, id))
    && (row.state.Anchoring? ==> row.leaseUntil.Some?)
    && (row.state.Anchored? ==>
        && row.anchorTxHash.Some? && row.anchor.Some?
        && FindAnchorLog(s.chain[row.anchorTxHash.value], row.content.contract, row.content.digest)
           == Located(row.anchor.value))
  }

  predicate WorkerTrue(s: State, w: Worker) {
    && w.id in s.rows
    && (w.pc.Looking? || w.pc.Recording? || w.pc.Awaiting? || w.pc.Marking? ==> TxOf(s, w.pc.tx, w.id))
    && (w.pc.Marking? ==>
        FindAnchorLog(s.chain[w.pc.tx], s.rows[w.id].content.contract, s.rows[w.id].content.digest)
        == Located(w.pc.found))
    && (w.sent.Some? ==> TxOf(s, w.sent.value, w.id) && !w.released)
    && (w.pc.Looking? || w.pc.Deciding? || w.pc.Releasing? ==> w.sent.None? && !w.released && !w.hashLost)
    && (w.pc.Looking? ==> !w.lookupFailed)
    && (w.pc.Recording? ==> !w.hashLost)
    && (w.pc.Looking? && w.knewProof ==> IsProof(s.chain[w.pc.tx]))
    && (w.pc.Deciding? || w.pc.Releasing? ==> !w.knewProof || w.overlapped || w.lookupFailed)
  }

  predicate TxTrue(s: State, tx: Tx) {
    && tx.id in s.rows && Sendable(s.rows[tx.id].content)
    && tx.call == CallFor(s.rows[tx.id].content)
  }

  ghost predicate Sound(s: State) {
    && (forall id :: id in s.rows ==> RowTrue(s, id))
    && (forall i :: 0 <= i < |s.workers| ==> WorkerTrue(s, s.workers[i]))
    && (forall t :: 0 <= t < |s.chain| ==> TxTrue(s, s.chain[t]))
    && Unique(s.rows)
  }

  /** No step takes away a row, a transaction, or what a row says about its declaration. */
  predicate Extends(s: State, t: State) {
    && s.maxAttempts == t.maxAttempts && s.now <= t.now
    && |s.chain| <= |t.chain| && s.chain == t.chain[..|s.chain|]
    && (forall id :: id in s.rows ==> id in t.rows && t.rows[id].content == s.rows[id].content)
  }

  lemma StepExtends(s: State, e: Event)
    requires Enabled(s, e)
    ensures Extends(s, Next(s, e))
  {
  }

  /** Facts about a worker survive any step of another worker. */
  lemma WorkerStaysTrue(s: State, t: State, w: Worker)
    requires Extends(s, t) && WorkerTrue(s, w)
    ensures WorkerTrue(t, w)
  {
    if w.pc.Looking? || w.pc.Recording? || w.pc.Awaiting? || w.pc.Marking? {
      assert t.chain[w.pc.tx] == s.chain[w.pc.tx];
    }
    if w.sent.Some? {
      assert t.chain[w.sent.value] == s.chain[w.sent.value];
    }
  }

  lemma RowStaysTrue(s: State, t: State, id: RowId)
    requires Extends(s, t) && id in s.rows && RowTrue(s, id) && t.rows[id] == s.rows[id]
    ensures RowTrue(t, id)
  {
    if s.rows[id].anchorTxHash.Some? {
      assert t.chain[s.rows[id].anchorTxHash.value] == s.chain[s.rows[id].anchorTxHash.value];
    }
  }

  lemma TxStaysTrue(s: State, t: State, tx: Tx)
    requires Extends(s, t) && TxTrue(s, tx)
    ensures TxTrue(t, tx)
  {
  }
}
