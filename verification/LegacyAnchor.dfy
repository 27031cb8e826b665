/**
 * Anchoring of version 1 records: an atomic claim without a lease. Any number of calls of
 * `anchorRecord`, retries, crashes and late "failed" marks, interleaved at every await.
 */
module LegacyAnchor {
  import opened Outcomes

  type RecordId = nat
  type TxId = nat

  datatype AnchorState = PendingAnchor | Anchoring | Anchored | AnchorFailed

  datatype Record = Record(state: AnchorState, anchorTxHash: Option<TxId>)

  /** `succeeded` is the status of the receipt, which this version does not look at. */
  datatype Tx = Tx(id: RecordId, succeeded: bool)

  datatype Result = Returned(tx: TxId) | Threw

  /** A call that read its record; `seen` is what it read. */
  datatype Pc = Claiming(seen: Record) | Sending | Waiting(tx: TxId) | Storing(tx: TxId) | Finished(result: Result) | Dead

  datatype Worker = Worker(id: RecordId, pc: Pc)

  datatype State = State(records: map<RecordId, Record>, workers: seq<Worker>, chain: seq<Tx>)

  datatype Event =
    | Create(id: RecordId)
    | Read(id: RecordId)
    | Step(w: nat, succeeded: bool)
    | Throw(w: nat, out: Option<bool>)   // an await throws; a transaction, with its fate, may be out nevertheless
    | Die(w: nat)
    | MarkFailed(id: RecordId)       // all retries of a job are used up

  predicate Active(w: Worker) { !w.pc.Finished? && !w.pc.Dead? }

  predicate Enabled(s: State, e: Event) {
    match e
    case Create(id) => id !in s.records
    case Read(id) => id in s.records
    case Step(w, _) => w < |s.workers| && Active(s.workers[w]) && s.workers[w].id in s.records
    case Throw(w, out) => w < |s.workers| && Active(s.workers[w]) && (out.Some? ==> s.workers[w].pc.Sending?)
    case Die(w) => w < |s.workers| && Active(s.workers[w])
    case MarkFailed(id) => id in s.records
  }

  /** What a call does after its first read. */
  function FirstPc(r: Record): Pc {
    if r.state.Anchored? && r.anchorTxHash.Some? then Finished(Returned(r.anchorTxHash.value)) else Claiming(r)
  }

  /** Where a call goes when its claim takes effect on the row as it is now. */
  function AfterClaim(seen: Record, now: Record): Pc {
    if now.state.PendingAnchor? then Sending
    else if !seen.state.Anchored? then
      Finished(if seen.anchorTxHash.Some? then Returned(seen.anchorTxHash.value) else Threw)
    else Sending
  }

  function PcAfter(s: State, w: Worker): Pc
    requires w.id in s.records
  {
    match w.pc
    case Claiming(seen) => AfterClaim(seen, s.records[w.id])
    case Sending => Waiting(|s.chain|)
    case Waiting(tx) => Storing(tx)
    case Storing(tx) => Finished(Returned(tx))
    case Finished(_) => w.pc
    case Dead => w.pc
  }

  function RecordAfter(r: Record, pc: Pc): Record {
    match pc
    case Claiming(_) => if r.state.PendingAnchor? then r.(state := Anchoring) else r
    case Storing(tx) => Record(Anchored, Some(tx))
    case _ => r
  }

  function Next(s: State, e: Event): State
    requires Enabled(s, e)
  {
    match e
    case Create(id) => s.(records := s.records[id := Record(PendingAnchor, None)])
    case Read(id) => s.(workers := s.workers + [Worker(id, FirstPc(s.records[id]))])
    case MarkFailed(id) => s.(records := s.records[id := s.records[id].(state := AnchorFailed)])
    case Die(w) => s.(workers := s.workers[w := s.workers[w].(pc := Dead)])
    case Throw(w, out) =>
      State(s.records, s.workers[w := s.workers[w].(pc := Finished(Threw))],
            if out.Some? then s.chain + [Tx(s.workers[w].id, out.value)] else s.chain)
    case Step(w, succeeded) =>
      var worker := s.workers[w];
      State(s.records[worker.id := RecordAfter(s.records[worker.id], worker.pc)],
            s.workers[w := worker.(pc := PcAfter(s, worker))],
            if worker.pc.Sending? then s.chain + [Tx(worker.id, succeeded)] else s.chain)
  }

  const INITIAL := State(map[], [], [])

  ghost predicate Run(s: State, es: seq<Event>, t: State)
    decreases |es|
  {
    if es == [] then s == t else Enabled(s, es[0]) && Run(Next(s, es[0]), es[1..], t)
  }

  // ---------------------------------------------------------------- at most one transaction

  function Sends(chain: seq<Tx>, id: RecordId): nat {
    if chain == [] then 0
    else Sends(chain[..|chain| - 1], id) + if chain[|chain| - 1].id == id then 1 else 0
  }

  /** The call may still send: it has claimed the record, and nobody else can have. */
  function MaySend(w: Worker, id: RecordId): nat { if w.id == id && w.pc.Sending? then 1 else 0 }

  function Senders(ws: seq<Worker>, id: RecordId): nat {
    if ws == [] then 0 else Senders(ws[..|ws| - 1], id) + MaySend(ws[|ws| - 1], id)
  }

  lemma SendsAppend(chain: seq<Tx>, tx: Tx, id: RecordId)
    ensures Sends(chain + [tx], id) == Sends(chain, id) + if tx.id == id then 1 else 0
  {
    assert (chain + [tx])[..|chain|] == chain;
  }

  lemma SendersAppend(ws: seq<Worker>, w: Worker, id: RecordId)
    ensures Senders(ws + [w], id) == Senders(ws, id) + MaySend(w, id)
  {
    assert (ws + [w])[..|ws|] == ws;
  }

  lemma {:induction false} SendersUpdate(ws: seq<Worker>, i: nat, w: Worker, id: RecordId)
    requires i < |ws|
    ensures Senders(ws[i := w], id) == Senders(ws, id) - MaySend(ws[i], id) + MaySend(w, id)
  {
    var n := |ws| - 1;
    if i < n {
      SendersUpdate(ws[..n], i, w, id);
      assert ws[i := w][..n] == ws[..n][i := w];
    } else {
      assert ws[i := w][..n] == ws[..n];
    }
  }

  /** How many transactions a record can still get: one until it is claimed, then none besides the claimant's. */
  function Budget(s: State, id: RecordId): nat {
    Sends(s.chain, id) + Senders(s.workers, id)
    + if id !in s.records || s.records[id].state.PendingAnchor? then 1 else 0
  }

  /** Once anchored, always with a transaction; and hashes name transactions sent for the record. */
  ghost predicate Sound(s: State) {
    && (forall id :: id in s.records ==> RecordTrue(s, s.records[id], id))
    && (forall w :: 0 <= w < |s.workers| ==> WorkerTrue(s, s.workers[w]))
  }

  predicate RecordTrue(s: State, r: Record, id: RecordId) {
    && (r.state.Anchored? ==> r.anchorTxHash.Some?)
    && (r.anchorTxHash.Some? ==> r.anchorTxHash.value < |s.chain| && s.chain[r.anchorTxHash.value].id == id)
  }

  predicate WorkerTrue(s: State, w: Worker) {
    && (w.pc.Claiming? ==> !w.pc.seen.state.Anchored? && RecordTrue(s, w.pc.seen, w.id))
    && (w.pc.Waiting? || w.pc.Storing? ==> w.pc.tx < |s.chain| && s.chain[w.pc.tx].id == w.id)
    && (w.pc.Finished? && w.pc.result.Returned? ==>
        w.pc.result.tx < |s.chain| && s.chain[w.pc.result.tx].id == w.id)
  }

  predicate ChainGrows(s: State, t: State) { |s.chain| <= |t.chain| && t.chain[..|s.chain|] == s.chain }

  lemma StaysTrue(s: State, t: State, r: Record, id: RecordId, w: Worker)
    requires ChainGrows(s, t)
    ensures RecordTrue(s, r, id) ==> RecordTrue(t, r, id)
    ensures WorkerTrue(s, w) ==> WorkerTrue(t, w)
  {
    assert forall k :: 0 <= k < |s.chain| ==> t.chain[k] == t.chain[..|s.chain|][k];
  }

  lemma StepperStaysTrue(s: State, w: nat, succeeded: bool)
    requires Sound(s) && Enabled(s, Step(w, succeeded))
    ensures ChainGrows(s, Next(s, Step(w, succeeded)))
    ensures WorkerTrue(Next(s, Step(w, succeeded)), Next(s, Step(w, succeeded)).workers[w])
    ensures RecordTrue(Next(s, Step(w, succeeded)), Next(s, Step(w, succeeded)).records[s.workers[w].id], s.workers[w].id)
  {
    var t, worker := Next(s, Step(w, succeeded)), s.workers[w];
    assert RecordTrue(s, s.records[worker.id], worker.id) && WorkerTrue(s, worker);
    StaysTrue(s, t, RecordAfter(s.records[worker.id], worker.pc), worker.id, worker);
    if worker.pc.Claiming? {
      StaysTrue(s, t, worker.pc.seen, worker.id, worker);
    }
  }

  lemma StepSound(s: State, e: Event)
    requires Sound(s) && Enabled(s, e)
    ensures Sound(Next(s, e)) && ChainGrows(s, Next(s, e))
  {
    var t := Next(s, e);
    forall id | id in t.records ensures RecordTrue(t, t.records[id], id) {
      if e.Step? && id == s.workers[e.w].id {
        StepperStaysTrue(s, e.w, e.succeeded);
      } else if id in s.records {
        assert RecordTrue(s, s.records[id], id);
        StaysTrue(s, t, s.records[id], id, Worker(id, Dead));
      }
    }
    forall w | 0 <= w < |t.workers| ensures WorkerTrue(t, t.workers[w]) {
      if e.Step? && w == e.w {
        StepperStaysTrue(s, e.w, e.succeeded);
      } else if w < |s.workers| {
        assert WorkerTrue(s, s.workers[w]);
        StaysTrue(s, t, Record(PendingAnchor, None), s.workers[w].id, s.workers[w]);
      } else {
        assert RecordTrue(s, s.records[e.id], e.id);
      }
    }
  }

  /** A claim takes the last chance of a record to be sent, and nothing gives it back. */
  lemma StepBudget(s: State, e: Event, id: RecordId)
    requires Sound(s) && Enabled(s, e)
    ensures Budget(Next(s, e), id) <= Budget(s, id)
  {
    match e {
      case Create(_) =>
      case Read(i) => SendersAppend(s.workers, Worker(i, FirstPc(s.records[i])), id);
      case MarkFailed(_) =>
      case Die(w) => SendersUpdate(s.workers, w, s.workers[w].(pc := Dead), id);
      case Throw(w, out) =>
        SendersUpdate(s.workers, w, s.workers[w].(pc := Finished(Threw)), id);
        if out.Some? {
          SendsAppend(s.chain, Tx(s.workers[w].id, out.value), id);
        }
      case Step(w, succeeded) =>
        assert WorkerTrue(s, s.workers[w]);
        SendersUpdate(s.workers, w, s.workers[w].(pc := PcAfter(s, s.workers[w])), id);
        SendsAppend(s.chain, Tx(s.workers[w].id, succeeded), id);
    }
  }

  lemma {:induction false} RunBudget(s: State, es: seq<Event>, t: State, id: RecordId)
    requires Sound(s) && Run(s, es, t)
    ensures Sound(t) && Budget(t, id) <= Budget(s, id)
    decreases |es|
  {
    if es == [] {
    } else {
      StepSound(s, es[0]);
      StepBudget(s, es[0], id);
      RunBudget(Next(s, es[0]), es[1..], t, id);
    }
  }

  /**
   * At most one anchoring transaction a record, over any number of workers, retries, crashes and late
   * failures; and a record that says anchored names that transaction, as does every call that returns.
   */
  lemma AtMostOneTransaction(es: seq<Event>, t: State, id: RecordId)
    requires Run(INITIAL, es, t)
    ensures Sends(t.chain, id) <= 1
    ensures id in t.records && t.records[id].state.Anchored? ==>
      t.records[id].anchorTxHash.Some? && t.records[id].anchorTxHash.value < |t.chain|
      && t.chain[t.records[id].anchorTxHash.value].id == id
    ensures forall w :: 0 <= w < |t.workers| && t.workers[w].pc.Finished? && t.workers[w].pc.result.Returned? ==>
      t.workers[w].pc.result.tx < |t.chain| && t.chain[t.workers[w].pc.result.tx].id == t.workers[w].id
  {
    RunBudget(INITIAL, es, t, id);
    assert id in t.records ==> RecordTrue(t, t.records[id], id);
    forall w | 0 <= w < |t.workers| && t.workers[w].pc.Finished? && t.workers[w].pc.result.Returned?
      ensures t.workers[w].pc.result.tx < |t.chain| && t.chain[t.workers[w].pc.result.tx].id == t.workers[w].id
    {
      assert WorkerTrue(t, t.workers[w]);
    }
  }

  // ---------------------------------------------------------------- what is given up for it

  /** No call can send for the record any more, and no hash was stored. */
  ghost predicate Orphaned(s: State, id: RecordId) {
    && id in s.records && !s.records[id].state.PendingAnchor? && s.records[id].anchorTxHash.None?
    && (forall w :: 0 <= w < |s.workers| && s.workers[w].id == id ==>
          !s.workers[w].pc.Sending? && !s.workers[w].pc.Waiting? && !s.workers[w].pc.Storing?)
  }

  /**
   * A claimant that dies leaves its record behind for good: once claimed, without a hash and without
   * a call under way, the record is never anchored, never sent again, and no retry ever returns.
   */
  lemma DeadClaimIsFinal(s: State, es: seq<Event>, t: State, id: RecordId)
    requires Sound(s) && Run(s, es, t) && Orphaned(s, id)
    ensures Orphaned(t, id) && Sends(t.chain, id) == Sends(s.chain, id) && !t.records[id].state.Anchored?
    ensures RetriesThrow(t, id, |s.workers|)
  {
    RunOrphaned(s, es, t, id, |s.workers|);
  }

  ghost predicate RetriesThrow(s: State, id: RecordId, from: nat) {
    forall w :: from <= w < |s.workers| && s.workers[w].id == id ==>
      match s.workers[w].pc
      case Claiming(seen) => !seen.state.Anchored? && seen.anchorTxHash.None?
      case Finished(result) => result.Threw?
      case Dead => true
      case _ => false
  }

  lemma StepOrphaned(s: State, e: Event, id: RecordId, from: nat)
    requires Sound(s) && Enabled(s, e) && Orphaned(s, id) && RetriesThrow(s, id, from)
    ensures Orphaned(Next(s, e), id) && RetriesThrow(Next(s, e), id, from)
    ensures Sends(Next(s, e).chain, id) == Sends(s.chain, id)
  {
    assert RecordTrue(s, s.records[id], id);
    if e.Step? {
      assert WorkerTrue(s, s.workers[e.w]);
      SendsAppend(s.chain, Tx(s.workers[e.w].id, e.succeeded), id);
    }
  }

  lemma {:induction false} RunOrphaned(s: State, es: seq<Event>, t: State, id: RecordId, from: nat)
    requires Sound(s) && Run(s, es, t) && Orphaned(s, id) && RetriesThrow(s, id, from)
    ensures Sound(t) && Orphaned(t, id) && RetriesThrow(t, id, from) && Sends(t.chain, id) == Sends(s.chain, id)
    ensures !t.records[id].state.Anchored?
    decreases |es|
  {
    if es == [] {
      assert RecordTrue(t, t.records[id], id);
    } else {
      StepSound(s, es[0]);
      StepOrphaned(s, es[0], id, from);
      RunOrphaned(Next(s, es[0]), es[1..], t, id, from);
    }
  }

  // ---------------------------------------------------------------- whether a retry can return

  /** Some call that starts later returns a transaction of the record. */
  ghost predicate CanReturn(s: State, id: RecordId) {
    exists es, t :: Run(s, es, t) && ReturnsSince(t, id, |s.workers|)
  }

  ghost predicate ReturnsSince(t: State, id: RecordId, from: nat) {
    exists w :: from <= w < |t.workers| && t.workers[w].id == id && t.workers[w].pc.Finished?
                && t.workers[w].pc.result.Returned?
  }

  /** From where the last call of `t` stands, it goes on undisturbed to its end. */
  lemma RunsToItsEnd(s: State, es: seq<Event>, t: State, w: nat) returns (fs: seq<Event>, u: State)
    requires Run(s, es, t) && w < |t.workers| && t.workers[w].id in t.records
    requires t.workers[w].pc.Sending? || t.workers[w].pc.Waiting? || t.workers[w].pc.Storing?
    ensures Run(s, fs, u) && |u.workers| == |t.workers| && t.workers[w].id in u.records
    ensures u.records[t.workers[w].id].state.Anchored? && u.records[t.workers[w].id].anchorTxHash.Some?
    ensures u.workers[w].id == t.workers[w].id && u.workers[w].pc.Finished? && u.workers[w].pc.result.Returned?
  {
    fs, u := es, t;
    if u.workers[w].pc.Sending? {
      RunThen(s, fs, u, Step(w, true));
      fs, u := fs + [Step(w, true)], Next(u, Step(w, true));
    }
    if u.workers[w].pc.Waiting? {
      RunThen(s, fs, u, Step(w, true));
      fs, u := fs + [Step(w, true)], Next(u, Step(w, true));
    }
    RunThen(s, fs, u, Step(w, true));
    fs, u := fs + [Step(w, true)], Next(u, Step(w, true));
  }

  /** With a stored hash, a new call returns it. */
  lemma StoredHashReturns(s: State, es: seq<Event>, t: State, id: RecordId) returns (fs: seq<Event>, u: State)
    requires Run(s, es, t) && id in t.records && t.records[id].anchorTxHash.Some? && !t.records[id].state.PendingAnchor?
    ensures Run(s, fs, u) && |u.workers| == |t.workers| + 1
    ensures u.workers[|t.workers|].id == id && u.workers[|t.workers|].pc.Finished?
            && u.workers[|t.workers|].pc.result.Returned?
  {
    var n := |t.workers|;
    RunThen(s, es, t, Read(id));
    fs, u := es + [Read(id)], Next(t, Read(id));
    if u.workers[n].pc.Claiming? {
      RunThen(s, fs, u, Step(n, true));
      fs, u := fs + [Step(n, true)], Next(u, Step(n, true));
    }
  }

  /** A pending record is claimed, sent and anchored by a new call. */
  lemma PendingReturns(s: State, es: seq<Event>, t: State, id: RecordId) returns (fs: seq<Event>, u: State)
    requires Run(s, es, t) && id in t.records && t.records[id].state.PendingAnchor?
    ensures Run(s, fs, u) && |u.workers| == |t.workers| + 1
    ensures u.workers[|t.workers|].id == id && u.workers[|t.workers|].pc.Finished?
            && u.workers[|t.workers|].pc.result.Returned?
  {
    var n := |t.workers|;
    RunThen(s, es, t, Read(id));
    fs, u := es + [Read(id)], Next(t, Read(id));
    RunThen(s, fs, u, Step(n, true));
    fs, u := fs + [Step(n, true)], Next(u, Step(n, true));
    fs, u := RunsToItsEnd(s, fs, u, n);
  }

  lemma NotOrphanedReturns(s: State, id: RecordId)
    requires id in s.records && !Orphaned(s, id)
    ensures CanReturn(s, id)
  {
    var es: seq<Event>, t := [], s;
    if s.records[id].state.PendingAnchor? {
      es, t := PendingReturns(s, es, t, id);
    } else {
      if s.records[id].anchorTxHash.None? {
        var w :| 0 <= w < |s.workers| && s.workers[w].id == id
                 && (s.workers[w].pc.Sending? || s.workers[w].pc.Waiting? || s.workers[w].pc.Storing?);
        es, t := RunsToItsEnd(s, es, t, w);
      }
      es, t := StoredHashReturns(s, es, t, id);
    }
    assert ReturnsSince(t, id, |s.workers|);
  }

  /**
   * Exactly which records are lost: some later call can still return a transaction of the record if
   * and only if it is not orphaned, that is, it is pending, or has a stored hash, or a call that
   * claimed it is still under way.
   */
  lemma RetryReturnsExactlyIfNotOrphaned(s: State, id: RecordId)
    requires Sound(s) && id in s.records
    ensures CanReturn(s, id) <==> !Orphaned(s, id)
  {
    if Orphaned(s, id) {
      forall es, t | Run(s, es, t) ensures !ReturnsSince(t, id, |s.workers|) {
        DeadClaimIsFinal(s, es, t, id);
      }
    } else {
      NotOrphanedReturns(s, id);
    }
  }

  // ---------------------------------------------------------------- what a reverted transaction leaves

  lemma {:induction false} SendsHas(chain: seq<Tx>, k: TxId, id: RecordId)
    requires k < |chain| && chain[k].id == id
    ensures Sends(chain, id) >= 1
  {
    var n := |chain| - 1;
    if k == n {
    } else {
      SendsHas(chain[..n], k, id);
    }
  }

  lemma {:induction false} OnlyOne(chain: seq<Tx>, j: TxId, k: TxId, id: RecordId)
    requires j < |chain| && k < |chain| && chain[j].id == id && chain[k].id == id && Sends(chain, id) <= 1
    ensures j == k
  {
    var n := |chain| - 1;
    if j < n && k < n {
      OnlyOne(chain[..n], j, k, id);
    } else if j < n {
      SendsHas(chain[..n], j, id);
    } else if k < n {
      SendsHas(chain[..n], k, id);
    }
  }

  lemma {:induction false} RunGrows(s: State, es: seq<Event>, t: State)
    requires Sound(s) && Run(s, es, t)
    ensures ChainGrows(s, t)
    decreases |es|
  {
    if es == [] {
    } else {
      StepSound(s, es[0]);
      RunGrows(Next(s, es[0]), es[1..], t);
      assert s.chain == t.chain[..|Next(s, es[0]).chain|][..|s.chain|];
    }
  }

  /**
   * Once the transaction of a record has reverted, in no continuation does the record get a successful
   * one, whether or not it says that it is anchored.
   */
  lemma RevertedIsFinal(es: seq<Event>, s: State, fs: seq<Event>, t: State, k: TxId)
    requires Run(INITIAL, es, s) && Run(s, fs, t) && k < |s.chain| && !s.chain[k].succeeded
    ensures forall j :: 0 <= j < |t.chain| && t.chain[j].id == s.chain[k].id ==> j == k && !t.chain[j].succeeded
  {
    var id := s.chain[k].id;
    RunBudget(INITIAL, es, s, id);
    RunGrows(s, fs, t);
    RunBudget(s, fs, t, id);
    assert t.chain[k] == t.chain[..|s.chain|][k];
    forall j | 0 <= j < |t.chain| && t.chain[j].id == id ensures j == k && !t.chain[j].succeeded {
      OnlyOne(t.chain, j, k, id);
    }
  }

  /**
   * Exactly when an anchored record tells the truth: some successful transaction was sent for it if
   * and only if the transaction it names is successful, which the receipt would have told.
   */
  lemma AnchoredIsTrueExactlyIfReceiptSucceeded(es: seq<Event>, t: State, id: RecordId)
    requires Run(INITIAL, es, t) && id in t.records && t.records[id].state.Anchored?
    ensures t.records[id].anchorTxHash.Some? && t.records[id].anchorTxHash.value < |t.chain|
    ensures (exists j :: 0 <= j < |t.chain| && t.chain[j].id == id && t.chain[j].succeeded)
            <==> t.chain[t.records[id].anchorTxHash.value].succeeded
  {
    AtMostOneTransaction(es, t, id);
    var k := t.records[id].anchorTxHash.value;
    if j :| 0 <= j < |t.chain| && t.chain[j].id == id && t.chain[j].succeeded {
      OnlyOne(t.chain, j, k, id);
    }
  }

  // ---------------------------------------------------------------- one call

  lemma {:induction false} RunThen(s: State, es: seq<Event>, t: State, e: Event)
    requires Run(s, es, t) && Enabled(t, e)
    ensures Run(s, es + [e], Next(t, e))
    decreases |es|
  {
    if es == [] {
      assert [e][1..] == [] && es + [e] == [e];
    } else {
      RunThen(Next(s, es[0]), es[1..], t, e);
      assert (es + [e])[1..] == es[1..] + [e];
    }
  }

  /** Which awaits of a call succeed; `out` is the fate of a transaction that went out although its send threw. */
  datatype Awaits = Awaits(claim: bool, send: bool, out: Option<bool>, confirm: bool, store: bool, receipt: bool)

  class Records {
    var records: map<RecordId, Record>
    var chain: seq<Tx>

    ghost function With(id: RecordId, pc: Pc): State
      reads this
    {
      State(records, [Worker(id, pc)], chain)
    }

    /** `anchorRecord`: what it does to the record and the chain, and what it returns, is a run. */
    method AnchorRecord(id: RecordId, awaits: Awaits) returns (r: Result, ghost es: seq<Event>)
      modifies this
      ensures id !in old(records) ==> r.Threw? && records == old(records) && chain == old(chain)
      ensures id in old(records) ==> Run(State(old(records), [], old(chain)), es, With(id, Finished(r)))
    {
      if id !in records { return Threw, []; }
      var existing := records[id];
      ghost var s := State(records, [], chain);
      RunThen(s, [], s, Read(id));
      es := [] + [Read(id)];
      assert Next(s, Read(id)) == With(id, FirstPc(existing));
      if existing.state.Anchored? && existing.anchorTxHash.Some? {
        return Returned(existing.anchorTxHash.value), es;
      }
      if !awaits.claim {
        es := Moves(s, es, With(id, Claiming(existing)), Throw(0, None));
        return Threw, es;
      }
      es := Moves(s, es, With(id, Claiming(existing)), Step(0, false));
      assert records[id := records[id]] == records;
      var claimed := records[id].state.PendingAnchor?;
      if claimed { records := records[id := records[id].(state := Anchoring)]; }
      if !claimed && !existing.state.Anchored? {
        return if existing.anchorTxHash.Some? then Returned(existing.anchorTxHash.value) else Threw, es;
      }
      r, es := SendAndStore(id, awaits, s, es);
    }

    method SendAndStore(id: RecordId, awaits: Awaits, ghost s: State, ghost before: seq<Event>)
      returns (r: Result, ghost es: seq<Event>)
      requires id in records && Run(s, before, With(id, Sending))
      modifies this
      ensures Run(s, es, With(id, Finished(r)))
    {
      if !awaits.send {
        es := Moves(s, before, With(id, Sending), Throw(0, awaits.out));
        if awaits.out.Some? { chain := chain + [Tx(id, awaits.out.value)]; }
        return Threw, es;
      }
      var tx := |chain|;
      es := Moves(s, before, With(id, Sending), Step(0, awaits.receipt));
      chain := chain + [Tx(id, awaits.receipt)];
      if !awaits.confirm {
        es := Moves(s, es, With(id, Waiting(tx)), Throw(0, None));
        return Threw, es;
      }
      es := Moves(s, es, With(id, Waiting(tx)), Step(0, false));
      if !awaits.store {
        es := Moves(s, es, With(id, Storing(tx)), Throw(0, None));
        return Threw, es;
      }
      es := Moves(s, es, With(id, Storing(tx)), Step(0, false));
      records := records[id := Record(Anchored, Some(tx))];
      return Returned(tx), es;
    }
  }

  /** One more step of a run with a single call, spelled out. */
  lemma Moves(s: State, es: seq<Event>, t: State, e: Event) returns (fs: seq<Event>)
    requires Run(s, es, t) && |t.workers| == 1 && (e.Step? || e.Throw?) && e.w == 0 && Enabled(t, e)
    requires t.workers[0].id in t.records
    ensures var w := t.workers[0];
      Run(s, fs,
        if e.Throw? then
          State(t.records, [Worker(w.id, Finished(Threw))], if e.out.Some? then t.chain + [Tx(w.id, e.out.value)] else t.chain)
        else
          State(if w.pc.Claiming? || w.pc.Storing? then t.records[w.id := RecordAfter(t.records[w.id], w.pc)]
                else t.records,
                [Worker(w.id, PcAfter(t, w))],
                if w.pc.Sending? then t.chain + [Tx(w.id, e.succeeded)] else t.chain))
  {
    var w := t.workers[0];
    RunThen(s, es, t, e);
    fs := es + [e];
    assert t.records[w.id := t.records[w.id]] == t.records;
    assert Next(t, e).workers == [Next(t, e).workers[0]];
  }

  /** The status of the receipt is not looked at: a record can be anchored by a reverted transaction. */
  lemma RevertedCountsAsAnchored()
    ensures exists es, t :: Run(INITIAL, es, t) && 0 in t.records && t.records[0] == Record(Anchored, Some(0))
                            && |t.chain| == 1 && !t.chain[0].succeeded
  {
    var pending, anchoring := map[0 := Record(PendingAnchor, None)], map[0 := Record(Anchoring, None)];
    RunThen(INITIAL, [], INITIAL, Create(0));
    var es := [] + [Create(0)];
    RunThen(INITIAL, es, State(pending, [], []), Read(0));
    es := es + [Read(0)];
    es := Moves(INITIAL, es, State(pending, [Worker(0, Claiming(pending[0]))], []), Step(0, false));
    assert pending[0 := Record(Anchoring, None)] == anchoring;
    es := Moves(INITIAL, es, State(anchoring, [Worker(0, Sending)], []), Step(0, false));
    assert [] + [Tx(0, false)] == [Tx(0, false)];
    es := Moves(INITIAL, es, State(anchoring, [Worker(0, Waiting(0))], [Tx(0, false)]), Step(0, false));
    es := Moves(INITIAL, es, State(anchoring, [Worker(0, Storing(0))], [Tx(0, false)]), Step(0, false));
  }
}
