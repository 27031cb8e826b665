/** From an accepted submission to a verified receipt. */
module EndToEnd {
  import opened Bytes
  import opened Outcomes
  import opened Json
  import CanonicalJson
  import opened Eip712
  import opened Erc8263
  import opened Submissions
  import opened Store
  import opened AnchorProtocol
  import AnchorSafety
  import Metadata
  import Verifier
  import Accept
  import opened Receipts

  // ---------------------------------------------------------------- what is assumed of the chain

  /** The event the contract emits for a call. */
  predicate EmittedFor(log: Log, call: Call) {
    && log.address == call.contract
    && |log.topics| == 4 && log.topics[0] == TOPIC0 && log.topics[1] == call.agentId && log.topics[2] == call.digest
    && log.data == Some(EventData(call.agentIdScheme, call.aux))
    && log.blockNumber.Some? && log.logIndex.Some? && log.transactionHash.Some?
  }

  /** AnchorProof events of the contract called carry the arguments of the call; log indexes are unique. */
  predicate Faithful(tx: Tx) {
    tx.fate.Succeeded? ==>
      && (forall l :: l in tx.fate.logs && l.address == tx.call.contract && l.topics != [] && l.topics[0] == TOPIC0
            ==> EmittedFor(l, tx.call))
      && (forall l, m :: l in tx.fate.logs && m in tx.fate.logs && l.logIndex.Some? && l.logIndex == m.logIndex
            ==> l == m)
  }

  /** A client that sees the chain of the protocol. */
  function ClientOf(chainId: nat, chain: seq<Tx>): Client {
    Client(chainId, (h: TxHash) => if h < |chain| then ReceiptOf(chain[h]) else None)
  }

  function ReceiptOf(tx: Tx): Option<TxReceipt> {
    match tx.fate
    case NeverMined => None
    case Reverted => Some(TxReceipt(false, [], 0))
    case Succeeded(_, blockTime, logs) => Some(TxReceipt(true, logs, blockTime))
  }

  // ---------------------------------------------------------------- each stage

  /** The event of an anchoring call carries the digest and the signature. */
  lemma EventCarriesProof(c: Verifier.Crypto, in_: Verifier.Input, ev: AnchorEvent, digest: Word, call: Call)
    requires EmittedFor(in_.log, call) && DecodeAnchorLog(in_.log) == Ok(ev)
    requires call.digest == digest && EncodeSingleAux(in_.signature) == Ok(call.aux)
    ensures DecodeAux(ev.aux) == Ok(Single(in_.signature))
    ensures Verifier.DigestAnchored(c, in_, ev, Single(in_.signature), digest)
  {
    AuxRoundTrip(call.aux, Single(in_.signature));
  }

  /** A log emitted for the call of an accepted declaration verifies, whatever block it is in. */
  lemma EmittedLogVerifies(c: Verifier.Crypto, in_: Verifier.Input, digest: Word, call: Call)
    requires DomainOk(in_.domain) && Acceptable(in_.declaration) && Encodable(in_.declaration)
    requires digest == DeclarationDigest(c.keccak, in_.domain, in_.declaration)
    requires RecoverDeclarationSigner(c.recover, digest, in_.signature) == Ok(in_.declaration.agent)
    requires EmittedFor(in_.log, call) && EncodeSingleAux(in_.signature) == Ok(call.aux)
    requires call.contract == in_.domain.verifyingContract && call.digest == digest
    requires call.agentIdScheme == Verifier.URI_HASH
    requires call.agentId == AgentIdForKey(c.keccak, in_.domain.chainId, in_.declaration.agent)
    requires in_.content.Some? ==> c.sha256(in_.content.value) == in_.declaration.contentHash
    ensures Verifier.Verifies(c, in_)
  {
    var ev := DecodeAnchorLog(in_.log).value;
    EventCarriesProof(c, in_, ev, digest, call);
    AgentIdIsRight(c, in_, ev, digest, call);
    Assembled(c, in_, ev, Single(in_.signature), digest);
  }

  lemma AgentIdIsRight(c: Verifier.Crypto, in_: Verifier.Input, ev: AnchorEvent, digest: Word, call: Call)
    requires EmittedFor(in_.log, call) && DecodeAnchorLog(in_.log) == Ok(ev)
    requires RecoverDeclarationSigner(c.recover, digest, in_.signature) == Ok(in_.declaration.agent)
    requires call.agentIdScheme == Verifier.URI_HASH
    requires call.agentId == AgentIdForKey(c.keccak, in_.domain.chainId, in_.declaration.agent)
    requires in_.content.Some? ==> c.sha256(in_.content.value) == in_.declaration.contentHash
    ensures Verifier.SignerHolds(c, in_, ev, Single(in_.signature), digest)
  {
  }

  lemma Assembled(c: Verifier.Crypto, in_: Verifier.Input, ev: AnchorEvent, aux: Aux, digest: Word)
    requires DomainOk(in_.domain) && Acceptable(in_.declaration) && Encodable(in_.declaration)
    requires DecodeAnchorLog(in_.log) == Ok(ev) && ev.contract == in_.domain.verifyingContract
    requires DecodeAux(ev.aux) == Ok(aux)
    requires digest == DeclarationDigest(c.keccak, in_.domain, in_.declaration)
    requires Verifier.DigestAnchored(c, in_, ev, aux, digest) && Verifier.SignerHolds(c, in_, ev, aux, digest)
    ensures Verifier.Verifies(c, in_)
  {
  }

  /** What the row of an accepted submission says, apart from its digest. */
  predicate KeptFrom(cfg: Accept.V2Config, s: Submission, content: Content)
    requires Accept.Configured(cfg) && Encodable(ToDeclaration(s.declaration))
  {
    && content.declaration == Stored(s.declaration) && content.signature == s.signature
    && content.chainId == cfg.chainId && content.contract == cfg.contract.value
    && content.agentIdScheme == Verifier.URI_HASH
  }

  lemma ContentIsKept(cfg: Accept.V2Config, c: Verifier.Crypto, s: Submission, createdAt: int, content: Content)
    requires Accept.Configured(cfg) && Encodable(ToDeclaration(s.declaration))
    requires content == Accept.ContentOf(cfg, c, s, createdAt)
    ensures KeptFrom(cfg, s, content) && content.digest == Accept.DigestOf(cfg, c.keccak, s)
    ensures content.agentId == AgentIdForKey(c.keccak, cfg.chainId, s.declaration.agent)
    ensures content.metadata == s.metadata
  {
  }

  /** The receipt of a row gives back the declaration that was signed. */
  lemma ReceiptGivesBack(cfg: Accept.V2Config, s: Submission, id: RowId, row: Row)
    requires Accept.Configured(cfg) && Encodable(ToDeclaration(s.declaration)) && KeptFrom(cfg, s, row.content)
    requires row.state.Anchored? && row.anchorTxHash.Some? && row.anchor.Some?
    ensures ParseReceipt(ToReceipt(id, row))
            == Ok(Parsed(ToDeclaration(s.declaration), s.signature, Accept.DomainFor(cfg),
                         Some(Locator(row.anchorTxHash.value, row.anchor.value.logIndex))))
  {
    StoredRoundTrip(s.declaration);
  }

  lemma LocatedLog(logs: seq<Log>, log: Log)
    requires log in logs && log.logIndex.Some?
    requires forall l, m :: l in logs && m in logs && l.logIndex.Some? && l.logIndex == m.logIndex ==> l == m
    ensures LogAt(logs, log.logIndex.value) == Some(log)
  {
  }

  lemma AnchoredLogVerifies(cfg: Accept.V2Config, c: Verifier.Crypto, s: Submission, at: int, content: Content,
                            call: Call, in_: Verifier.Input)
    requires Accept.Admissible(cfg, c, s, at)
    requires KeptFrom(cfg, s, content) && content.digest == Accept.DigestOf(cfg, c.keccak, s)
    requires content.agentId == AgentIdForKey(c.keccak, cfg.chainId, s.declaration.agent)
    requires Sendable(content) && call == CallFor(content) && EmittedFor(in_.log, call)
    requires in_.declaration == ToDeclaration(s.declaration) && in_.signature == s.signature
    requires in_.domain == Accept.DomainFor(cfg)
    requires in_.content.Some? ==> c.sha256(in_.content.value) == s.declaration.contentHash
    ensures Verifier.Verifies(c, in_)
  {
    EmittedLogVerifies(c, in_, Accept.DigestOf(cfg, c.keccak, s), call);
  }

  /** Where the receipt of an anchored row points: to an event emitted for that row. */
  lemma ReceiptPointsAtEvent(now: int, maxAttempts: int, es: seq<Event>, t: State, id: RowId) returns (tx: Tx, log: Log)
    requires Run(AnchorProtocol.Initial(now, maxAttempts), es, t)
    requires forall k :: 0 <= k < |t.chain| ==> Faithful(t.chain[k])
    requires id in t.rows && t.rows[id].state.Anchored?
    ensures t.rows[id].anchorTxHash.Some? && t.rows[id].anchor.Some? && Sendable(t.rows[id].content)
    ensures t.rows[id].anchorTxHash.value < |t.chain| && tx == t.chain[t.rows[id].anchorTxHash.value]
    ensures tx.fate.Succeeded? && tx.call == CallFor(t.rows[id].content) && EmittedFor(log, tx.call)
    ensures LogAt(tx.fate.logs, t.rows[id].anchor.value.logIndex) == Some(log)
  {
    var row := t.rows[id];
    AnchorSafety.AnchoredRowsAreTrue(now, maxAttempts, es, t, id);
    tx := t.chain[row.anchorTxHash.value];
    log :| log in tx.fate.logs && IsAnchorLog(log, row.content.contract, row.content.digest)
           && log.logIndex == Some(row.anchor.value.logIndex);
    assert Faithful(tx);
    LocatedLog(tx.fate.logs, log);
  }

  lemma PartsVerify(c: Verifier.Crypto, r: Receipt, client: Client, content: Option<Bytes>,
                    p: Parsed, tx: TxReceipt, log: Log)
    requires ParseReceipt(r) == Ok(p) && p.locator.Some? && client.chainId == p.domain.chainId
    requires client.receipts(p.locator.value.transactionHash) == Some(tx)
    requires tx.success && LogAt(tx.logs, p.locator.value.logIndex) == Some(log)
    requires Verifier.Verifies(c, InputFor(RestOf(p, content), tx, log))
    ensures ReceiptVerifies(c, r, client, content)
  {
  }

  /** The receipt of one anchored row, over a client that knows its transaction. */
  lemma RowReceiptVerifies(cfg: Accept.V2Config, c: Verifier.Crypto, s: Submission, at: int, id: RowId, row: Row,
                           client: Client, tx: Tx, log: Log, content: Option<Bytes>)
    requires Accept.Admissible(cfg, c, s, at)
    requires KeptFrom(cfg, s, row.content) && row.content.digest == Accept.DigestOf(cfg, c.keccak, s)
    requires row.content.agentId == AgentIdForKey(c.keccak, cfg.chainId, s.declaration.agent)
    requires row.state.Anchored? && row.anchorTxHash.Some? && row.anchor.Some? && Sendable(row.content)
    requires tx.fate.Succeeded? && tx.call == CallFor(row.content) && EmittedFor(log, tx.call)
    requires LogAt(tx.fate.logs, row.anchor.value.logIndex) == Some(log)
    requires client.chainId == cfg.chainId && client.receipts(row.anchorTxHash.value) == ReceiptOf(tx)
    requires content.Some? ==> c.sha256(content.value) == s.declaration.contentHash
    ensures ReceiptVerifies(c, ToReceipt(id, row), client, content)
  {
    ReceiptGivesBack(cfg, s, id, row);
    var p := ParseReceipt(ToReceipt(id, row)).value;
    AnchoredLogVerifies(cfg, c, s, at, row.content, tx.call, InputFor(RestOf(p, content), ReceiptOf(tx).value, log));
    PartsVerify(c, ToReceipt(id, row), client, content, p, ReceiptOf(tx).value, log);
  }

  /**
   * Whatever is accepted and then anchored can be verified: in every run of the anchoring protocol
   * over a faithful chain, the receipt of an anchored row that holds an admissible submission parses
   * to the submitted declaration and verifies from chain data alone, with the content or without it.
   */
  lemma AcceptedAndAnchoredVerifies(
    cfg: Accept.V2Config, c: Verifier.Crypto, s: Submission, at: int, createdAt: int,
    now: int, maxAttempts: int, es: seq<Event>, t: State, id: RowId, content: Option<Bytes>)
    requires Accept.Admissible(cfg, c, s, at)
    requires Run(AnchorProtocol.Initial(now, maxAttempts), es, t)
    requires forall k :: 0 <= k < |t.chain| ==> Faithful(t.chain[k])
    requires id in t.rows && t.rows[id].state.Anchored?
    requires t.rows[id].content == Accept.ContentOf(cfg, c, s, createdAt)
    requires content.Some? ==> c.sha256(content.value) == s.declaration.contentHash
    ensures ReceiptVerifies(c, ToReceipt(id, t.rows[id]), ClientOf(cfg.chainId, t.chain), content)
  {
    var row := t.rows[id];
    var tx, log := ReceiptPointsAtEvent(now, maxAttempts, es, t, id);
    ContentIsKept(cfg, c, s, createdAt, row.content);
    RowReceiptVerifies(cfg, c, s, at, id, row, ClientOf(cfg.chainId, t.chain), tx, log, content);
  }

  /**
   * What the receipt of an admissible submission says besides: the digest that was signed, the state of
   * the row, the metadata as stored; and once the row is anchored, where, when and under which agent id,
   * as the event itself and its block tell.
   */
  lemma ReceiptTellsTruth(
    cfg: Accept.V2Config, c: Verifier.Crypto, s: Submission, at: int, createdAt: int,
    now: int, maxAttempts: int, es: seq<Event>, t: State, id: RowId)
    returns (log: Log)
    requires Accept.Admissible(cfg, c, s, at)
    requires Run(AnchorProtocol.Initial(now, maxAttempts), es, t)
    requires forall k :: 0 <= k < |t.chain| ==> Faithful(t.chain[k])
    requires id in t.rows && t.rows[id].content == Accept.ContentOf(cfg, c, s, createdAt)
    ensures var r := ToReceipt(id, t.rows[id]);
      && r.id == id && r.state == t.rows[id].state && r.metadata == s.metadata && r.signature == s.signature
      && r.digest == DeclarationDigest(c.keccak, Accept.DomainFor(cfg), ToDeclaration(s.declaration))
      && (r.anchor.Some? <==> t.rows[id].state.Anchored?)
      && (r.anchor.Some? ==>
          && r.anchor.value.transactionHash < |t.chain|
          && AnchorTells(r.anchor.value, cfg, c, s, r.digest, t.chain[r.anchor.value.transactionHash], log))
  {
    ContentIsKept(cfg, c, s, createdAt, t.rows[id].content);
    log := Log([], [], None, None, None, None);
    if t.rows[id].state.Anchored? {
      var tx;
      tx, log := ReceiptPointsAtEvent(now, maxAttempts, es, t, id);
      AnchorSafety.AnchoredRowsAreTrue(now, maxAttempts, es, t, id);
    }
  }

  /** The anchor of a receipt describes this event of this transaction, and the signer's account. */
  predicate AnchorTells(a: AnchorFields, cfg: Accept.V2Config, c: Verifier.Crypto, s: Submission, digest: Bytes,
                        tx: Tx, log: Log)
    requires Accept.Configured(cfg)
  {
    && tx.fate.Succeeded? && log in tx.fate.logs && log.logIndex == Some(a.logIndex)
    && a.block == Some(tx.fate.block) && a.blockTime == Some(tx.fate.blockTime)
    && a.chainId == cfg.chainId && a.contract == cfg.contract.value == log.address
    && |log.topics| == 4 && log.topics[1] == a.agentId && log.topics[2] == digest
    && log.data.Some? && log.data.value.agentIdScheme == a.agentIdScheme == Verifier.URI_HASH
    && a.agentId == AgentIdForKey(c.keccak, cfg.chainId, s.declaration.agent)
  }

  /** The metadata in a receipt still hashes to what was signed, however storage has reordered its members. */
  lemma ReceiptMetadataStillMatches(cfg: Accept.V2Config, c: Verifier.Crypto, s: Submission, at: int, id: RowId, row: Row)
    requires Accept.Admissible(cfg, c, s, at)
    requires row.content.metadata.Some? <==> s.metadata.Some?
    requires s.metadata.Some? ==>
      && ValidMembers(row.content.metadata.value) && FiniteMembers(row.content.metadata.value)
      && CanonicalJson.Same(Obj(row.content.metadata.value), Obj(s.metadata.value))
    ensures ToReceipt(id, row).metadata.Some?
            ==> Metadata.MetadataHash(c.sha256, ToReceipt(id, row).metadata) == Ok(s.declaration.metadataHash)
  {
    if s.metadata.Some? && row.content.metadata.value.Member? && s.metadata.value.Member? {
      Metadata.MetadataCommitment(c.sha256, row.content.metadata.value, s.metadata.value);
    }
  }
}
