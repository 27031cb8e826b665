/** Receipts: how the service makes them from a row, and how a holder verifies one from chain data alone. */
module Receipts {
  import opened Bytes
  import opened Outcomes
  import opened Json
  import opened Eip712
  import opened Erc8263
  import opened Submissions
  import opened Store
  import Merkle
  import Verifier

  /** Names that must be as given for a receipt to be one of this profile. */
  const PROFILE := "rxm-pog-v2"
  const DOMAIN_NAME := "ResExMachina PoG"
  const DOMAIN_VERSION := "2"

  datatype DomainFields = DomainFields(name: string, version: string, chainId: nat, verifyingContract: Bytes)

  datatype AnchorFields = AnchorFields(
    chainId: nat, contract: Bytes, transactionHash: TxHash, logIndex: nat, block: Option<nat>, blockTime: Option<int>,
    agentIdScheme: int, agentId: Bytes)

  /** A receipt as JSON; what the parser looks for may be missing. */
  datatype Receipt = Receipt(
    profile: string, id: RowId, digest: Bytes, state: RowState, declaration: Option<Submitted>, signature: Bytes,
    metadata: Option<Members>, domain: Option<DomainFields>, anchor: Option<AnchorFields>)

  function ToReceipt(id: RowId, row: Row): Receipt {
    var c := row.content;
    var anchored := row.state.Anchored? && row.anchorTxHash.Some? && row.anchor.Some?;
    Receipt(
      PROFILE, id, c.digest, row.state, Some(c.declaration), c.signature, c.metadata,
      Some(DomainFields(DOMAIN_NAME, DOMAIN_VERSION, c.chainId, c.contract)),
      if anchored then
        Some(AnchorFields(c.chainId, c.contract, row.anchorTxHash.value, row.anchor.value.logIndex,
                          Some(row.anchor.value.block), Some(row.anchor.value.blockTime), c.agentIdScheme, c.agentId))
      else None)
  }

  datatype Locator = Locator(transactionHash: TxHash, logIndex: nat)

  datatype Parsed = Parsed(declaration: Declaration, signature: Bytes, domain: Domain, locator: Option<Locator>)

  function ParseReceipt(r: Receipt): Result<Parsed> {
    if r.profile != PROFILE then Err("not an rxm-pog-v2 receipt (profile field)")
    else if r.declaration.None? then Err("receipt has no declaration")
    else if r.domain.None? || r.domain.value.name != DOMAIN_NAME || r.domain.value.version != DOMAIN_VERSION then
      Err("receipt has no rxm-pog-v2 domain")
    else Ok(Parsed(
      ToDeclaration(r.declaration.value), r.signature,
      Domain(r.domain.value.chainId, r.domain.value.verifyingContract),
      if r.anchor.None? then None else Some(Locator(r.anchor.value.transactionHash, r.anchor.value.logIndex))))
  }

  /** The receipt of the profile that says what was parsed, and nothing else. */
  function Bare(p: Parsed, declaration: Submitted): Receipt {
    Receipt(PROFILE, 0, [], Pending, Some(declaration), p.signature, None,
            Some(DomainFields(DOMAIN_NAME, DOMAIN_VERSION, p.domain.chainId, p.domain.verifyingContract)),
            if p.locator.None? then None
            else Some(AnchorFields(0, [], p.locator.value.transactionHash, p.locator.value.logIndex, None, None, 0, [])))
  }

  /** The parts that a verifier reads; the rest of a receipt is not trusted and not looked at. */
  function Trusted(r: Receipt): Receipt {
    Receipt(r.profile, 0, [], Pending, r.declaration, r.signature, None, r.domain,
            if r.anchor.None? then None
            else Some(AnchorFields(0, [], r.anchor.value.transactionHash, r.anchor.value.logIndex, None, None, 0, [])))
  }

  /** Exactly the receipts of the profile parse, to what their trusted parts say. */
  lemma ParsesExactly(r: Receipt, p: Parsed)
    ensures ParseReceipt(r) == Ok(p)
      <==> exists d :: ToDeclaration(d) == p.declaration && Trusted(r) == Bare(p, d)
  {
    if ParseReceipt(r) == Ok(p) {
      assert ToDeclaration(r.declaration.value) == p.declaration && Trusted(r) == Bare(p, r.declaration.value);
    }
  }

  // ---------------------------------------------------------------- verification from the chain

  datatype TxReceipt = TxReceipt(success: bool, logs: seq<Log>, blockTime: int)

  /** An RPC client: the chain it is on, and the receipts it knows; asking for another one throws. */
  datatype Client = Client(chainId: nat, receipts: TxHash -> Option<TxReceipt>)

  function LogAt(logs: seq<Log>, index: nat): (r: Option<Log>)
    ensures r.Some? ==> r.value in logs && r.value.logIndex == Some(index)
    ensures r.None? ==> forall l :: l in logs ==> l.logIndex != Some(index)
  {
    if logs == [] then None
    else if logs[0].logIndex == Some(index) then Some(logs[0])
    else LogAt(logs[1..], index)
  }

  /** Everything a verifier is given besides the log. */
  datatype Rest = Rest(
    declaration: Declaration, signature: Bytes, domain: Domain,
    merkleProof: Option<seq<Bytes>>, content: Option<Bytes>, resolver: Option<Bytes -> Option<Bytes>>)

  function InputFor(rest: Rest, tx: TxReceipt, log: Log): Verifier.Input {
    Verifier.Input(rest.declaration, rest.signature, rest.domain, log, tx.blockTime, rest.merkleProof, rest.content,
                   rest.resolver)
  }

  /** What a receipt gives a verifier, with the content when there is one. */
  function RestOf(p: Parsed, content: Option<Bytes>): Rest {
    Rest(p.declaration, p.signature, p.domain, None, content, None)
  }

  /** The transaction is a successful one of the right chain, and its log verifies. */
  ghost predicate ChainVerifies(c: Verifier.Crypto, client: Client, at: Locator, rest: Rest) {
    && client.chainId == rest.domain.chainId
    && client.receipts(at.transactionHash).Some?
    && var tx := client.receipts(at.transactionHash).value;
       && tx.success && LogAt(tx.logs, at.logIndex).Some?
       && Verifier.Verifies(c, InputFor(rest, tx, LogAt(tx.logs, at.logIndex).value))
  }

  /** The log is the event of a single anchor: of this digest and signature, by this contract. */
  predicate IsSingleAnchor(log: Log, contract: Bytes, digest: Word, signature: Bytes) {
    && log.address == contract && |log.topics| == 4 && log.topics[0] == TOPIC0 && log.topics[2] == digest
    && log.data.Some? && EncodeSingleAux(signature) == Ok(log.data.value.aux)
  }

  /** The log is the event of a batch anchor whose root the digest climbs to. */
  predicate IsBatchAnchor(H: Hasher, log: Log, contract: Bytes, digest: Word, proof: seq<Bytes>) {
    && log.address == contract && |log.topics| == 4 && log.topics[0] == TOPIC0
    && Merkle.Climb(H, Merkle.LeafHash(H, digest), proof) == log.topics[2]
    && log.data.Some? && DecodeAux(log.data.value.aux).Ok? && DecodeAux(log.data.value.aux).value.Batch?
  }

  /**
   * What a verified declaration can be relied on for: on its chain there is a successful transaction
   * with the event of its contract that anchors its digest, alone or in a batch; the key of the agent
   * made the signature over that digest; and the content, when given, is the one declared.
   */
  lemma VerifiedIsAnchored(c: Verifier.Crypto, client: Client, at: Locator, rest: Rest) returns (log: Log, digest: Word)
    requires ChainVerifies(c, client, at, rest)
    ensures client.chainId == rest.domain.chainId && DomainOk(rest.domain) && Acceptable(rest.declaration)
    ensures Encodable(rest.declaration) && digest == DeclarationDigest(c.keccak, rest.domain, rest.declaration)
    ensures client.receipts(at.transactionHash).Some?
    ensures var tx := client.receipts(at.transactionHash).value;
      tx.success && log in tx.logs && log.logIndex == Some(at.logIndex)
    ensures || IsSingleAnchor(log, rest.domain.verifyingContract, digest, rest.signature)
            || (rest.merkleProof.Some?
                && IsBatchAnchor(c.keccak, log, rest.domain.verifyingContract, digest, rest.merkleProof.value))
    ensures IsCanonicalSignature(rest.signature) && c.recover(digest, rest.signature) == Some(rest.declaration.agent)
    ensures rest.content.Some? ==> c.sha256(rest.content.value) == rest.declaration.contentHash
  {
    var tx := client.receipts(at.transactionHash).value;
    log := LogAt(tx.logs, at.logIndex).value;
    digest := DeclarationDigest(c.keccak, rest.domain, rest.declaration);
    var ev := DecodeAnchorLog(log).value;
    LogRoundTrip(log, ev);
    AuxRoundTrip(ev.aux, DecodeAux(ev.aux).value);
  }

  method VerifyLog(c: Verifier.Crypto, in_: Verifier.Input) returns (valid: Result<bool>)
    ensures valid == Ok(true) <==> Verifier.Verifies(c, in_)
    ensures valid.Err? ==> Verifier.Throws(in_)
  {
    var verdict := Verifier.VerifyDeclaration(c, in_);
    return match verdict case Err(m) => Err(m) case Ok(v) => Ok(v.valid);
  }

  method VerifyFromChain(c: Verifier.Crypto, client: Client, at: Locator, rest: Rest) returns (valid: Result<bool>)
    ensures valid == Ok(true) <==> ChainVerifies(c, client, at, rest)
    ensures valid.Err? ==> || client.receipts(at.transactionHash).None?
                           || !DomainOk(rest.domain)
                           || (rest.merkleProof.Some? && [] in rest.merkleProof.value)
  {
    if client.chainId != rest.domain.chainId { return Ok(false); }
    var receipt := client.receipts(at.transactionHash);
    if receipt.None? { return Err("transaction receipt not found"); }
    var log := LogAt(receipt.value.logs, at.logIndex);
    if log.None? { return Ok(false); }
    if !receipt.value.success { return Ok(false); }
    valid := VerifyLog(c, InputFor(rest, receipt.value, log.value));
  }

  /**
   * A member of a batch verifies from the chain alone, with the proof for its position: the anchor is
   * located in a successful transaction and holds the root of a batch with its digest.
   */
  lemma BatchMemberVerifiesFromChain(c: Verifier.Crypto, client: Client, at: Locator, rest: Rest, ds: seq<Bytes>, i: nat)
    requires i < |ds| && Acceptable(rest.declaration) && Encodable(rest.declaration) && DomainOk(rest.domain)
    requires DeclarationDigest(c.keccak, rest.domain, rest.declaration) == ds[i]
    requires RecoverDeclarationSigner(c.recover, ds[i], rest.signature) == Ok(rest.declaration.agent)
    requires rest.merkleProof == Some(Merkle.Siblings(c.keccak, Merkle.TreeOf(ds), i))
    requires rest.content.Some? ==> c.sha256(rest.content.value) == rest.declaration.contentHash
    requires client.chainId == rest.domain.chainId && client.receipts(at.transactionHash).Some?
    requires var tx := client.receipts(at.transactionHash).value;
      tx.success && LogAt(tx.logs, at.logIndex).Some?
      && var ev := DecodeAnchorLog(LogAt(tx.logs, at.logIndex).value);
         ev.Ok? && ev.value.contract == rest.domain.verifyingContract
         && DecodeAux(ev.value.aux).Ok? && DecodeAux(ev.value.aux).value.Batch?
         && ev.value.proofHash == Merkle.TreeHash(c.keccak, Merkle.TreeOf(ds))
    ensures ChainVerifies(c, client, at, rest)
  {
    var tx := client.receipts(at.transactionHash).value;
    Verifier.BatchMembersVerify(c, InputFor(rest, tx, LogAt(tx.logs, at.logIndex).value), ds, i);
  }

  /** A receipt verifies when what it says of itself, read from its four trusted parts, holds on the chain. */
  ghost predicate ReceiptVerifies(c: Verifier.Crypto, r: Receipt, client: Client, content: Option<Bytes>) {
    && ParseReceipt(r).Ok? && ParseReceipt(r).value.locator.Some?
    && ChainVerifies(c, client, ParseReceipt(r).value.locator.value, RestOf(ParseReceipt(r).value, content))
  }

  /** Without a client of the caller's, one for a known chain is used; an unknown chain throws. */
  method VerifyReceipt(c: Verifier.Crypto, r: Receipt, own: Option<Client>, known: nat -> Option<Client>,
                       content: Option<Bytes>)
    returns (valid: Result<bool>)
    ensures own.Some? ==> (valid == Ok(true) <==> ReceiptVerifies(c, r, own.value, content))
    ensures own.None? && ParseReceipt(r).Ok? && known(ParseReceipt(r).value.domain.chainId).Some?
      ==> (valid == Ok(true)
           <==> ReceiptVerifies(c, r, known(ParseReceipt(r).value.domain.chainId).value, content))
    ensures ParseReceipt(r).Err? ==> valid.Err?
    ensures ParseReceipt(r).Ok? && ParseReceipt(r).value.locator.None? ==> valid == Ok(false)
  {
    var p := ParseReceipt(r);
    if p.Err? { return Err(p.message); }
    if p.value.locator.None? { return Ok(false); }
    var rpc := if own.Some? then own else known(p.value.domain.chainId);
    if rpc.None? { return Err("no RPC known for this chain"); }
    valid := VerifyFromChain(c, rpc.value, p.value.locator.value, RestOf(p.value, content));
  }
}
