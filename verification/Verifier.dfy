/** Verification of a declaration against its anchor, from chain data only. */
module Verifier {
  import opened Bytes
  import opened Outcomes
  import opened Eip712
  import opened Erc8263
  import opened Merkle
  import MerkleAlgorithms

  const REGISTRY := 1
  const URI_HASH := 2
  const MAX_FUTURE_SKEW := 300

  /** keccak-256, SHA-256 and signer recovery. */
  datatype Crypto = Crypto(keccak: Hasher, sha256: Hasher, recover: Recovery)

  datatype Input = Input(
    declaration: Declaration, signature: Bytes, domain: Domain, log: Log, blockTimestamp: int,
    merkleProof: Option<seq<Bytes>>, content: Option<Bytes>, resolver: Option<Bytes -> Option<Bytes>>)

  datatype CheckName =
    | Event | Contract | AuxPayload | DeclarationCheck | ProofHash | SignatureInAnchor | MerkleCheck
    | Signer | AgentId | ContentCheck

  datatype Check = Check(name: CheckName, ok: bool)

  datatype Warning = RegistryNotResolved | RegistryBindsAnother | DeclaredAfterAnchor

  datatype Verdict = Verdict(valid: bool, checks: seq<Check>, warnings: seq<Warning>, anchor: Option<AnchorEvent>)

  // ---------------------------------------------------------------- what a valid verdict means

  /** The log is an AnchorProof of the expected contract, with an rxm-pog-v2 payload. */
  ghost predicate AnchorReads(in_: Input) {
    var ev := DecodeAnchorLog(in_.log);
    ev.Ok? && ev.value.contract == in_.domain.verifyingContract && DecodeAux(ev.value.aux).Ok?
  }

  /** The anchored hash and the anchored signature are those of the declaration, or its batch holds it. */
  ghost predicate DigestAnchored(c: Crypto, in_: Input, ev: AnchorEvent, aux: Aux, digest: Word) {
    match aux
    case Single(signature) => digest == ev.proofHash && signature == in_.signature
    case Batch(_) =>
      && in_.merkleProof.Some? && [] !in in_.merkleProof.value
      && Climb(c.keccak, LeafHash(c.keccak, digest), in_.merkleProof.value) == ev.proofHash
  }

  /** The agent id is the hash of the signer's account, or a registry record. */
  ghost predicate AgentIdHolds(c: Crypto, in_: Input, ev: AnchorEvent) {
    || (ev.agentIdScheme == URI_HASH
        && ev.agentId == AgentIdForKey(c.keccak, in_.domain.chainId, in_.declaration.agent))
    || ev.agentIdScheme == REGISTRY
  }

  /** The declared agent signed, under that agent id, and the content is the declared one. */
  ghost predicate SignerHolds(c: Crypto, in_: Input, ev: AnchorEvent, aux: Aux, digest: Word) {
    && RecoverDeclarationSigner(c.recover, digest, in_.signature) == Ok(in_.declaration.agent)
    && (aux.Single? ==> AgentIdHolds(c, in_, ev))
    && (in_.content.Some? ==> c.sha256(in_.content.value) == in_.declaration.contentHash)
  }

  /** Section 7 of the profile: everything a verifier must find. */
  ghost predicate Verifies(c: Crypto, in_: Input) {
    && AnchorReads(in_)
    && Acceptable(in_.declaration) && Encodable(in_.declaration) && DomainOk(in_.domain)
    && var ev := DecodeAnchorLog(in_.log).value;
       var aux := DecodeAux(ev.aux).value;
       var digest := DeclarationDigest(c.keccak, in_.domain, in_.declaration);
       DigestAnchored(c, in_, ev, aux, digest) && SignerHolds(c, in_, ev, aux, digest)
  }

  // ---------------------------------------------------------------- the checks by name

  function DigestFor(c: Crypto, in_: Input): Word {
    if DomainOk(in_.domain) && Encodable(in_.declaration) then DeclarationDigest(c.keccak, in_.domain, in_.declaration)
    else ZERO_WORD
  }

  /** The checks that apply, in the order of section 7; the later ones depend on the payload. */
  function NamesFor(aux: Result<Aux>, content: bool): seq<CheckName> {
    [Event, Contract, AuxPayload, DeclarationCheck]
    + if aux.Err? then [] else NamesAfter(aux.value.Single?) + if content then [ContentCheck] else []
  }

  function NamesAfter(single: bool): seq<CheckName> {
    if single then [ProofHash, SignatureInAnchor, Signer, AgentId] else [MerkleCheck, Signer]
  }

  function PayloadOf(in_: Input): Result<Aux> {
    var ev := DecodeAnchorLog(in_.log);
    if ev.Ok? then DecodeAux(ev.value.aux) else Err("no payload")
  }

  function CheckNames(in_: Input): seq<CheckName> { NamesFor(PayloadOf(in_), in_.content.Some?) }

  /** What each check asks for. */
  ghost predicate Passes(c: Crypto, in_: Input, name: CheckName) {
    var ev := DecodeAnchorLog(in_.log);
    match name
    case Event => ev.Ok?
    case Contract => ev.Ok? && ev.value.contract == in_.domain.verifyingContract
    case AuxPayload => ev.Ok? && DecodeAux(ev.value.aux).Ok?
    case DeclarationCheck => Acceptable(in_.declaration)
    case ProofHash => ev.Ok? && DigestFor(c, in_) == ev.value.proofHash
    case SignatureInAnchor => ev.Ok? && DecodeAux(ev.value.aux) == Ok(Single(in_.signature))
    case MerkleCheck =>
      && ev.Ok? && in_.merkleProof.Some? && [] !in in_.merkleProof.value
      && Climb(c.keccak, LeafHash(c.keccak, DigestFor(c, in_)), in_.merkleProof.value) == ev.value.proofHash
    case Signer => RecoverDeclarationSigner(c.recover, DigestFor(c, in_), in_.signature) == Ok(in_.declaration.agent)
    case AgentId => ev.Ok? && AgentIdHolds(c, in_, ev.value)
    case ContentCheck => in_.content.Some? ==> c.sha256(in_.content.value) == in_.declaration.contentHash
  }

  ghost function PassedBy(c: Crypto, in_: Input): CheckName -> bool { name => Passes(c, in_, name) }

  /** The checks made so far bear their names, in order, and say whether they passed. */
  ghost predicate Truthful(passed: CheckName -> bool, names: seq<CheckName>, checks: seq<Check>) {
    && |checks| <= |names|
    && forall i :: 0 <= i < |checks| ==> checks[i].name == names[i] && (checks[i].ok <==> passed(names[i]))
  }

  lemma NamesListed(aux: Result<Aux>, content: bool, name: CheckName)
    ensures name in NamesFor(aux, content) <==>
      match name
      case ProofHash => aux.Ok? && aux.value.Single?
      case SignatureInAnchor => aux.Ok? && aux.value.Single?
      case AgentId => aux.Ok? && aux.value.Single?
      case MerkleCheck => aux.Ok? && aux.value.Batch?
      case Signer => aux.Ok?
      case ContentCheck => aux.Ok? && content
      case _ => true
  {
    var names := NamesFor(aux, content);
    assert names[0] == Event && names[1] == Contract && names[2] == AuxPayload && names[3] == DeclarationCheck;
  }

  ghost predicate PassesAll(c: Crypto, in_: Input) { forall name :: name in CheckNames(in_) ==> Passes(c, in_, name) }

  lemma DigestChecks(c: Crypto, in_: Input, ev: AnchorEvent, aux: Aux, digest: Word)
    requires DecodeAnchorLog(in_.log) == Ok(ev) && DecodeAux(ev.aux) == Ok(aux) && digest == DigestFor(c, in_)
    ensures DigestAnchored(c, in_, ev, aux, digest)
      <==> if aux.Single? then Passes(c, in_, ProofHash) && Passes(c, in_, SignatureInAnchor)
           else Passes(c, in_, MerkleCheck)
  {
  }

  lemma SignerChecks(c: Crypto, in_: Input, ev: AnchorEvent, aux: Aux, digest: Word)
    requires DecodeAnchorLog(in_.log) == Ok(ev) && digest == DigestFor(c, in_)
    ensures SignerHolds(c, in_, ev, aux, digest)
      <==> Passes(c, in_, Signer) && (aux.Single? ==> Passes(c, in_, AgentId)) && Passes(c, in_, ContentCheck)
  {
  }

  lemma LastChecksVerify(c: Crypto, in_: Input)
    requires DomainOk(in_.domain) && AnchorReads(in_) && Acceptable(in_.declaration)
    requires PayloadOf(in_).Ok? && Passes(c, in_, Signer) && (in_.content.Some? ==> Passes(c, in_, ContentCheck))
    requires if PayloadOf(in_).value.Single?
             then Passes(c, in_, ProofHash) && Passes(c, in_, SignatureInAnchor) && Passes(c, in_, AgentId)
             else Passes(c, in_, MerkleCheck)
    ensures Verifies(c, in_)
  {
    AcceptableIsEncodable(in_.declaration);
    var ev := DecodeAnchorLog(in_.log).value;
    DigestChecks(c, in_, ev, PayloadOf(in_).value, DigestFor(c, in_));
    SignerChecks(c, in_, ev, PayloadOf(in_).value, DigestFor(c, in_));
  }

  /** Where each check stands: four before the payload is known, and the rest by its kind. */
  predicate Begins(names: seq<CheckName>) {
    |names| >= 4 && names[0] == Event && names[1] == Contract && names[2] == AuxPayload && names[3] == DeclarationCheck
  }

  predicate Placed(names: seq<CheckName>, aux: Aux, content: bool) {
    && Begins(names)
    && (if aux.Single? then
          && |names| == (if content then 9 else 8) && names[4] == ProofHash && names[5] == SignatureInAnchor
          && names[6] == Signer && names[7] == AgentId
        else
          |names| == (if content then 7 else 6) && names[4] == MerkleCheck && names[5] == Signer)
    && (content ==> names[|names| - 1] == ContentCheck)
  }

  lemma Places(in_: Input)
    ensures Begins(CheckNames(in_))
    ensures PayloadOf(in_).Ok? ==> Placed(CheckNames(in_), PayloadOf(in_).value, in_.content.Some?)
  {
  }

  lemma PassingAllVerifies(c: Crypto, in_: Input)
    requires DomainOk(in_.domain) && PassesAll(c, in_)
    ensures Verifies(c, in_)
  {
    var aux, content := PayloadOf(in_), in_.content.Some?;
    NamesListed(aux, content, Event);
    NamesListed(aux, content, Contract);
    NamesListed(aux, content, AuxPayload);
    NamesListed(aux, content, DeclarationCheck);
    assert Passes(c, in_, Event) && Passes(c, in_, Contract) && Passes(c, in_, AuxPayload);
    assert Passes(c, in_, DeclarationCheck);
    NamesListed(aux, content, ProofHash);
    NamesListed(aux, content, SignatureInAnchor);
    NamesListed(aux, content, MerkleCheck);
    NamesListed(aux, content, Signer);
    NamesListed(aux, content, AgentId);
    NamesListed(aux, content, ContentCheck);
    LastChecksVerify(c, in_);
  }

  /** What `Verifies` asks for is what the checks ask for, all of them. */
  lemma VerifiesIsEveryCheck(c: Crypto, in_: Input)
    requires DomainOk(in_.domain)
    ensures Verifies(c, in_) <==> PassesAll(c, in_)
  {
    if Verifies(c, in_) {
      forall name | name in CheckNames(in_) ensures Passes(c, in_, name) {
        NamesListed(PayloadOf(in_), in_.content.Some?, name);
      }
    }
    if PassesAll(c, in_) {
      PassingAllVerifies(c, in_);
    }
  }

  lemma OneMoreCheck(passed: CheckName -> bool, names: seq<CheckName>, before: seq<Check>, name: CheckName, ok: bool)
    requires Truthful(passed, names, before) && AllOk(before) && |before| < |names| && names[|before|] == name
    requires ok <==> passed(name)
    ensures Truthful(passed, names, before + [Check(name, ok)])
    ensures if ok then AllOk(before + [Check(name, ok)]) else RefusedAtLast(before + [Check(name, ok)])
  {
  }

  predicate AllOk(checks: seq<Check>) { forall i :: 0 <= i < |checks| ==> checks[i].ok }

  /** A refusal names the one check that failed, last. */
  predicate RefusedAtLast(checks: seq<Check>) {
    checks != [] && !checks[|checks| - 1].ok && AllOk(checks[..|checks| - 1])
  }

  /** A call that throws: a number cannot be made of an empty sibling, or of an address of wrong size. */
  predicate Throws(in_: Input) {
    !DomainOk(in_.domain) || (in_.merkleProof.Some? && [] in in_.merkleProof.value)
  }

  // ---------------------------------------------------------------- the verifier

  /** The log and its payload. */
  method ReadAnchor(ghost c: Crypto, in_: Input, ghost names: seq<CheckName>)
    returns (ok: bool, checks: seq<Check>, ev: AnchorEvent, aux: Aux)
    requires Begins(names)
    ensures ok <==> AnchorReads(in_)
    ensures ok ==> AllOk(checks) && |checks| == 3 && DecodeAnchorLog(in_.log) == Ok(ev) && DecodeAux(ev.aux) == Ok(aux)
    ensures !ok ==> RefusedAtLast(checks)
    ensures Truthful(PassedBy(c, in_), names, checks)
  {
    ev, aux := AnchorEvent([], 0, ZERO_WORD, ZERO_WORD, ZERO_WORD, [], 0, 0, 0), Batch([]);
    var decoded := DecodeAnchorLog(in_.log);
    OneMoreCheck(PassedBy(c, in_), names, [], Event, decoded.Ok?);
    checks := [] + [Check(Event, decoded.Ok?)];
    if decoded.Err? { return false, checks, ev, aux; }
    ev := decoded.value;
    OneMoreCheck(PassedBy(c, in_), names, checks, Contract, ev.contract == in_.domain.verifyingContract);
    checks := checks + [Check(Contract, ev.contract == in_.domain.verifyingContract)];
    if ev.contract != in_.domain.verifyingContract { return false, checks, ev, aux; }
    var payload := DecodeAux(ev.aux);
    OneMoreCheck(PassedBy(c, in_), names, checks, AuxPayload, payload.Ok?);
    checks := checks + [Check(AuxPayload, payload.Ok?)];
    if payload.Err? { return false, checks, ev, aux; }
    return true, checks, ev, payload.value;
  }

  /** What was read of the input: the event, its payload, and the digest to compare with. */
  ghost predicate ReadFrom(c: Crypto, in_: Input, ev: AnchorEvent, aux: Aux, digest: Word) {
    DecodeAnchorLog(in_.log) == Ok(ev) && DecodeAux(ev.aux) == Ok(aux) && digest == DigestFor(c, in_)
  }

  /** The digest and the signature against the anchor, directly or through a Merkle proof. */
  method CheckDigest(c: Crypto, in_: Input, ghost names: seq<CheckName>, ev: AnchorEvent, aux: Aux, digest: Word,
                     before: seq<Check>)
    returns (r: Result<bool>, checks: seq<Check>)
    requires ReadFrom(c, in_, ev, aux, digest) && Placed(names, aux, in_.content.Some?)
    requires AllOk(before) && |before| == 4 && Truthful(PassedBy(c, in_), names, before)
    ensures r.Err? ==> aux.Batch? && in_.merkleProof.Some? && [] in in_.merkleProof.value
    ensures r.Ok? ==> (r.value <==> DigestAnchored(c, in_, ev, aux, digest)) && Truthful(PassedBy(c, in_), names, checks)
    ensures DigestAnchored(c, in_, ev, aux, digest) ==> r.Ok?
    ensures r == Ok(true) ==> AllOk(checks) && |checks| == if aux.Single? then 6 else 5
    ensures r == Ok(false) ==> RefusedAtLast(checks)
  {
    checks := before;
    match aux {
      case Single(signature) =>
        OneMoreCheck(PassedBy(c, in_), names, checks, ProofHash, digest == ev.proofHash);
        checks := checks + [Check(ProofHash, digest == ev.proofHash)];
        if digest != ev.proofHash { return Ok(false), checks; }
        OneMoreCheck(PassedBy(c, in_), names, checks, SignatureInAnchor, signature == in_.signature);
        checks := checks + [Check(SignatureInAnchor, signature == in_.signature)];
        return Ok(signature == in_.signature), checks;
      case Batch(_) =>
        if in_.merkleProof.None? {
          OneMoreCheck(PassedBy(c, in_), names, checks, MerkleCheck, false);
          return Ok(false), checks + [Check(MerkleCheck, false)];
        }
        var included := MerkleAlgorithms.VerifyMerkleProof(c.keccak, digest, in_.merkleProof.value, ev.proofHash);
        if included.Err? { return Err(included.message), checks; }
        OneMoreCheck(PassedBy(c, in_), names, checks, MerkleCheck, included.value);
        return Ok(included.value), checks + [Check(MerkleCheck, included.value)];
    }
  }

  /**
   * Valid exactly when everything holds. The checks are those of section 7 in their order, each telling
   * whether its condition holds: all of them when the verdict is valid, and otherwise up to the first
   * that fails. Warnings never change the verdict.
   */
  method VerifyDeclaration(c: Crypto, in_: Input) returns (r: Result<Verdict>)
    ensures r.Err? ==> Throws(in_)
    ensures Verifies(c, in_) <==> r.Ok? && r.value.valid
    ensures r.Ok? && r.value.valid ==>
      Reported(c, in_, CheckNames(in_), DecodeAnchorLog(in_.log).value, PayloadOf(in_).value, r.value)
    ensures r.Ok? && !r.value.valid ==> RefusedAtLast(r.value.checks) && r.value.anchor.None?
    ensures r.Ok? ==> Truthful(PassedBy(c, in_), CheckNames(in_), r.value.checks)
  {
    Places(in_);
    var sound, checks, ev, aux := ReadInput(c, in_, CheckNames(in_));
    if !sound { return Ok(Verdict(false, checks, [], None)); }
    if !DomainOk(in_.domain) { return Err("invalid domain"); }
    r := CheckClaims(c, in_, CheckNames(in_), ev, aux, DeclarationDigest(c.keccak, in_.domain, in_.declaration), checks);
  }

  /** The anchor, and the structure of the declaration. */
  method ReadInput(ghost c: Crypto, in_: Input, ghost names: seq<CheckName>)
    returns (ok: bool, checks: seq<Check>, ev: AnchorEvent, aux: Aux)
    requires Begins(names)
    ensures ok <==> AnchorReads(in_) && Acceptable(in_.declaration)
    ensures ok ==> AllOk(checks) && |checks| == 4 && DecodeAnchorLog(in_.log) == Ok(ev) && DecodeAux(ev.aux) == Ok(aux)
    ensures ok ==> Encodable(in_.declaration)
    ensures !ok ==> RefusedAtLast(checks)
    ensures Truthful(PassedBy(c, in_), names, checks)
  {
    ok, checks, ev, aux := ReadAnchor(c, in_, names);
    if ok {
      var problems := ValidateDeclaration(in_.declaration);
      ok := problems == [];
      OneMoreCheck(PassedBy(c, in_), names, checks, DeclarationCheck, ok);
      checks := checks + [Check(DeclarationCheck, ok)];
      if ok { AcceptableIsEncodable(in_.declaration); }
    }
  }

  /** Everything that depends on the digest. */
  method CheckClaims(c: Crypto, in_: Input, ghost names: seq<CheckName>, ev: AnchorEvent, aux: Aux, digest: Word,
                     before: seq<Check>)
    returns (r: Result<Verdict>)
    requires ReadFrom(c, in_, ev, aux, digest) && Placed(names, aux, in_.content.Some?)
    requires AllOk(before) && |before| == 4 && Truthful(PassedBy(c, in_), names, before)
    ensures r.Err? ==> in_.merkleProof.Some? && [] in in_.merkleProof.value
    ensures (DigestAnchored(c, in_, ev, aux, digest) && SignerHolds(c, in_, ev, aux, digest))
            <==> r.Ok? && r.value.valid
    ensures r.Ok? ==> Reported(c, in_, names, ev, aux, r.value)
  {
    var anchored, checks := CheckDigest(c, in_, names, ev, aux, digest, before);
    if anchored.Err? { return Err(anchored.message); }
    if !anchored.value { return Ok(Verdict(false, checks, [], None)); }
    r := CheckSigner(c, in_, names, ev, aux, digest, checks);
  }

  /** When each warning is given with a valid verdict. */
  ghost predicate Warned(in_: Input, ev: AnchorEvent, aux: Aux, warnings: seq<Warning>) {
    var registry := aux.Single? && ev.agentIdScheme == REGISTRY;
    && (DeclaredAfterAnchor in warnings <==> in_.declaration.declaredAt > in_.blockTimestamp + MAX_FUTURE_SKEW)
    && (RegistryNotResolved in warnings <==> registry && in_.resolver.None?)
    && (RegistryBindsAnother in warnings
        <==> registry && in_.resolver.Some? && in_.resolver.value(ev.agentId) != Some(in_.declaration.agent))
  }

  /** How a verdict reports: every check was made and passed, or the failed one comes last. */
  ghost predicate Reported(c: Crypto, in_: Input, names: seq<CheckName>, ev: AnchorEvent, aux: Aux, v: Verdict) {
    && Truthful(PassedBy(c, in_), names, v.checks)
    && if v.valid then
         AllOk(v.checks) && |v.checks| == |names| && v.anchor == Some(ev) && Warned(in_, ev, aux, v.warnings)
       else
         RefusedAtLast(v.checks) && v.anchor.None?
  }

  /** The signer, the agent id, the declared time and the content. */
  method CheckSigner(c: Crypto, in_: Input, ghost names: seq<CheckName>, ev: AnchorEvent, aux: Aux, digest: Word,
                     before: seq<Check>)
    returns (r: Result<Verdict>)
    requires ReadFrom(c, in_, ev, aux, digest) && Placed(names, aux, in_.content.Some?)
    requires AllOk(before) && |before| == (if aux.Single? then 6 else 5) && Truthful(PassedBy(c, in_), names, before)
    ensures r.Ok? && (r.value.valid <==> SignerHolds(c, in_, ev, aux, digest))
    ensures Reported(c, in_, names, ev, aux, r.value)
  {
    SignerChecks(c, in_, ev, aux, digest);
    var agent := in_.declaration.agent;
    var signer := RecoverDeclarationSigner(c.recover, digest, in_.signature);
    OneMoreCheck(PassedBy(c, in_), names, before, Signer, signer == Ok(agent));
    var checks := before + [Check(Signer, signer == Ok(agent))];
    if signer != Ok(agent) { return Ok(Verdict(false, checks, [], None)); }
    var verdict := CheckRest(c, in_, names, ev, aux, checks);
    return Ok(verdict);
  }

  /** The agent id, the declared time and the content. */
  method CheckRest(c: Crypto, in_: Input, ghost names: seq<CheckName>, ev: AnchorEvent, aux: Aux, before: seq<Check>)
    returns (v: Verdict)
    requires DecodeAnchorLog(in_.log) == Ok(ev) && Placed(names, aux, in_.content.Some?)
    requires AllOk(before) && |before| == (if aux.Single? then 7 else 6) && Truthful(PassedBy(c, in_), names, before)
    ensures v.valid <==> (aux.Single? ==> Passes(c, in_, AgentId)) && Passes(c, in_, ContentCheck)
    ensures Reported(c, in_, names, ev, aux, v)
  {
    var ok, checks, warnings := CheckAgent(c, in_, names, ev, aux, before);
    if !ok { return Verdict(false, checks, warnings, None); }
    if in_.declaration.declaredAt > in_.blockTimestamp + MAX_FUTURE_SKEW {
      warnings := warnings + [DeclaredAfterAnchor];
    }
    ok, checks := CheckContent(c, in_, names, checks);
    return Verdict(ok, checks, warnings, if ok then Some(ev) else None);
  }

  /** The agent id of a single anchor. */
  method CheckAgent(c: Crypto, in_: Input, ghost names: seq<CheckName>, ev: AnchorEvent, aux: Aux, before: seq<Check>)
    returns (ok: bool, checks: seq<Check>, warnings: seq<Warning>)
    requires DecodeAnchorLog(in_.log) == Ok(ev) && AllOk(before) && Truthful(PassedBy(c, in_), names, before)
    requires aux.Single? ==> |before| < |names| && names[|before|] == AgentId
    ensures ok <==> (aux.Single? ==> Passes(c, in_, AgentId))
    ensures Truthful(PassedBy(c, in_), names, checks) && if ok then AllOk(checks) else RefusedAtLast(checks)
    ensures |checks| == |before| + if aux.Single? then 1 else 0
    ensures DeclaredAfterAnchor !in warnings
    ensures RegistryNotResolved in warnings <==> aux.Single? && ev.agentIdScheme == REGISTRY && in_.resolver.None?
    ensures RegistryBindsAnother in warnings <==>
      && aux.Single? && ev.agentIdScheme == REGISTRY && in_.resolver.Some?
      && in_.resolver.value(ev.agentId) != Some(in_.declaration.agent)
  {
    ok, checks, warnings := true, before, [];
    if aux.Single? {
      ok, warnings := CheckAgentId(c, in_, ev);
      OneMoreCheck(PassedBy(c, in_), names, checks, AgentId, ok);
      checks := checks + [Check(AgentId, ok)];
    }
  }

  /** The last check, made when the verifier has the content. */
  method CheckContent(c: Crypto, in_: Input, ghost names: seq<CheckName>, before: seq<Check>)
    returns (ok: bool, checks: seq<Check>)
    requires AllOk(before) && Truthful(PassedBy(c, in_), names, before)
    requires if in_.content.Some? then |names| == |before| + 1 && names[|before|] == ContentCheck else |names| == |before|
    ensures ok <==> Passes(c, in_, ContentCheck)
    ensures Truthful(PassedBy(c, in_), names, checks) && |checks| == |names|
    ensures if ok then AllOk(checks) else RefusedAtLast(checks)
  {
    ok, checks := true, before;
    if in_.content.Some? {
      ok := c.sha256(in_.content.value) == in_.declaration.contentHash;
      OneMoreCheck(PassedBy(c, in_), names, checks, ContentCheck, ok);
      checks := checks + [Check(ContentCheck, ok)];
    }
  }

  /** Scheme 0x02 must be the hash of the signer's account; scheme 0x01 only warns. */
  method CheckAgentId(c: Crypto, in_: Input, ev: AnchorEvent) returns (ok: bool, warnings: seq<Warning>)
    ensures ok <==> AgentIdHolds(c, in_, ev)
    ensures DeclaredAfterAnchor !in warnings
    ensures RegistryNotResolved in warnings <==> ev.agentIdScheme == REGISTRY && in_.resolver.None?
    ensures RegistryBindsAnother in warnings
      <==> ev.agentIdScheme == REGISTRY && in_.resolver.Some? && in_.resolver.value(ev.agentId) != Some(in_.declaration.agent)
  {
    if ev.agentIdScheme == URI_HASH {
      return ev.agentId == AgentIdForKey(c.keccak, in_.domain.chainId, in_.declaration.agent), [];
    } else if ev.agentIdScheme == REGISTRY {
      if in_.resolver.None? {
        return true, [RegistryNotResolved];
      }
      var wallet := in_.resolver.value(ev.agentId);
      return true, if wallet != Some(in_.declaration.agent) then [RegistryBindsAnother] else [];
    } else {
      return false, [];
    }
  }

  // ---------------------------------------------------------------- what an anchor binds

  /**
   * A single anchor binds one declaration: two that both verify against the same log carry the same
   * canonical signature, and are equal as bytes and for the same deployment, or the two digest
   * computations contain a collision. With well-formed strings, or clean ones on one side, equal as
   * bytes is equal.
   */
  lemma SingleAnchorBinds(c: Crypto, a: Input, b: Input)
    requires Verifies(c, a) && Verifies(c, b) && a.log == b.log
    requires DecodeAux(DecodeAnchorLog(a.log).value.aux).value.Single?
    ensures a.signature == b.signature && IsCanonicalSignature(a.signature)
    ensures || (a.domain == b.domain && SameAsBytes(a.declaration, b.declaration))
            || CollisionBetween(c.keccak, DigestInputs(c.keccak, a.domain, a.declaration),
                                DigestInputs(c.keccak, b.domain, b.declaration))
    ensures SameAsBytes(a.declaration, b.declaration) && WellFormedNames(a.declaration) && WellFormedNames(b.declaration)
            ==> a.declaration == b.declaration
    ensures SameAsBytes(a.declaration, b.declaration) && CleanNames(a.declaration) ==> a.declaration == b.declaration
  {
    BytesDetermineExactlyCleanNames(a.declaration);
    DigestCommits(c.keccak, a.domain, a.declaration, b.domain, b.declaration);
    if SameAsBytes(a.declaration, b.declaration) && WellFormedNames(a.declaration) && WellFormedNames(b.declaration) {
      SameBytesSameDeclaration(a.declaration, b.declaration);
    }
  }

  lemma SameBytesVerify(c: Crypto, in_: Input, e: Declaration)
    requires Verifies(c, in_) && Acceptable(e) && SameAsBytes(in_.declaration, e)
    ensures Verifies(c, in_.(declaration := e))
  {
    AcceptableIsEncodable(e);
    DigestCommits(c.keccak, in_.domain, in_.declaration, in_.domain, e);
    var ev := DecodeAnchorLog(in_.log).value;
    var digest := DeclarationDigest(c.keccak, in_.domain, in_.declaration);
    assert SignerHolds(c, in_.(declaration := e), ev, DecodeAux(ev.aux).value, digest);
  }

  /**
   * Exactly when an anchor leaves no doubt, short of a collision: what verifies against it also
   * verifies with another declaration of the same bytes, unless its names are clean.
   */
  lemma VerifiedAloneExactlyWithCleanNames(c: Crypto, in_: Input)
    requires Verifies(c, in_)
    ensures (forall e :: SameAsBytes(in_.declaration, e) && Verifies(c, in_.(declaration := e)) ==> e == in_.declaration)
            <==> CleanNames(in_.declaration)
  {
    if CleanNames(in_.declaration) {
      BytesDetermineExactlyCleanNames(in_.declaration);
      forall e | SameAsBytes(in_.declaration, e) && Verifies(c, in_.(declaration := e)) ensures e == in_.declaration {
        assert Acceptable(e);
      }
    } else {
      TwinIsAcceptable(in_.declaration);
      SameBytesVerify(c, in_, TwinOf(in_.declaration));
    }
  }

  /**
   * A batch anchor binds its batch: a declaration that verifies against the anchored root of `ds` has
   * its digest among `ds`, or the tree and the proof hash two different byte strings to one value.
   */
  lemma BatchAnchorBinds(c: Crypto, in_: Input, ds: seq<Bytes>)
    requires Verifies(c, in_) && ds != []
    requires var ev := DecodeAnchorLog(in_.log).value;
      DecodeAux(ev.aux).value.Batch? && ev.proofHash == TreeHash(c.keccak, TreeOf(ds))
    ensures var digest := DeclarationDigest(c.keccak, in_.domain, in_.declaration);
      || digest in ds
      || CollisionBetween(c.keccak, TreePreimages(c.keccak, TreeOf(ds)),
                          ProofPreimages(c.keccak, digest, in_.merkleProof.value))
  {
    ProofMeansMember(c.keccak, ds, DeclarationDigest(c.keccak, in_.domain, in_.declaration), in_.merkleProof.value);
  }

  /** Every member of a batch verifies against the batch anchor, with the proof for its position. */
  lemma BatchMembersVerify(c: Crypto, in_: Input, ds: seq<Bytes>, i: nat)
    requires i < |ds| && Acceptable(in_.declaration) && Encodable(in_.declaration) && DomainOk(in_.domain)
    requires DeclarationDigest(c.keccak, in_.domain, in_.declaration) == ds[i]
    requires RecoverDeclarationSigner(c.recover, ds[i], in_.signature) == Ok(in_.declaration.agent)
    requires in_.merkleProof == Some(Siblings(c.keccak, TreeOf(ds), i))
    requires in_.content.Some? ==> c.sha256(in_.content.value) == in_.declaration.contentHash
    requires var ev := DecodeAnchorLog(in_.log);
      ev.Ok? && ev.value.contract == in_.domain.verifyingContract
      && DecodeAux(ev.value.aux).Ok? && DecodeAux(ev.value.aux).value.Batch?
      && ev.value.proofHash == TreeHash(c.keccak, TreeOf(ds))
    ensures Verifies(c, in_)
  {
    SiblingsReachRoot(c.keccak, TreeOf(ds), i);
  }
}
