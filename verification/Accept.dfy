/** Accepting a declaration: every check before anything is stored, then the quotas, then the insert. */
module Accept {
  import opened Bytes
  import opened Outcomes
  import opened Eip712
  import Metadata
  import opened Submissions
  import opened Store
  import Verifier
  import RollingBudget

  const MAX_FUTURE_SKEW_S := 300

  datatype V2Config = V2Config(
    enabled: bool, chainId: nat, contract: Option<Bytes>, agentDailyQuota: int, globalDailyQuota: int)

  datatype Refusal =
    | V2Disabled | NotConfigured
    | InvalidPayload | InvalidDeclaration | InvalidSignature | SignatureMismatch | MetadataMismatch
    | DeclaredInFuture
    | AgentQuotaExceeded | GlobalQuotaExceeded
    | NonceReused

  /** Answered with a row, refused, or left by an exception that is not an answer of its own. */
  datatype Reply = Replied(status: int, id: RowId) | Refused(reason: Refusal) | Threw

  function DomainFor(cfg: V2Config): Domain
    requires cfg.contract.Some?
  {
    Domain(cfg.chainId, cfg.contract.value)
  }

  predicate Configured(cfg: V2Config) { cfg.enabled && cfg.contract.Some? && DomainOk(DomainFor(cfg)) }

  /** The declaration that the submitted fields stand for is in range. */
  ghost predicate WellMade(s: Submission) { SchemaOk(s) && Acceptable(ToDeclaration(s.declaration)) }

  function DigestOf(cfg: V2Config, keccak: Hasher, s: Submission): Word
    requires Configured(cfg) && Encodable(ToDeclaration(s.declaration))
  {
    DeclarationDigest(keccak, DomainFor(cfg), ToDeclaration(s.declaration))
  }

  predicate SignedByAgent(c: Verifier.Crypto, s: Submission, digest: Word) {
    RecoverDeclarationSigner(c.recover, digest, s.signature) == Ok(s.declaration.agent)
  }

  predicate MetadataMatches(c: Verifier.Crypto, s: Submission) {
    s.metadata.Some? ==> Metadata.MetadataHash(c.sha256, s.metadata) == Ok(s.declaration.metadataHash)
  }

  predicate TooLate(s: Submission, now: int) {
    BigInt(s.declaration.declaredAt) > now / 1000 + MAX_FUTURE_SKEW_S
  }

  /** In milliseconds: later than five minutes after now, with the clock's own rounding to seconds. */
  lemma TooLateInMillis(s: Submission, now: int)
    ensures TooLate(s, now) <==> 1000 * BigInt(s.declaration.declaredAt) > now + 5 * 60 * 1000
  {
  }

  /** The key of the agent signed, the metadata is the declared one, and the time is not in the future. */
  predicate ClaimsHold(c: Verifier.Crypto, s: Submission, digest: Word, now: int) {
    SignedByAgent(c, s, digest) && MetadataMatches(c, s) && !TooLate(s, now)
  }

  /** What the checks before the table ask for, in no order. */
  ghost predicate Admissible(cfg: V2Config, c: Verifier.Crypto, s: Submission, now: int) {
    && Configured(cfg) && WellMade(s) && Encodable(ToDeclaration(s.declaration))
    && ClaimsHold(c, s, DigestOf(cfg, c.keccak, s), now)
  }

  /** What a refusal before the table says about the submission. */
  ghost predicate Justified(cfg: V2Config, c: Verifier.Crypto, s: Submission, now: int, reason: Refusal) {
    match reason
    case V2Disabled => !cfg.enabled
    case NotConfigured => cfg.contract.None?
    case _ =>
      || Malformed(s, reason)
      || (Configured(cfg) && Encodable(ToDeclaration(s.declaration))
          && Unfounded(c, s, DigestOf(cfg, c.keccak, s), now, reason))
  }

  ghost predicate Unfounded(c: Verifier.Crypto, s: Submission, digest: Word, now: int, reason: Refusal) {
    match reason
    case SignatureMismatch => !SignedByAgent(c, s, digest)
    case MetadataMismatch => !MetadataMatches(c, s)
    case DeclaredInFuture => TooLate(s, now)
    case _ => false
  }

  /** What a refusal of the body alone says about it. */
  ghost predicate Malformed(s: Submission, reason: Refusal) {
    match reason
    case InvalidPayload => !SchemaOk(s)
    case InvalidDeclaration => !Acceptable(ToDeclaration(s.declaration))
    case InvalidSignature => !IsCanonicalSignature(s.signature)
    case _ => false
  }

  /** The place of each check before the table. */
  function Rank(reason: Refusal): nat {
    match reason
    case V2Disabled => 0
    case NotConfigured => 1
    case InvalidPayload => 2
    case InvalidDeclaration => 3
    case InvalidSignature => 4
    case SignatureMismatch => 5
    case MetadataMismatch => 6
    case _ => 7
  }

  /** The reason given holds, and no earlier one does. */
  ghost predicate FirstJustified(cfg: V2Config, c: Verifier.Crypto, s: Submission, now: int, reason: Refusal) {
    Justified(cfg, c, s, now, reason) && forall q :: Rank(q) < Rank(reason) ==> !Justified(cfg, c, s, now, q)
  }

  /** The row an admissible submission asks for. */
  function ContentOf(cfg: V2Config, c: Verifier.Crypto, s: Submission, createdAt: int): Content
    requires Configured(cfg) && Encodable(ToDeclaration(s.declaration))
  {
    Content(
      DigestOf(cfg, c.keccak, s), s.declaration.agent, s.declaration.nonce, s.declaration.contentHash,
      Stored(s.declaration), s.signature, s.metadata,
      cfg.chainId, cfg.contract.value, Verifier.URI_HASH, AgentIdForKey(c.keccak, cfg.chainId, s.declaration.agent),
      createdAt)
  }

  class Queue {
    var jobs: seq<RowId>

    method Enqueue(id: RowId, up: bool) returns (ok: bool)
      modifies this
      ensures ok == up && jobs == if up then old(jobs) + [id] else old(jobs)
    {
      if up { jobs := jobs + [id]; }
      return up;
    }
  }

  /** The checks that need neither the table nor the queue: they pass exactly the admissible submissions. */
  method CheckSubmission(cfg: V2Config, c: Verifier.Crypto, s: Submission, now: int)
    returns (problem: Option<Reply>)
    ensures problem.None? <==> Admissible(cfg, c, s, now)
    ensures problem.Some? && problem.value.Refused? ==> FirstJustified(cfg, c, s, now, problem.value.reason)
    ensures problem.Some? ==> !problem.value.Replied?
  {
    if !cfg.enabled { return Some(Refused(V2Disabled)); }
    if cfg.contract.None? { return Some(Refused(NotConfigured)); }
    var fault := CheckBody(s);
    if fault.Some? {
      FaultsBar(cfg, c, s, now);
      return Some(Refused(fault.value));
    }
    if !DomainOk(DomainFor(cfg)) { return Some(Threw); }
    AcceptableIsEncodable(ToDeclaration(s.declaration));
    problem := CheckSigned(cfg, c, s, now);
  }

  lemma FaultsBar(cfg: V2Config, c: Verifier.Crypto, s: Submission, now: int)
    requires !(WellMade(s) && IsCanonicalSignature(s.signature))
    ensures !Admissible(cfg, c, s, now)
  {
  }

  method CheckSigned(cfg: V2Config, c: Verifier.Crypto, s: Submission, now: int) returns (problem: Option<Reply>)
    requires Configured(cfg) && WellMade(s) && IsCanonicalSignature(s.signature) && Encodable(ToDeclaration(s.declaration))
    ensures problem.None? <==> Admissible(cfg, c, s, now)
    ensures problem.Some? && problem.value.Refused? ==> FirstJustified(cfg, c, s, now, problem.value.reason)
    ensures problem.Some? ==> !problem.value.Replied?
  {
    problem := CheckClaims(c, s, DigestOf(cfg, c.keccak, s), now);
  }

  /** The shape of the body, the ranges of the fields and the form of the signature. */
  method CheckBody(s: Submission) returns (fault: Option<Refusal>)
    ensures fault.None? <==> WellMade(s) && IsCanonicalSignature(s.signature)
    ensures fault.Some? ==> Malformed(s, fault.value) && Rank(fault.value) >= 2
    ensures fault.Some? ==> forall q :: Rank(q) < Rank(fault.value) ==> !Malformed(s, q)
  {
    if !SchemaOk(s) { return Some(InvalidPayload); }
    var problems := ValidateDeclaration(ToDeclaration(s.declaration));
    if problems != [] { return Some(InvalidDeclaration); }
    if !IsCanonicalSignature(s.signature) { return Some(InvalidSignature); }
    return None;
  }

  /** The signer, the metadata and the declared time. */
  method CheckClaims(c: Verifier.Crypto, s: Submission, digest: Word, now: int) returns (problem: Option<Reply>)
    ensures problem.None? <==> ClaimsHold(c, s, digest, now)
    ensures problem.Some? && problem.value.Refused? ==>
      && Unfounded(c, s, digest, now, problem.value.reason)
      && forall q :: Rank(q) < Rank(problem.value.reason) ==> !Unfounded(c, s, digest, now, q)
    ensures problem.Some? ==> !problem.value.Replied?
  {
    var signer := RecoverDeclarationSigner(c.recover, digest, s.signature);
    if signer.Err? { return Some(Threw); }
    if signer.value != s.declaration.agent { return Some(Refused(SignatureMismatch)); }
    if s.metadata.Some? {
      var hash := Metadata.MetadataHash(c.sha256, s.metadata);
      if hash.Err? { return Some(Threw); }
      if hash.value != s.declaration.metadataHash { return Some(Refused(MetadataMismatch)); }
    }
    if TooLate(s, now) { return Some(Refused(DeclaredInFuture)); }
    return None;
  }

  predicate Stores(rows: map<RowId, Row>, digest: Bytes, id: RowId) {
    id in rows && rows[id].content.digest == digest
  }

  /** The quota of each agent, and that of all agents together. */
  function QuotaOf(cfg: V2Config, agent: Option<Bytes>): int {
    if agent.Some? then cfg.agentDailyQuota else cfg.globalDailyQuota
  }

  predicate HasRoomFor(cfg: V2Config, rows: map<RowId, Row>, agent: Option<Bytes>, now: int) {
    |Since(rows, now - RollingBudget.DAY, agent)| < QuotaOf(cfg, agent)
  }

  /** Room in both rolling quotas for one more row of this agent. */
  predicate HasRoom(cfg: V2Config, rows: map<RowId, Row>, agent: Bytes, now: int) {
    HasRoomFor(cfg, rows, Some(agent), now) && HasRoomFor(cfg, rows, None, now)
  }

  // ---------------------------------------------------------------- what every call keeps

  predicate NoneNewer(rows: map<RowId, Row>, now: int) { forall id :: id in rows ==> rows[id].content.createdAt <= now }

  /** No 24 hours hold more rows than the quota, of this agent or of all. */
  ghost predicate WithinQuota(rows: map<RowId, Row>, agent: Option<Bytes>, quota: int) {
    forall from, until :: until <= from + RollingBudget.DAY ==> |CreatedIn(rows, from, until, agent)| <= quota
  }

  ghost predicate WithinQuotas(cfg: V2Config, rows: map<RowId, Row>) {
    forall agent :: WithinQuota(rows, agent, QuotaOf(cfg, agent))
  }

  /** What a row is looked up by is what its declaration says. */
  predicate ColumnsAgree(rows: map<RowId, Row>) {
    forall id :: id in rows ==> Agrees(rows[id].content)
  }

  lemma SmallerSet<T>(a: set<T>, b: set<T>)
    requires a <= b
    ensures |a| <= |b|
  {
    assert b == a + (b - a);
  }

  lemma NewRowIn(rows: map<RowId, Row>, id: RowId, content: Content, agent: Option<Bytes>, from: int, until: int)
    requires id !in rows
    ensures CreatedIn(rows[id := NewRow(content)], from, until, agent)
            == CreatedIn(rows, from, until, agent)
               + if from <= content.createdAt <= until && OfAgent(content, agent) then {id} else {}
  {
  }

  /** One more row, where the last 24 hours had room for it. */
  lemma OneMoreRow(rows: map<RowId, Row>, id: RowId, content: Content, agent: Option<Bytes>, quota: int, now: int)
    requires id !in rows && NoneNewer(rows, now) && content.createdAt == now && WithinQuota(rows, agent, quota)
    requires OfAgent(content, agent) ==> |Since(rows, now - RollingBudget.DAY, agent)| < quota
    ensures WithinQuota(rows[id := NewRow(content)], agent, quota)
  {
    var next := rows[id := NewRow(content)];
    forall from, until | until <= from + RollingBudget.DAY ensures |CreatedIn(next, from, until, agent)| <= quota {
      NewRowIn(rows, id, content, agent, from, until);
      if from <= now <= until && OfAgent(content, agent) {
        SmallerSet(CreatedIn(rows, from, until, agent), Since(rows, now - RollingBudget.DAY, agent));
      }
    }
  }

  lemma AddsKeepsQuotas(cfg: V2Config, rows: map<RowId, Row>, id: RowId, content: Content, now: int)
    requires Adds(cfg, rows, id, content, now) && content.createdAt == now
    requires NoneNewer(rows, now) && WithinQuotas(cfg, rows)
    ensures WithinQuotas(cfg, rows[id := NewRow(content)]) && NoneNewer(rows[id := NewRow(content)], now)
  {
    forall agent ensures WithinQuota(rows[id := NewRow(content)], agent, QuotaOf(cfg, agent)) {
      assert WithinQuota(rows, agent, QuotaOf(cfg, agent));
      OneMoreRow(rows, id, content, agent, QuotaOf(cfg, agent), now);
    }
  }

  /** With no row from the future, the count since 24 hours ago is that of the last 24 hours. */
  lemma SinceIsLastDay(rows: map<RowId, Row>, agent: Option<Bytes>, now: int)
    requires NoneNewer(rows, now)
    ensures Since(rows, now - RollingBudget.DAY, agent) == CreatedIn(rows, now - RollingBudget.DAY, now, agent)
  {
  }

  /** No agent has two rows whose declarations carry one nonce, and no declaration digest is stored twice. */
  lemma NonceUsedOnce(rows: map<RowId, Row>, i: RowId, j: RowId)
    requires Unique(rows) && ColumnsAgree(rows) && i in rows && j in rows
    ensures (&& rows[i].content.declaration.agent == rows[j].content.declaration.agent
             && rows[i].content.declaration.nonce == rows[j].content.declaration.nonce) ==> i == j
    ensures rows[i].content.digest == rows[j].content.digest ==> i == j
  {
    if i != j {
      assert !Conflicts(rows[i].content, rows[j].content);
    }
  }

  /** The last 24 hours have no room for another row, of this agent or of all. */
  ghost predicate QuotaUsedUp(cfg: V2Config, rows: map<RowId, Row>, agent: Option<Bytes>, now: int) {
    NoneNewer(rows, now) ==> |CreatedIn(rows, now - RollingBudget.DAY, now, agent)| >= QuotaOf(cfg, agent)
  }

  /** A call keeps both quotas over every 24 hours, and the columns in agreement with the declarations. */
  ghost predicate Keeps(cfg: V2Config, before: map<RowId, Row>, after: map<RowId, Row>, now: int) {
    && (NoneNewer(before, now) && WithinQuotas(cfg, before) ==> NoneNewer(after, now) && WithinQuotas(cfg, after))
    && (ColumnsAgree(before) ==> ColumnsAgree(after))
  }

  predicate Agrees(content: Content) {
    && content.agent == content.declaration.agent && content.nonce == content.declaration.nonce
    && content.contentHash == content.declaration.contentHash
  }

  lemma StoringKeeps(cfg: V2Config, before: map<RowId, Row>, after: map<RowId, Row>, id: RowId, content: Content,
                     now: int, queueUp: bool, r: Reply)
    requires content.createdAt == now && Agrees(content) && Answered(cfg, before, id, content, now, queueUp, r)
    requires after == if Adds(cfg, before, id, content, now) then before[id := NewRow(content)] else before
    ensures Keeps(cfg, before, after, now)
    ensures r == Refused(AgentQuotaExceeded) ==> QuotaUsedUp(cfg, before, Some(content.agent), now)
    ensures r == Refused(GlobalQuotaExceeded) ==> QuotaUsedUp(cfg, before, None, now)
  {
    if NoneNewer(before, now) {
      SinceIsLastDay(before, Some(content.agent), now);
      SinceIsLastDay(before, None, now);
      if WithinQuotas(cfg, before) && Adds(cfg, before, id, content, now) {
        AddsKeepsQuotas(cfg, before, id, content, now);
      }
    }
  }

  /** The content is new, its nonce unused, and both quotas have room. */
  predicate Adds(cfg: V2Config, rows: map<RowId, Row>, id: RowId, content: Content, now: int) {
    CanInsert(rows, id, content) && HasRoom(cfg, rows, content.agent, now)
  }

  /** The answer to an admissible submission, case by case. */
  ghost predicate Answered(cfg: V2Config, rows: map<RowId, Row>, id: RowId, content: Content, now: int, queueUp: bool,
                     r: Reply)
  {
    if exists j :: Stores(rows, content.digest, j) then
      r.Replied? && r.status == 200 && Stores(rows, content.digest, r.id)
    else if !HasRoomFor(cfg, rows, Some(content.agent), now) then
      r == Refused(AgentQuotaExceeded)
    else if !HasRoomFor(cfg, rows, None, now) then
      r == Refused(GlobalQuotaExceeded)
    else if CanInsert(rows, id, content) then
      r == if queueUp then Replied(202, id) else Threw
    else
      r == Refused(NonceReused)
  }

  method StoreContent(cfg: V2Config, table: Table, queue: Queue, queueUp: bool, id: RowId, content: Content, now: int)
    returns (r: Reply)
    requires Unique(table.rows) && id !in table.rows
    modifies table, queue
    ensures Unique(table.rows)
    ensures Answered(cfg, old(table.rows), id, content, now, queueUp, r)
    ensures if Adds(cfg, old(table.rows), id, content, now) then
              && table.rows == old(table.rows)[id := NewRow(content)]
              && queue.jobs == if queueUp then old(queue.jobs) + [id] else old(queue.jobs)
            else
              table.rows == old(table.rows) && queue.jobs == old(queue.jobs)
  {
    var existing := table.GetByDigest(content.digest);
    if existing.Some? {
      assert Stores(table.rows, content.digest, existing.value);
      return Replied(200, existing.value);
    }
    var ofAgent := table.CountSince(now - RollingBudget.DAY, Some(content.agent));
    if ofAgent >= cfg.agentDailyQuota { return Refused(AgentQuotaExceeded); }
    var ofAll := table.CountSince(now - RollingBudget.DAY, None);
    if ofAll >= cfg.globalDailyQuota { return Refused(GlobalQuotaExceeded); }

    var outcome := table.InsertDeclaration(id, content);
    match outcome {
      case NonceConflict => return Refused(NonceReused);
      case Duplicate(j) => return Replied(200, j);
      case Created(j) =>
        var queued := queue.Enqueue(j, queueUp);
        return if queued then Replied(202, j) else Threw;
    }
  }
}
