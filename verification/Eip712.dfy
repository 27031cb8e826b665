/** Declarations, their validation, and the EIP-712 digest that commits to them. */
module Eip712 {
  import opened Bytes
  import opened Outcomes
  import opened Text

  datatype Declaration = Declaration(
    agent: Bytes, contentHash: Bytes, inputHash: Bytes, modelId: Text, runtimeId: Text,
    processType: int, humanIntervention: int, pipelineSteps: int, declaredAt: int,
    nonce: Bytes, metadataHash: Bytes)

  /** The name and the version of the domain are fixed. */
  datatype Domain = Domain(chainId: nat, verifyingContract: Bytes)

  predicate DomainOk(domain: Domain) { domain.chainId < Pow256(32) && |domain.verifyingContract| == 20 }

  // ---------------------------------------------------------------- validation

  datatype HashField = ContentHash | InputHash | Nonce | MetadataHash
  datatype NameField = ModelId | RuntimeId

  datatype Problem =
    | NotAnAddress
    | NotAWord(hash: HashField)
    | ZeroContentHash
    | ZeroNonce
    | BadLength(name: NameField)
    | BadProcessType
    | BadHumanIntervention
    | BadPipelineSteps
    | BadDeclaredAt

  function HashOf(d: Declaration, f: HashField): Bytes {
    match f
    case ContentHash => d.contentHash
    case InputHash => d.inputHash
    case Nonce => d.nonce
    case MetadataHash => d.metadataHash
  }

  function NameOf(d: Declaration, f: NameField): Text { if f.ModelId? then d.modelId else d.runtimeId }

  const MAX_UINT64 := 0x1_0000_0000_0000_0000 - 1

  /** The structural rules of section 3.2 of the profile, one problem each. */
  predicate Violates(d: Declaration, p: Problem) {
    match p
    case NotAnAddress => |d.agent| != 20
    case NotAWord(f) => |HashOf(d, f)| != 32
    case ZeroContentHash => d.contentHash == ZERO_WORD
    case ZeroNonce => d.nonce == ZERO_WORD
    case BadLength(f) => !(1 <= |Utf8(NameOf(d, f))| <= 128)
    case BadProcessType => !(0 <= d.processType <= 3)
    case BadHumanIntervention => !(0 <= d.humanIntervention <= 5)
    case BadPipelineSteps => !(1 <= d.pipelineSteps <= 65535)
    case BadDeclaredAt => !(0 <= d.declaredAt <= MAX_UINT64)
  }

  ghost predicate Acceptable(d: Declaration) { forall p :: !Violates(d, p) }

  /** The list of problems names exactly the rules that are broken; it is empty for valid declarations. */
  method ValidateDeclaration(d: Declaration) returns (errors: seq<Problem>)
    ensures forall p :: p in errors <==> Violates(d, p)
    ensures errors == [] <==> Acceptable(d)
  {
    errors := [];
    if |d.agent| != 20 { errors := errors + [NotAnAddress]; }
    var hashes := ValidateHashes(d);
    errors := errors + hashes;
    if d.contentHash == ZERO_WORD { errors := errors + [ZeroContentHash]; }
    if d.nonce == ZERO_WORD { errors := errors + [ZeroNonce]; }
    var names := ValidateNames(d);
    errors := errors + names;
    var numbers := ValidateNumbers(d);
    errors := errors + numbers;
    if errors == [] {
      assert forall p :: p !in errors;
    } else {
      assert errors[0] in errors;
    }
  }

  method ValidateHashes(d: Declaration) returns (errors: seq<Problem>)
    ensures forall p :: p in errors <==> p.NotAWord? && Violates(d, p)
  {
    errors := [];
    var hashes := [ContentHash, InputHash, Nonce, MetadataHash];
    for i := 0 to |hashes|
      invariant forall p :: p in errors <==> p.NotAWord? && Violates(d, p) && p.hash in hashes[..i]
    {
      if |HashOf(d, hashes[i])| != 32 { errors := errors + [NotAWord(hashes[i])]; }
      assert hashes[..i + 1] == hashes[..i] + [hashes[i]];
    }
    AllHashFields(hashes);
  }

  method ValidateNames(d: Declaration) returns (errors: seq<Problem>)
    ensures forall p :: p in errors <==> p.BadLength? && Violates(d, p)
  {
    errors := [];
    var names := [ModelId, RuntimeId];
    for i := 0 to |names|
      invariant forall p :: p in errors <==> p.BadLength? && Violates(d, p) && p.name in names[..i]
    {
      var n := |Utf8(NameOf(d, names[i]))|;
      if n < 1 || n > 128 { errors := errors + [BadLength(names[i])]; }
      assert names[..i + 1] == names[..i] + [names[i]];
    }
    AllNameFields(names);
  }

  predicate OfNumber(p: Problem) {
    p.BadProcessType? || p.BadHumanIntervention? || p.BadPipelineSteps? || p.BadDeclaredAt?
  }

  method ValidateNumbers(d: Declaration) returns (errors: seq<Problem>)
    ensures forall p :: p in errors <==> OfNumber(p) && Violates(d, p)
  {
    errors := [];
    if d.processType < 0 || d.processType > 3 { errors := errors + [BadProcessType]; }
    if d.humanIntervention < 0 || d.humanIntervention > 5 { errors := errors + [BadHumanIntervention]; }
    if d.pipelineSteps < 1 || d.pipelineSteps > 65535 { errors := errors + [BadPipelineSteps]; }
    if d.declaredAt < 0 || d.declaredAt > MAX_UINT64 { errors := errors + [BadDeclaredAt]; }
  }

  lemma AllHashFields(hashes: seq<HashField>)
    requires hashes == [ContentHash, InputHash, Nonce, MetadataHash]
    ensures forall f: HashField :: f in hashes[..|hashes|]
  {
    assert hashes[..|hashes|] == hashes;
    forall f: HashField ensures f in hashes {
      match f
      case ContentHash => assert hashes[0] == f;
      case InputHash => assert hashes[1] == f;
      case Nonce => assert hashes[2] == f;
      case MetadataHash => assert hashes[3] == f;
    }
  }

  lemma AllNameFields(names: seq<NameField>)
    requires names == [ModelId, RuntimeId]
    ensures forall f: NameField :: f in names[..|names|]
  {
    assert names[..|names|] == names;
    forall f: NameField ensures f in names {
      match f
      case ModelId => assert names[0] == f;
      case RuntimeId => assert names[1] == f;
    }
  }

  // ---------------------------------------------------------------- the encoding

  function Ascii(s: string): Bytes {
    seq(|s|, i requires 0 <= i < |s| => s[i] as int % 256)
  }

  const TYPE_START := "PoGDeclaration" + "("
    + "address" + " " + "agent" + "," + "bytes32" + " " + "contentHash" + "," + "bytes32" + " " + "inputHash"
    + "," + "string" + " " + "modelId" + "," + "string" + " " + "runtimeId"
  const TYPE_MIDDLE := TYPE_START
    + "," + "uint8" + " " + "processType" + "," + "uint8" + " " + "humanIntervention"
    + "," + "uint16" + " " + "pipelineSteps" + "," + "uint64" + " " + "declaredAt"
  const TYPE_TEXT := TYPE_MIDDLE + "," + "bytes32" + " " + "nonce" + "," + "bytes32" + " " + "metadataHash" + ")"
  const DOMAIN_TYPE_TEXT := "EIP712Domain" + "("
    + "string" + " " + "name" + "," + "string" + " " + "version" + "," + "uint256" + " " + "chainId"
    + "," + "address" + " " + "verifyingContract" + ")"

  function AddressWord(a: Bytes): Word
    requires |a| == 20
  {
    [0, 0, 0, 0, 0, 0, 0, 0, 0, 0, 0, 0] + a
  }

  function Uint(n: int): Word
    requires n >= 0
  {
    BigEndian(n, 32)
  }

  predicate Encodable(d: Declaration) {
    && |d.agent| == 20 && |d.contentHash| == 32 && |d.inputHash| == 32 && |d.nonce| == 32 && |d.metadataHash| == 32
    && 0 <= d.processType < 256 && 0 <= d.humanIntervention < 256 && 0 <= d.pipelineSteps < 0x1_0000
    && 0 <= d.declaredAt <= MAX_UINT64
  }

  /** `encodeData` of EIP-712: the type hash and one word for each of the eleven fields. */
  function Words(H: Hasher, d: Declaration): seq<Word>
    requires Encodable(d)
  {
    [H(Ascii(TYPE_TEXT)), AddressWord(d.agent), d.contentHash, d.inputHash, H(Utf8(d.modelId)), H(Utf8(d.runtimeId)),
     Uint(d.processType), Uint(d.humanIntervention), Uint(d.pipelineSteps), Uint(d.declaredAt),
     d.nonce, d.metadataHash]
  }

  function DomainWords(H: Hasher, domain: Domain): seq<Word>
    requires DomainOk(domain)
  {
    [H(Ascii(DOMAIN_TYPE_TEXT)), H(Ascii("ResExMachina PoG")), H(Ascii("2")),
     Uint(domain.chainId), AddressWord(domain.verifyingContract)]
  }

  function Flatten(ws: seq<Word>): Bytes { if ws == [] then [] else ws[0] + Flatten(ws[1..]) }

  function DigestPreimage(H: Hasher, domain: Domain, d: Declaration): Bytes
    requires DomainOk(domain) && Encodable(d)
  {
    [0x19, 0x01] + (H(Flatten(DomainWords(H, domain))) + H(Flatten(Words(H, d))))
  }

  function DeclarationDigest(H: Hasher, domain: Domain, d: Declaration): Word
    requires DomainOk(domain) && Encodable(d)
  {
    H(DigestPreimage(H, domain, d))
  }

  // ---------------------------------------------------------------- what the digest commits to

  /** Everything hashed on the way to a digest. */
  ghost function DigestInputs(H: Hasher, domain: Domain, d: Declaration): set<Bytes>
    requires DomainOk(domain) && Encodable(d)
  {
    {DigestPreimage(H, domain, d), Flatten(DomainWords(H, domain)), Flatten(Words(H, d)),
     Utf8(d.modelId), Utf8(d.runtimeId)}
  }

  /** Equal in every field, the two strings as far as their UTF-8 bytes tell. */
  predicate SameAsBytes(d: Declaration, e: Declaration) {
    && d.(modelId := e.modelId, runtimeId := e.runtimeId) == e
    && Utf8(d.modelId) == Utf8(e.modelId) && Utf8(d.runtimeId) == Utf8(e.runtimeId)
  }

  lemma {:induction false} FlattenInjective(ws: seq<Word>, vs: seq<Word>)
    requires |ws| == |vs| && Flatten(ws) == Flatten(vs)
    ensures ws == vs
  {
    if ws == [] {
    } else {
      SplitEqual(ws[0], Flatten(ws[1..]), vs[0], Flatten(vs[1..]));
      FlattenInjective(ws[1..], vs[1..]);
      assert ws == [ws[0]] + ws[1..] && vs == [vs[0]] + vs[1..];
    }
  }

  lemma SmallNumbers()
    ensures 0x1_0000_0000_0000_0000 <= Pow256(32)
  {
    PowMonotone(8, 32);
    assert Pow256(8) == 256 * (256 * (256 * (256 * (256 * (256 * (256 * (256 * Pow256(0)))))))) by {
      PowStep(8);
    }
  }

  lemma PowStep(n: nat)
    requires n == 8
    ensures Pow256(8) == 256 * (256 * (256 * (256 * (256 * (256 * (256 * (256 * Pow256(0))))))))
  {
    assert Pow256(2) == 256 * (256 * Pow256(0));
    assert Pow256(4) == 256 * (256 * Pow256(2));
    assert Pow256(6) == 256 * (256 * Pow256(4));
    assert Pow256(8) == 256 * (256 * Pow256(6));
  }

  lemma AddressInjective(a: Bytes, b: Bytes)
    requires |a| == 20 && |b| == 20 && AddressWord(a) == AddressWord(b)
    ensures a == b
  {
    assert AddressWord(a)[12..] == a && AddressWord(b)[12..] == b;
  }

  /** Equal words mean equal fields: the ranges of the fields make the word encoding injective. */
  lemma WordsInjective(H: Hasher, d: Declaration, e: Declaration)
    requires Encodable(d) && Encodable(e) && Words(H, d) == Words(H, e)
    ensures d.(modelId := e.modelId, runtimeId := e.runtimeId) == e
    ensures H(Utf8(d.modelId)) == H(Utf8(e.modelId)) && H(Utf8(d.runtimeId)) == H(Utf8(e.runtimeId))
  {
    var ws, vs := Words(H, d), Words(H, e);
    SmallNumbers();
    assert ws[1] == vs[1] && ws[2] == vs[2] && ws[3] == vs[3] && ws[4] == vs[4] && ws[5] == vs[5];
    assert ws[6] == vs[6] && ws[7] == vs[7] && ws[8] == vs[8] && ws[9] == vs[9] && ws[10] == vs[10] && ws[11] == vs[11];
    AddressInjective(d.agent, e.agent);
    WordInjective(d.processType, e.processType);
    WordInjective(d.humanIntervention, e.humanIntervention);
    WordInjective(d.pipelineSteps, e.pipelineSteps);
    WordInjective(d.declaredAt, e.declaredAt);
  }

  lemma DomainWordsInjective(H: Hasher, m: Domain, n: Domain)
    requires DomainOk(m) && DomainOk(n) && DomainWords(H, m) == DomainWords(H, n)
    ensures m == n
  {
    var ws, vs := DomainWords(H, m), DomainWords(H, n);
    assert ws[3] == vs[3] && ws[4] == vs[4];
    WordInjective(m.chainId, n.chainId);
    AddressInjective(m.verifyingContract, n.verifyingContract);
  }

  /** Two byte strings with equal hashes, one hashed for each digest: either equal, or a collision. */
  lemma EqualOrCollision(H: Hasher, m: Domain, d: Declaration, n: Domain, e: Declaration, x: Bytes, y: Bytes)
    requires DomainOk(m) && Encodable(d) && DomainOk(n) && Encodable(e)
    requires x in DigestInputs(H, m, d) && y in DigestInputs(H, n, e) && H(x) == H(y)
    ensures x == y || CollisionBetween(H, DigestInputs(H, m, d), DigestInputs(H, n, e))
  {
    if x != y {
      assert Collide(H, x, y);
    }
  }

  predicate SameParts(H: Hasher, m: Domain, d: Declaration, n: Domain, e: Declaration)
    requires DomainOk(m) && Encodable(d) && DomainOk(n) && Encodable(e)
  {
    && H(Flatten(DomainWords(H, m))) == H(Flatten(DomainWords(H, n)))
    && H(Flatten(Words(H, d))) == H(Flatten(Words(H, e)))
  }

  predicate SameWords(H: Hasher, m: Domain, d: Declaration, n: Domain, e: Declaration)
    requires DomainOk(m) && Encodable(d) && DomainOk(n) && Encodable(e)
  {
    DomainWords(H, m) == DomainWords(H, n) && Words(H, d) == Words(H, e)
  }

  lemma DigestMeansParts(H: Hasher, m: Domain, d: Declaration, n: Domain, e: Declaration)
    requires DomainOk(m) && Encodable(d) && DomainOk(n) && Encodable(e)
    requires DeclarationDigest(H, m, d) == DeclarationDigest(H, n, e)
    ensures || CollisionBetween(H, DigestInputs(H, m, d), DigestInputs(H, n, e))
            || SameParts(H, m, d, n, e)
  {
    EqualOrCollision(H, m, d, n, e, DigestPreimage(H, m, d), DigestPreimage(H, n, e));
    if DigestPreimage(H, m, d) == DigestPreimage(H, n, e) {
      TwoWords(H(Flatten(DomainWords(H, m))), H(Flatten(Words(H, d))),
               H(Flatten(DomainWords(H, n))), H(Flatten(Words(H, e))));
    }
  }

  lemma TwoWords(a: Word, b: Word, c: Word, d: Word)
    requires [0x19, 0x01] + (a + b) == [0x19, 0x01] + (c + d)
    ensures a == c && b == d
  {
    SplitEqual([0x19, 0x01], a + b, [0x19, 0x01], c + d);
    SplitEqual(a, b, c, d);
  }

  lemma PartsMeanWords(H: Hasher, m: Domain, d: Declaration, n: Domain, e: Declaration)
    requires DomainOk(m) && Encodable(d) && DomainOk(n) && Encodable(e)
    requires SameParts(H, m, d, n, e)
    ensures || CollisionBetween(H, DigestInputs(H, m, d), DigestInputs(H, n, e))
            || SameWords(H, m, d, n, e)
  {
    EqualOrCollision(H, m, d, n, e, Flatten(DomainWords(H, m)), Flatten(DomainWords(H, n)));
    EqualOrCollision(H, m, d, n, e, Flatten(Words(H, d)), Flatten(Words(H, e)));
    if Flatten(DomainWords(H, m)) == Flatten(DomainWords(H, n)) && Flatten(Words(H, d)) == Flatten(Words(H, e)) {
      FlattenInjective(DomainWords(H, m), DomainWords(H, n));
      FlattenInjective(Words(H, d), Words(H, e));
    }
  }

  lemma WordsMeanFields(H: Hasher, m: Domain, d: Declaration, n: Domain, e: Declaration)
    requires DomainOk(m) && Encodable(d) && DomainOk(n) && Encodable(e)
    requires SameWords(H, m, d, n, e)
    ensures || CollisionBetween(H, DigestInputs(H, m, d), DigestInputs(H, n, e))
            || (m == n && SameAsBytes(d, e))
  {
    DomainWordsInjective(H, m, n);
    WordsInjective(H, d, e);
    EqualOrCollision(H, m, d, n, e, Utf8(d.modelId), Utf8(e.modelId));
    EqualOrCollision(H, m, d, n, e, Utf8(d.runtimeId), Utf8(e.runtimeId));
  }

  lemma DigestBinds(H: Hasher, m: Domain, d: Declaration, n: Domain, e: Declaration)
    requires DomainOk(m) && Encodable(d) && DomainOk(n) && Encodable(e)
    requires DeclarationDigest(H, m, d) == DeclarationDigest(H, n, e)
    ensures (m == n && SameAsBytes(d, e)) || CollisionBetween(H, DigestInputs(H, m, d), DigestInputs(H, n, e))
  {
    DigestMeansParts(H, m, d, n, e);
    if SameParts(H, m, d, n, e) {
      PartsMeanWords(H, m, d, n, e);
      if SameWords(H, m, d, n, e) {
        WordsMeanFields(H, m, d, n, e);
      }
    }
  }

  lemma SameBytesSameDigest(H: Hasher, m: Domain, d: Declaration, e: Declaration)
    requires DomainOk(m) && Encodable(d) && Encodable(e) && SameAsBytes(d, e)
    ensures DeclarationDigest(H, m, d) == DeclarationDigest(H, m, e)
  {
    assert Words(H, d) == Words(H, e);
  }

  /**
   * The digest binds the declaration and the deployment: declarations with one digest are equal as
   * bytes and were made for the same chain and contract, or the two computations contain a collision
   * of the hash function. Conversely the digest depends on nothing else.
   */
  lemma DigestCommits(H: Hasher, m: Domain, d: Declaration, n: Domain, e: Declaration)
    requires DomainOk(m) && Encodable(d) && DomainOk(n) && Encodable(e)
    ensures DeclarationDigest(H, m, d) == DeclarationDigest(H, n, e)
      ==> (m == n && SameAsBytes(d, e)) || CollisionBetween(H, DigestInputs(H, m, d), DigestInputs(H, n, e))
    ensures m == n && SameAsBytes(d, e) ==> DeclarationDigest(H, m, d) == DeclarationDigest(H, n, e)
  {
    if m == n && SameAsBytes(d, e) {
      SameBytesSameDigest(H, m, d, e);
    } else if DeclarationDigest(H, m, d) == DeclarationDigest(H, n, e) {
      DigestBinds(H, m, d, n, e);
    }
  }

  /** The strings of the declaration hold no lone surrogate. */
  predicate WellFormedNames(d: Declaration) { WellFormed(d.modelId) && WellFormed(d.runtimeId) }

  lemma SameBytesSameDeclaration(d: Declaration, e: Declaration)
    requires WellFormedNames(d) && WellFormedNames(e) && SameAsBytes(d, e)
    ensures d == e
  {
    Utf8Injective(d.modelId, e.modelId);
    Utf8Injective(d.runtimeId, e.runtimeId);
  }

  /** Neither name holds a lone surrogate or the character that one is replaced by. */
  predicate CleanNames(d: Declaration) { Clean(d.modelId) && Clean(d.runtimeId) }

  /** Another declaration with the same bytes: a name that is not clean is replaced by its twin. */
  function TwinOf(d: Declaration): Declaration
    requires !CleanNames(d)
  {
    d.(modelId := if Clean(d.modelId) then d.modelId else Twin(d.modelId),
       runtimeId := if Clean(d.runtimeId) then d.runtimeId else Twin(d.runtimeId))
  }

  /** The rules see names as bytes only. */
  lemma SameBytesAcceptable(d: Declaration, e: Declaration)
    requires Acceptable(d) && SameAsBytes(d, e)
    ensures Acceptable(e)
  {
    forall p ensures !Violates(e, p) {
      assert !Violates(d, p);
      if p.BadLength? {
        assert p.name.ModelId? || p.name.RuntimeId?;
      }
    }
  }

  lemma TwinIsAcceptable(d: Declaration)
    requires Acceptable(d) && !CleanNames(d)
    ensures Acceptable(TwinOf(d)) && TwinOf(d) != d && SameAsBytes(d, TwinOf(d))
  {
    var e := TwinOf(d);
    if !Clean(d.modelId) { TwinFacts(d.modelId); }
    if !Clean(d.runtimeId) { TwinFacts(d.runtimeId); }
    SameBytesAcceptable(d, e);
  }

  /** The declaration with both names repaired. */
  function RepairedNames(d: Declaration): Declaration {
    d.(modelId := Repaired(d.modelId), runtimeId := Repaired(d.runtimeId))
  }

  lemma RepairedIsAcceptable(d: Declaration)
    requires Acceptable(d)
    ensures var e := RepairedNames(d);
      Acceptable(e) && WellFormedNames(e) && SameAsBytes(d, e) && (e == d <==> WellFormedNames(d))
  {
    var e := RepairedNames(d);
    RepairedFacts(d.modelId);
    RepairedFacts(d.runtimeId);
    SameBytesAcceptable(d, e);
  }

  /**
   * Exactly which declarations their bytes determine: an acceptable declaration shares its bytes with
   * no other acceptable one if and only if its names hold neither a lone surrogate nor U+FFFD.
   */
  lemma BytesDetermineExactlyCleanNames(d: Declaration)
    requires Acceptable(d)
    ensures (forall e :: Acceptable(e) && SameAsBytes(d, e) ==> e == d) <==> CleanNames(d)
  {
    if CleanNames(d) {
      forall e | SameAsBytes(d, e) ensures e == d {
        CleanIsAlone(d.modelId, e.modelId);
        CleanIsAlone(d.runtimeId, e.runtimeId);
      }
    } else {
      TwinIsAcceptable(d);
    }
  }

  /**
   * Among declarations with well-formed names: an acceptable declaration shares its bytes with no other
   * of them if and only if its own names hold no lone surrogate.
   */
  lemma BytesDetermineExactlyWellFormedNames(d: Declaration)
    requires Acceptable(d)
    ensures (forall e :: Acceptable(e) && WellFormedNames(e) && SameAsBytes(d, e) ==> e == d) <==> WellFormedNames(d)
  {
    if WellFormedNames(d) {
      forall e | WellFormedNames(e) && SameAsBytes(d, e) ensures e == d {
        SameBytesSameDeclaration(d, e);
      }
    } else {
      RepairedIsAcceptable(d);
    }
  }

  /**
   * So the digest does not bind every declaration: each acceptable declaration with a lone surrogate
   * in a name shares its digest, under every hash function, with the acceptable one that has U+FFFD
   * in its place.
   */
  lemma LoneSurrogatesShareDigest(H: Hasher, domain: Domain, d: Declaration)
    requires DomainOk(domain) && Acceptable(d) && !WellFormedNames(d)
    ensures Encodable(d) && exists e ::
      e != d && Acceptable(e) && WellFormedNames(e) && Encodable(e)
      && DeclarationDigest(H, domain, d) == DeclarationDigest(H, domain, e)
  {
    var e := RepairedNames(d);
    RepairedIsAcceptable(d);
    AcceptableIsEncodable(d);
    AcceptableIsEncodable(e);
    DigestCommits(H, domain, d, domain, e);
  }

  lemma AcceptableIsEncodable(d: Declaration)
    requires Acceptable(d)
    ensures Encodable(d)
  {
    assert !Violates(d, NotAnAddress);
    assert !Violates(d, NotAWord(ContentHash)) && !Violates(d, NotAWord(InputHash));
    assert !Violates(d, NotAWord(Nonce)) && !Violates(d, NotAWord(MetadataHash));
    assert !Violates(d, BadProcessType) && !Violates(d, BadHumanIntervention);
    assert !Violates(d, BadPipelineSteps) && !Violates(d, BadDeclaredAt);
  }

  // ---------------------------------------------------------------- signatures

  const SECP256K1_N := 0xfffffffffffffffffffffffffffffffebaaedce6af48a03bbfd25e8cd0364141
  const SECP256K1_HALF_N := 0x7fffffffffffffffffffffffffffffff5d576e7357a4501ddfe92f46681b20a0

  /** A 65-byte signature with low s and v 27 or 28. */
  predicate IsCanonicalSignature(signature: Bytes) {
    && |signature| == 65
    && 0 < Value(signature[32..64]) <= SECP256K1_HALF_N
    && (signature[64] == 27 || signature[64] == 28)
  }

  /** Of a signature and its twin, whose s values add up to the group order, one is canonical at most. */
  lemma TwinIsRefused(a: Bytes, b: Bytes)
    requires |a| == 65 && |b| == 65 && Value(a[32..64]) + Value(b[32..64]) == SECP256K1_N
    ensures !(IsCanonicalSignature(a) && IsCanonicalSignature(b))
  {
  }

  /** Recovering the signer of a digest; the curve arithmetic is an arbitrary partial function. */
  type Recovery = (Bytes, Bytes) -> Option<Bytes>

  function RecoverDeclarationSigner(recover: Recovery, digest: Bytes, signature: Bytes): Result<Bytes> {
    if !IsCanonicalSignature(signature) then Err("signature must be 65 bytes, v in {27,28}, low-s")
    else
      match recover(digest, signature)
      case None => Err("no such signer")
      case Some(a) => Ok(a)
  }

  // ---------------------------------------------------------------- the CAIP-10 agent id

  function DecimalBytes(n: nat): Bytes {
    if n < 10 then [0x30 + n] else DecimalBytes(n / 10) + [0x30 + n % 10]
  }

  function HexNibble(d: int): Byte
    requires 0 <= d < 16
  {
    if d < 10 then 0x30 + d else 0x61 + d - 10
  }

  function HexBytes(b: Bytes): Bytes {
    if b == [] then [] else [HexNibble(b[0] / 16), HexNibble(b[0] % 16)] + HexBytes(b[1..])
  }

  /** `eip155:<chain>:<address>` in lowercase. */
  function Caip10(chainId: nat, agent: Bytes): Bytes {
    Ascii("eip155:") + DecimalBytes(chainId) + Ascii(":0x") + HexBytes(agent)
  }

  /** The value of a lowercase hexadecimal digit. */
  function NibbleValue(b: Byte): int {
    if 0x30 <= b <= 0x39 then b as int - 0x30 else if 0x61 <= b <= 0x66 then b as int - 0x61 + 10 else -1
  }

  lemma {:induction false} HexReadsBack(b: Bytes, i: nat)
    requires i < |b|
    ensures |HexBytes(b)| == 2 * |b|
    ensures 0 <= NibbleValue(HexBytes(b)[2 * i]) < 16 && 0 <= NibbleValue(HexBytes(b)[2 * i + 1]) < 16
    ensures 16 * NibbleValue(HexBytes(b)[2 * i]) + NibbleValue(HexBytes(b)[2 * i + 1]) == b[i]
  {
    HexLength(b);
    if i > 0 {
      HexReadsBack(b[1..], i - 1);
    }
  }

  lemma {:induction false} HexLength(b: Bytes)
    ensures |HexBytes(b)| == 2 * |b|
  {
    if b == [] {
    } else {
      HexLength(b[1..]);
    }
  }

  lemma {:induction false} DecimalBytesAreDecimal(n: nat)
    ensures DecimalBytes(n) == ToDecimal(n)
  {
    if n >= 10 {
      DecimalBytesAreDecimal(n / 10);
    }
  }

  /** An account id names its chain in decimal and its address in lowercase hexadecimal, byte by byte. */
  lemma Caip10Reads(H: Hasher, chainId: nat, agent: Bytes) returns (chain: Bytes, address: Bytes)
    ensures AgentIdForKey(H, chainId, agent) == H(Ascii("eip155:") + chain + Ascii(":0x") + address)
    ensures IsNumeral(chain) && FromDecimal(chain) == chainId && (|chain| > 1 ==> chain[0] != 0x30)
    ensures |address| == 2 * |agent| && forall i :: 0 <= i < |agent| ==>
      && NibbleValue(address[2 * i]) >= 0 && NibbleValue(address[2 * i + 1]) >= 0
      && 16 * NibbleValue(address[2 * i]) + NibbleValue(address[2 * i + 1]) == agent[i]
  {
    chain, address := DecimalBytes(chainId), HexBytes(agent);
    DecimalBytesAreDecimal(chainId);
    DecimalRoundTrip(chainId);
    NoLeadingZero(chainId);
    HexLength(agent);
    forall i | 0 <= i < |agent|
      ensures NibbleValue(address[2 * i]) >= 0 && NibbleValue(address[2 * i + 1]) >= 0
      ensures 16 * NibbleValue(address[2 * i]) + NibbleValue(address[2 * i + 1]) == agent[i]
    {
      HexReadsBack(agent, i);
    }
  }

  function AgentIdForKey(H: Hasher, chainId: nat, agent: Bytes): Word { H(Caip10(chainId, agent)) }
}
