/**
 * The digest of a declaration against EIP-712: the type text is that of its list of members, and the
 * hashed bytes hold the members' encodings in the order of that list.
 */
module TypedData {
  import opened Bytes
  import opened Text
  import opened Eip712

  /** The member types that occur. */
  datatype Kind = Address | Bytes32 | String | Uint8 | Uint16 | Uint64 | Uint256

  datatype Member = Member(kind: Kind, name: string)

  /** What a member of a message holds; the strings of the domain are plain ASCII. */
  datatype Field = Raw(bytes: Bytes) | Number(n: int) | Chars(text: Text) | AsciiChars(chars: string)

  const DECLARATION_MEMBERS: seq<Member> := [
    Member(Address, "agent"), Member(Bytes32, "contentHash"), Member(Bytes32, "inputHash"),
    Member(String, "modelId"), Member(String, "runtimeId"), Member(Uint8, "processType"),
    Member(Uint8, "humanIntervention"), Member(Uint16, "pipelineSteps"), Member(Uint64, "declaredAt"),
    Member(Bytes32, "nonce"), Member(Bytes32, "metadataHash")]

  const DOMAIN_MEMBERS: seq<Member> := [
    Member(String, "name"), Member(String, "version"), Member(Uint256, "chainId"),
    Member(Address, "verifyingContract")]

  /** The fields of a declaration by their names. */
  predicate Holds(d: Declaration, name: string, f: Field) {
    || (name == "agent" && f == Raw(d.agent))
    || (name == "contentHash" && f == Raw(d.contentHash))
    || (name == "inputHash" && f == Raw(d.inputHash))
    || (name == "modelId" && f == Chars(d.modelId))
    || (name == "runtimeId" && f == Chars(d.runtimeId))
    || (name == "processType" && f == Number(d.processType))
    || (name == "humanIntervention" && f == Number(d.humanIntervention))
    || (name == "pipelineSteps" && f == Number(d.pipelineSteps))
    || (name == "declaredAt" && f == Number(d.declaredAt))
    || (name == "nonce" && f == Raw(d.nonce))
    || (name == "metadataHash" && f == Raw(d.metadataHash))
  }

  predicate DomainHolds(domain: Domain, name: string, f: Field) {
    || (name == "name" && f == AsciiChars("ResExMachina PoG"))
    || (name == "version" && f == AsciiChars("2"))
    || (name == "chainId" && f == Number(domain.chainId))
    || (name == "verifyingContract" && f == Raw(domain.verifyingContract))
  }

  // ---------------------------------------------------------------- encodeType

  function KindText(k: Kind): string {
    match k
    case Address => "address"
    case Bytes32 => "bytes32"
    case String => "string"
    case Uint8 => "uint8"
    case Uint16 => "uint16"
    case Uint64 => "uint64"
    case Uint256 => "uint256"
  }

  function Opened(name: string, ms: seq<Member>): string {
    if ms == [] then name + "("
    else
      var last := ms[|ms| - 1];
      (if |ms| == 1 then name + "(" else Opened(name, ms[..|ms| - 1]) + ",") + KindText(last.kind) + " " + last.name
  }

  /** The name of the type and its members, each as type and name, between parentheses and commas. */
  function EncodeType(name: string, ms: seq<Member>): string { Opened(name, ms) + ")" }

  lemma OneMore(name: string, ms: seq<Member>, k: nat)
    requires 1 <= k < |ms|
    ensures Opened(name, ms[..k + 1]) == Opened(name, ms[..k]) + "," + KindText(ms[k].kind) + " " + ms[k].name
  {
    assert ms[..k + 1][..k] == ms[..k];
  }

  /** The type text of the domain is that of its members. */
  lemma DomainTypeText()
    ensures DOMAIN_TYPE_TEXT == EncodeType("EIP712Domain", DOMAIN_MEMBERS)
  {
    var n, d := "EIP712Domain", DOMAIN_MEMBERS;
    OneMore(n, d, 1);
    OneMore(n, d, 2);
    OneMore(n, d, 3);
    assert d[..4] == d;
  }

  lemma TypeStart()
    ensures TYPE_START == Opened("PoGDeclaration", DECLARATION_MEMBERS[..5])
  {
    var n, d := "PoGDeclaration", DECLARATION_MEMBERS;
    OneMore(n, d, 1);
    OneMore(n, d, 2);
    OneMore(n, d, 3);
    OneMore(n, d, 4);
  }

  lemma TypeMiddle()
    ensures TYPE_MIDDLE == Opened("PoGDeclaration", DECLARATION_MEMBERS[..9])
  {
    var n, d := "PoGDeclaration", DECLARATION_MEMBERS;
    TypeStart();
    OneMore(n, d, 5);
    OneMore(n, d, 6);
    OneMore(n, d, 7);
    OneMore(n, d, 8);
  }

  lemma TypeNonce()
    ensures TYPE_MIDDLE + "," + "bytes32" + " " + "nonce" == Opened("PoGDeclaration", DECLARATION_MEMBERS[..10])
  {
    TypeMiddle();
    OneMore("PoGDeclaration", DECLARATION_MEMBERS, 9);
  }

  /** The type text of a declaration is that of its members. */
  lemma DeclarationTypeText()
    ensures TYPE_TEXT == EncodeType("PoGDeclaration", DECLARATION_MEMBERS)
  {
    var n, d := "PoGDeclaration", DECLARATION_MEMBERS;
    TypeNonce();
    OneMore(n, d, 10);
    assert d[..11] == d;
  }

  // ---------------------------------------------------------------- encodeData

  /** The width of an unsigned integer type, as the number of its values. */
  function Values(k: Kind): nat
    requires k.Uint8? || k.Uint16? || k.Uint64? || k.Uint256?
  {
    match k
    case Uint8 => 0x100
    case Uint16 => 0x1_0000
    case Uint64 => 0x1_0000_0000_0000_0000
    case Uint256 => Pow256(32)
  }

  /**
   * The word that encodes a field: a number or an address by its value, 32 bytes by themselves, and a
   * string by the hash of its bytes. It is unique, for words of one value are equal.
   */
  predicate Encodes(H: Hasher, k: Kind, f: Field, w: Word) {
    match k
    case Address => f.Raw? && |f.bytes| == 20 && Value(w) == Value(f.bytes)
    case Bytes32 => f.Raw? && w == f.bytes
    case String => (f.Chars? && w == H(Utf8(f.text))) || (f.AsciiChars? && w == H(Ascii(f.chars)))
    case _ => f.Number? && 0 <= f.n < Values(k) && Value(w) == f.n
  }

  lemma {:induction false} LeadingZeros(zeros: Bytes, b: Bytes)
    requires forall i :: 0 <= i < |zeros| ==> zeros[i] == 0
    ensures Value(zeros + b) == Value(b)
  {
    if b != [] {
      LeadingZeros(zeros, b[..|b| - 1]);
      assert (zeros + b)[..|zeros + b| - 1] == zeros + b[..|b| - 1];
    } else if zeros != [] {
      LeadingZeros(zeros[..|zeros| - 1], []);
      assert (zeros + b)[..|zeros| - 1] == zeros[..|zeros| - 1] + [];
    }
  }

  lemma AddressValue(a: Bytes)
    requires |a| == 20
    ensures Value(AddressWord(a)) == Value(a)
  {
    LeadingZeros([0, 0, 0, 0, 0, 0, 0, 0, 0, 0, 0, 0], a);
  }

  lemma UintValue(n: nat)
    requires n < 0x1_0000_0000_0000_0000 || n < Pow256(32)
    ensures Value(Uint(n)) == n
  {
    SmallNumbers();
    BigEndianValue(n, 32);
  }

  /** Member `i` of the type is encoded in word `i + 1`, after the hash of the type. */
  ghost predicate MemberEncoded(H: Hasher, d: Declaration, i: nat)
    requires Encodable(d) && i < |DECLARATION_MEMBERS|
  {
    var m := DECLARATION_MEMBERS[i];
    i + 1 < |Words(H, d)| && exists f :: Holds(d, m.name, f) && Encodes(H, m.kind, f, Words(H, d)[i + 1])
  }

  lemma ByteMembers(H: Hasher, d: Declaration)
    requires Encodable(d)
    ensures MemberEncoded(H, d, 0) && MemberEncoded(H, d, 1) && MemberEncoded(H, d, 2)
  {
    var ws, ms := Words(H, d), DECLARATION_MEMBERS;
    AddressValue(d.agent);
    assert Holds(d, ms[0].name, Raw(d.agent)) && Encodes(H, ms[0].kind, Raw(d.agent), ws[1]);
    assert Holds(d, ms[1].name, Raw(d.contentHash)) && Encodes(H, ms[1].kind, Raw(d.contentHash), ws[2]);
    assert Holds(d, ms[2].name, Raw(d.inputHash)) && Encodes(H, ms[2].kind, Raw(d.inputHash), ws[3]);
  }

  lemma LastMembers(H: Hasher, d: Declaration)
    requires Encodable(d)
    ensures MemberEncoded(H, d, 9) && MemberEncoded(H, d, 10)
  {
    var ws, ms := Words(H, d), DECLARATION_MEMBERS;
    assert Holds(d, ms[9].name, Raw(d.nonce)) && Encodes(H, ms[9].kind, Raw(d.nonce), ws[10]);
    assert Holds(d, ms[10].name, Raw(d.metadataHash)) && Encodes(H, ms[10].kind, Raw(d.metadataHash), ws[11]);
  }

  lemma NameMembers(H: Hasher, d: Declaration)
    requires Encodable(d)
    ensures MemberEncoded(H, d, 3) && MemberEncoded(H, d, 4)
  {
    var ws, ms := Words(H, d), DECLARATION_MEMBERS;
    assert Holds(d, ms[3].name, Chars(d.modelId)) && Encodes(H, ms[3].kind, Chars(d.modelId), ws[4]);
    assert Holds(d, ms[4].name, Chars(d.runtimeId)) && Encodes(H, ms[4].kind, Chars(d.runtimeId), ws[5]);
  }

  lemma NumberMembers(H: Hasher, d: Declaration)
    requires Encodable(d)
    ensures MemberEncoded(H, d, 5) && MemberEncoded(H, d, 6)
  {
    var ws, ms := Words(H, d), DECLARATION_MEMBERS;
    UintValue(d.processType);
    UintValue(d.humanIntervention);
    assert Holds(d, ms[5].name, Number(d.processType)) && Encodes(H, ms[5].kind, Number(d.processType), ws[6]);
    assert Holds(d, ms[6].name, Number(d.humanIntervention)) && Encodes(H, ms[6].kind, Number(d.humanIntervention), ws[7]);
  }

  lemma WideMembers(H: Hasher, d: Declaration)
    requires Encodable(d)
    ensures MemberEncoded(H, d, 7) && MemberEncoded(H, d, 8)
  {
    var ws, ms := Words(H, d), DECLARATION_MEMBERS;
    UintValue(d.pipelineSteps);
    UintValue(d.declaredAt);
    assert Holds(d, ms[7].name, Number(d.pipelineSteps)) && Encodes(H, ms[7].kind, Number(d.pipelineSteps), ws[8]);
    assert Holds(d, ms[8].name, Number(d.declaredAt)) && Encodes(H, ms[8].kind, Number(d.declaredAt), ws[9]);
  }

  /**
   * The struct hash of EIP-712: the words are the hash of the type text of the members, then the
   * encoding of each member, in the order in which the type lists them.
   */
  lemma WordsFollowType(H: Hasher, d: Declaration)
    requires Encodable(d)
    ensures |Words(H, d)| == |DECLARATION_MEMBERS| + 1
    ensures Words(H, d)[0] == H(Ascii(EncodeType("PoGDeclaration", DECLARATION_MEMBERS)))
    ensures forall i: nat :: i < |DECLARATION_MEMBERS| ==> MemberEncoded(H, d, i)
  {
    DeclarationTypeText();
    ByteMembers(H, d);
    NameMembers(H, d);
    NumberMembers(H, d);
    WideMembers(H, d);
    LastMembers(H, d);
    forall i: nat | i < |DECLARATION_MEMBERS| ensures MemberEncoded(H, d, i) {
      Eleven(i);
    }
  }

  lemma Eleven(i: nat)
    requires i < |DECLARATION_MEMBERS|
    ensures i == 0 || i == 1 || i == 2 || i == 3 || i == 4 || i == 5 || i == 6 || i == 7 || i == 8 || i == 9 || i == 10
  {
  }

  ghost predicate DomainMemberEncoded(H: Hasher, domain: Domain, i: nat)
    requires DomainOk(domain) && i < |DOMAIN_MEMBERS|
  {
    var m := DOMAIN_MEMBERS[i];
    i + 1 < |DomainWords(H, domain)|
    && exists f :: DomainHolds(domain, m.name, f) && Encodes(H, m.kind, f, DomainWords(H, domain)[i + 1])
  }

  /** The domain separator of EIP-712, likewise. */
  lemma DomainWordsFollowType(H: Hasher, domain: Domain)
    requires DomainOk(domain)
    ensures |DomainWords(H, domain)| == |DOMAIN_MEMBERS| + 1
    ensures DomainWords(H, domain)[0] == H(Ascii(EncodeType("EIP712Domain", DOMAIN_MEMBERS)))
    ensures forall i: nat :: i < |DOMAIN_MEMBERS| ==> DomainMemberEncoded(H, domain, i)
  {
    DomainTypeText();
    DomainNames(H, domain);
    DomainPlace(H, domain);
    forall i: nat | i < |DOMAIN_MEMBERS| ensures DomainMemberEncoded(H, domain, i) {
      assert i == 0 || i == 1 || i == 2 || i == 3;
    }
  }

  lemma DomainNames(H: Hasher, domain: Domain)
    requires DomainOk(domain)
    ensures DomainMemberEncoded(H, domain, 0) && DomainMemberEncoded(H, domain, 1)
  {
    var ws, ms := DomainWords(H, domain), DOMAIN_MEMBERS;
    var name, version := AsciiChars("ResExMachina PoG"), AsciiChars("2");
    assert DomainHolds(domain, ms[0].name, name) && Encodes(H, ms[0].kind, name, ws[1]);
    assert DomainHolds(domain, ms[1].name, version) && Encodes(H, ms[1].kind, version, ws[2]);
  }

  lemma DomainPlace(H: Hasher, domain: Domain)
    requires DomainOk(domain)
    ensures DomainMemberEncoded(H, domain, 2) && DomainMemberEncoded(H, domain, 3)
  {
    var ws, ms := DomainWords(H, domain), DOMAIN_MEMBERS;
    UintValue(domain.chainId);
    AddressValue(domain.verifyingContract);
    var id, contract := Number(domain.chainId), Raw(domain.verifyingContract);
    assert DomainHolds(domain, ms[2].name, id) && Encodes(H, ms[2].kind, id, ws[3]);
    assert DomainHolds(domain, ms[3].name, contract) && Encodes(H, ms[3].kind, contract, ws[4]);
  }

  // ---------------------------------------------------------------- hashStruct and the digest

  /** The bytes hashed for a struct are its words one after the other. */
  lemma {:induction false} WordAt(ws: seq<Word>, i: nat)
    requires i < |ws|
    ensures |Flatten(ws)| == 32 * |ws| && Flatten(ws)[32 * i..32 * i + 32] == ws[i]
  {
    FlattenLength(ws);
    if i > 0 {
      WordAt(ws[1..], i - 1);
      var rest := Flatten(ws[1..]);
      assert Flatten(ws)[32 * i..32 * i + 32] == rest[32 * (i - 1)..32 * (i - 1) + 32];
    }
  }

  lemma {:induction false} FlattenLength(ws: seq<Word>)
    ensures |Flatten(ws)| == 32 * |ws|
  {
    if ws == [] {
    } else {
      FlattenLength(ws[1..]);
    }
  }

  /** The hashed message: 0x19, 0x01, then the hash of the domain, then that of the declaration. */
  lemma DigestLayout(H: Hasher, domain: Domain, d: Declaration)
    requires DomainOk(domain) && Encodable(d)
    ensures var p := DigestPreimage(H, domain, d);
      && DeclarationDigest(H, domain, d) == H(p) && |p| == 66 && p[0] == 0x19 && p[1] == 0x01
      && p[2..34] == H(Flatten(DomainWords(H, domain))) && p[34..66] == H(Flatten(Words(H, d)))
  {
    var a, b := H(Flatten(DomainWords(H, domain))), H(Flatten(Words(H, d)));
    var p := DigestPreimage(H, domain, d);
    assert p == [0x19, 0x01] + a + b;
    assert p[2..34] == a && p[34..66] == b;
  }
}
