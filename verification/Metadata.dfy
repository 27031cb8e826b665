/** The hash that commits a declaration to its metadata. */
module Metadata {
  import opened Bytes
  import opened Outcomes
  import opened Text
  import opened Json
  import opened CanonicalJson

  /** `metadataHash`: zero without metadata, otherwise the hash of the canonical text's UTF-8 bytes. */
  function MetadataHash(sha: Hasher, metadata: Option<Members>): Result<Word> {
    if metadata.None? || metadata.value.NoMembers? then Ok(ZERO_WORD)
    else
      match CanonicalText(Obj(metadata.value))
      case Err(e) => Err(e)
      case Ok(text) => Ok(sha(Utf8(text)))
  }

  // ---------------------------------------------------------------- canonical texts are well-formed strings

  lemma UnitTextWellFormed(u: Unit)
    ensures WellFormed(EscapeUnit(u))
  {
    var e := EscapeUnit(u);
    if |e| == 6 {
      AsciiWellFormed(e);
    } else if |e| == 2 {
      AsciiWellFormed(e);
    }
  }

  lemma {:induction false} AsciiWellFormed(t: Text)
    requires forall u :: u in t ==> u < 0x80
    ensures WellFormed(t)
  {
    if t == [] {
    } else {
      assert t[0] in t && forall u :: u in t[1..] ==> u in t;
      AsciiWellFormed(t[1..]);
    }
  }

  lemma {:induction false} QuoteBodyWellFormed(s: Text)
    ensures WellFormed(QuoteBody(s))
  {
    if s == [] {
    } else if StartsWithPair(s) {
      QuoteBodyWellFormed(s[2..]);
      assert QuoteBody(s)[2..] == QuoteBody(s[2..]);
    } else {
      QuoteBodyWellFormed(s[1..]);
      UnitTextWellFormed(s[0]);
      WellFormedConcat(EscapeUnit(s[0]), QuoteBody(s[1..]));
    }
  }

  lemma Bracketed(open: Unit, t: Text, close: Unit)
    requires open < 0x80 && close < 0x80 && WellFormed(t)
    ensures WellFormed([open] + t + [close])
  {
    AsciiWellFormed([open]);
    AsciiWellFormed([close]);
    WellFormedConcat([open], t);
    WellFormedConcat([open] + t, [close]);
  }

  lemma QuoteWellFormed(s: Text)
    ensures WellFormed(Quote(s))
  {
    QuoteBodyWellFormed(s);
    Bracketed(QUOTE, QuoteBody(s), QUOTE);
  }

  lemma {:induction false} PlainWellFormed(v: Json)
    requires Valid(v)
    ensures WellFormed(Plain(v))
    decreases v, 0
  {
    match v
    case Null => AsciiWellFormed(NULL_TEXT);
    case Bool(b) => AsciiWellFormed(TRUE_TEXT); AsciiWellFormed(FALSE_TEXT);
    case Num(t) => AsciiWellFormed(t);
    case NonFinite =>
    case Str(s) => QuoteWellFormed(s);
    case Arr(items) =>
      ItemsWellFormed(items);
      Bracketed(OPEN_ARRAY, PlainItems(items), CLOSE_ARRAY);
    case Obj(ms) =>
      MembersWellFormed(ms);
      Bracketed(OPEN_OBJECT, PlainMembers(ms), CLOSE_OBJECT);
  }

  lemma CommaWellFormed(t: Text)
    requires WellFormed(t)
    ensures WellFormed([COMMA] + t)
  {
    AsciiWellFormed([COMMA]);
    WellFormedConcat([COMMA], t);
  }

  lemma {:induction false} ItemsWellFormed(items: Items)
    requires ValidItems(items)
    ensures WellFormed(PlainItems(items))
    decreases items, 1
  {
    if items.NoItems? {
    } else {
      PlainWellFormed(items.head);
      ItemsWellFormed(items.tail);
      CommaWellFormed(PlainItems(items.tail));
      WellFormedConcat(Plain(items.head), if items.tail.NoItems? then [] else [COMMA] + PlainItems(items.tail));
    }
  }

  lemma {:induction false} MembersWellFormed(ms: Members)
    requires ValidMembers(ms)
    ensures WellFormed(PlainMembers(ms))
    decreases ms, 1
  {
    if ms.NoMembers? {
    } else {
      QuoteWellFormed(ms.key);
      AsciiWellFormed([COLON]);
      PlainWellFormed(ms.value);
      MembersWellFormed(ms.rest);
      CommaWellFormed(PlainMembers(ms.rest));
      WellFormedConcat(Quote(ms.key), [COLON]);
      WellFormedConcat(Quote(ms.key) + [COLON], Plain(ms.value));
      WellFormedConcat(Quote(ms.key) + [COLON] + Plain(ms.value),
                       if ms.rest.NoMembers? then [] else [COMMA] + PlainMembers(ms.rest));
    }
  }

  /** The bytes hashed for metadata. */
  function MetadataBytes(ms: Members): Bytes { Utf8(Render(Obj(ms))) }

  /** Different metadata give different bytes to hash, and reordered metadata the same bytes. */
  lemma MetadataBytesCanonical(ms: Members, ns: Members)
    requires ValidMembers(ms) && ValidMembers(ns) && FiniteMembers(ms) && FiniteMembers(ns)
    ensures MetadataBytes(ms) == MetadataBytes(ns) <==> Same(Obj(ms), Obj(ns))
  {
    var a, b := Obj(ms), Obj(ns);
    CanonicalForm(a, b);
    RenderIsPlain(a);
    RenderIsPlain(b);
    CanonIsValid(a);
    CanonIsValid(b);
    PlainWellFormed(Canon(a));
    PlainWellFormed(Canon(b));
    if MetadataBytes(ms) == MetadataBytes(ns) {
      Utf8Injective(Render(a), Render(b));
    }
  }

  /**
   * What a metadata hash commits to. Metadata equal up to member order have equal hashes, so any
   * reordering in storage is harmless; and equal hashes of metadata that are not so equal come with
   * two different byte strings that SHA-256 maps to one value.
   */
  lemma MetadataCommitment(sha: Hasher, ms: Members, ns: Members)
    requires ms.Member? && ns.Member?
    requires ValidMembers(ms) && ValidMembers(ns) && FiniteMembers(ms) && FiniteMembers(ns)
    ensures Same(Obj(ms), Obj(ns)) ==> MetadataHash(sha, Some(ms)) == MetadataHash(sha, Some(ns))
    ensures MetadataHash(sha, Some(ms)) == MetadataHash(sha, Some(ns))
      ==> Same(Obj(ms), Obj(ns)) || Collide(sha, MetadataBytes(ms), MetadataBytes(ns))
  {
    MetadataBytesCanonical(ms, ns);
  }

  predicate Empty(metadata: Option<Members>) { metadata.None? || metadata.value.NoMembers? }

  predicate Printable(metadata: Option<Members>) {
    metadata.Some? ==> ValidMembers(metadata.value) && FiniteMembers(metadata.value)
  }

  /**
   * The same with the zero hash, which absent and empty metadata have: it commits to there being no
   * metadata, short of a text that SHA-256 maps to zero.
   */
  lemma MetadataHashCommits(sha: Hasher, a: Option<Members>, b: Option<Members>)
    requires Printable(a) && Printable(b)
    ensures Empty(a) && Empty(b) ==> MetadataHash(sha, a) == MetadataHash(sha, b) == Ok(ZERO_WORD)
    ensures !Empty(a) && !Empty(b) && Same(Obj(a.value), Obj(b.value)) ==> MetadataHash(sha, a) == MetadataHash(sha, b)
    ensures MetadataHash(sha, a) == MetadataHash(sha, b)
      ==> || (Empty(a) && Empty(b))
          || (!Empty(a) && Empty(b) && sha(MetadataBytes(a.value)) == ZERO_WORD)
          || (Empty(a) && !Empty(b) && sha(MetadataBytes(b.value)) == ZERO_WORD)
          || (!Empty(a) && !Empty(b)
              && (Same(Obj(a.value), Obj(b.value)) || Collide(sha, MetadataBytes(a.value), MetadataBytes(b.value))))
  {
    if !Empty(a) && !Empty(b) {
      MetadataCommitment(sha, a.value, b.value);
    }
  }
}
