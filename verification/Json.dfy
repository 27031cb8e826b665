/** JSON values, the strings and numbers of their text, and a parser for that text. */
module Json {
  import opened Outcomes
  import opened Text

  /**
   * A finite number is represented by the text ECMAScript prints for it; infinities and NaN are one
   * value. Members stand in the order in which they were added to the object.
   */
  datatype Json =
    | Null
    | Bool(value: bool)
    | Num(text: Text)
    | NonFinite
    | Str(chars: Text)
    | Arr(items: Items)
    | Obj(members: Members)
  datatype Items = NoItems | Item(head: Json, tail: Items)
  datatype Members = NoMembers | Member(key: Text, value: Json, rest: Members)

  const QUOTE: Unit := 0x22
  const BACKSLASH: Unit := 0x5C
  const COMMA: Unit := 0x2C
  const COLON: Unit := 0x3A
  const OPEN_ARRAY: Unit := 0x5B
  const CLOSE_ARRAY: Unit := 0x5D
  const OPEN_OBJECT: Unit := 0x7B
  const CLOSE_OBJECT: Unit := 0x7D
  const NULL_TEXT: Text := [0x6E, 0x75, 0x6C, 0x6C]
  const TRUE_TEXT: Text := [0x74, 0x72, 0x75, 0x65]
  const FALSE_TEXT: Text := [0x66, 0x61, 0x6C, 0x73, 0x65]

  /** Digits, sign, point and exponent. */
  predicate IsNumberUnit(u: Unit) { 0x30 <= u <= 0x39 || u == 0x2B || u == 0x2D || u == 0x2E || u == 0x65 }

  predicate IsNumberText(t: Text) { t != [] && forall u :: u in t ==> IsNumberUnit(u) }

  predicate HasKey(ms: Members, k: Text) { ms.Member? && (ms.key == k || HasKey(ms.rest, k)) }

  /** What every value of the language satisfies: number texts are number texts, keys are distinct. */
  predicate Valid(v: Json) {
    match v
    case Num(t) => IsNumberText(t)
    case Arr(items) => ValidItems(items)
    case Obj(members) => ValidMembers(members)
    case _ => true
  }

  predicate ValidItems(items: Items) { items.Item? ==> Valid(items.head) && ValidItems(items.tail) }

  predicate ValidMembers(ms: Members) {
    ms.Member? ==> Valid(ms.value) && !HasKey(ms.rest, ms.key) && ValidMembers(ms.rest)
  }

  predicate Finite(v: Json) {
    match v
    case NonFinite => false
    case Arr(items) => FiniteItems(items)
    case Obj(members) => FiniteMembers(members)
    case _ => true
  }

  predicate FiniteItems(items: Items) { items.Item? ==> Finite(items.head) && FiniteItems(items.tail) }

  predicate FiniteMembers(ms: Members) { ms.Member? ==> Finite(ms.value) && FiniteMembers(ms.rest) }

  // ---------------------------------------------------------------- strings

  function HexDigit(d: int): Unit
    requires 0 <= d < 16
  {
    if d < 10 then 0x30 + d else 0x61 + d - 10
  }

  function HexValue(u: Unit): Option<int> {
    if 0x30 <= u <= 0x39 then Some(u as int - 0x30)
    else if 0x61 <= u <= 0x66 then Some(u as int - 0x61 + 10)
    else None
  }

  /** The letter of a two-character escape, if the unit has one. */
  function ShortEscape(u: Unit): Option<Unit> {
    if u == QUOTE || u == BACKSLASH then Some(u)
    else if u == 0x08 then Some(0x62)
    else if u == 0x09 then Some(0x74)
    else if u == 0x0A then Some(0x6E)
    else if u == 0x0C then Some(0x66)
    else if u == 0x0D then Some(0x72)
    else None
  }

  function EscapeUnit(u: Unit): (t: Text)
    ensures t != []
  {
    if ShortEscape(u).Some? then [BACKSLASH, ShortEscape(u).value]
    else if u < 0x20 || IsLead(u) || IsTrail(u) then
      [BACKSLASH, 0x75, HexDigit(u / 4096), HexDigit(u / 256 % 16), HexDigit(u / 16 % 16), HexDigit(u % 16)]
    else [u]
  }

  /** `JSON.stringify` on a string: pairs of surrogates stand as they are, lone ones are escaped. */
  function QuoteBody(s: Text): Text {
    if s == [] then []
    else if StartsWithPair(s) then [s[0], s[1]] + QuoteBody(s[2..])
    else EscapeUnit(s[0]) + QuoteBody(s[1..])
  }

  function Quote(s: Text): Text { [QUOTE] + QuoteBody(s) + [QUOTE] }

  function LongEscape(t: Text): Option<Unit>
    requires |t| >= 6
  {
    var a, b, c, d := HexValue(t[2]), HexValue(t[3]), HexValue(t[4]), HexValue(t[5]);
    if t[1] == 0x75 && a.Some? && b.Some? && c.Some? && d.Some?
    then Some(a.value * 4096 + b.value * 256 + c.value * 16 + d.value) else None
  }

  function ShortUnescape(u: Unit): Option<Unit> {
    if u == QUOTE || u == BACKSLASH then Some(u)
    else if u == 0x62 then Some(0x08)
    else if u == 0x74 then Some(0x09)
    else if u == 0x6E then Some(0x0A)
    else if u == 0x66 then Some(0x0C)
    else if u == 0x72 then Some(0x0D)
    else None
  }

  /** The first unit a quoted text stands for, and how many units it takes. */
  function FirstUnit(t: Text): (r: Option<(Unit, nat)>)
    requires t != []
    ensures r.Some? ==> 1 <= r.value.1 <= |t|
  {
    if t[0] != BACKSLASH then Some((t[0], 1))
    else if |t| >= 2 && ShortUnescape(t[1]).Some? then Some((ShortUnescape(t[1]).value, 2))
    else if |t| >= 6 && LongEscape(t).Some? then Some((LongEscape(t).value, 6))
    else None
  }

  /** The string up to the closing quote, and what follows it. */
  function ParseBody(t: Text): (r: Option<(Text, Text)>)
    ensures r.Some? ==> |r.value.1| < |t|
    decreases |t|
  {
    if t == [] then None
    else if t[0] == QUOTE then Some(([], t[1..]))
    else
      match FirstUnit(t)
      case None => None
      case Some(first) =>
        match ParseBody(t[first.1..])
        case None => None
        case Some(more) => Some(([first.0] + more.0, more.1))
  }

  lemma HexRoundTrip(d: int)
    requires 0 <= d < 16
    ensures HexValue(HexDigit(d)) == Some(d)
  {
  }

  /** One unit is read back from its escape, whatever follows. */
  lemma UnitRoundTrip(u: Unit, rest: Text)
    ensures var t := EscapeUnit(u) + rest;
      t[0] != QUOTE && FirstUnit(t) == Some((u, |EscapeUnit(u)|)) && t[|EscapeUnit(u)|..] == rest
  {
    var e := EscapeUnit(u);
    var t := e + rest;
    assert t[|e|..] == rest;
    if ShortEscape(u).None? && (u < 0x20 || IsLead(u) || IsTrail(u)) {
      HexRoundTrip(u / 4096);
      HexRoundTrip(u / 256 % 16);
      HexRoundTrip(u / 16 % 16);
      HexRoundTrip(u % 16);
      assert t[..6] == e;
      assert t[1] == 0x75 && t[2] == e[2] && t[3] == e[3] && t[4] == e[4] && t[5] == e[5];
      assert u / 256 == u / 16 / 16 && u / 4096 == u / 256 / 16;
    }
  }

  /** A text whose first unit reads as `u` parses to `u` and what the remainder parses to. */
  lemma BodyStep(t: Text, u: Unit, n: nat, more: Text, s: Text, rest: Text)
    requires t != [] && t[0] != QUOTE && 1 <= n <= |t| && FirstUnit(t) == Some((u, n)) && t[n..] == more
    requires ParseBody(more) == Some((s, rest))
    ensures ParseBody(t) == Some(([u] + s, rest))
  {
  }

  lemma PlainStep(u: Unit, more: Text, s: Text, rest: Text)
    requires u != QUOTE && u != BACKSLASH && ParseBody(more) == Some((s, rest))
    ensures ParseBody([u] + more) == Some(([u] + s, rest))
  {
    assert ([u] + more)[1..] == more;
    BodyStep([u] + more, u, 1, more, s, rest);
  }

  lemma PairText<T>(h: T, l: T, body: seq<T>, q: seq<T>, rest: seq<T>)
    ensures [h, l] + body + q + rest == [h] + ([l] + (body + q + rest))
  {
  }

  lemma PairStep(h: Unit, l: Unit, body: Text, s: Text, rest: Text)
    requires IsLead(h) && IsTrail(l) && ParseBody(body + [QUOTE] + rest) == Some((s, rest))
    ensures ParseBody([h, l] + body + [QUOTE] + rest) == Some(([h, l] + s, rest))
  {
    PairText(h, l, body, [QUOTE], rest);
    PairText(h, l, s, [], []);
    assert s + [] + [] == s && [h, l] + s + [] + [] == [h, l] + s;
    PlainStep(l, body + [QUOTE] + rest, s, rest);
    PlainStep(h, [l] + (body + [QUOTE] + rest), [l] + s, rest);
  }

  lemma UnitStep(u: Unit, body: Text, s: Text, rest: Text)
    requires ParseBody(body + [QUOTE] + rest) == Some((s, rest))
    ensures ParseBody(EscapeUnit(u) + body + [QUOTE] + rest) == Some(([u] + s, rest))
  {
    var more := body + [QUOTE] + rest;
    UnitRoundTrip(u, more);
    assert EscapeUnit(u) + body + [QUOTE] + rest == EscapeUnit(u) + more;
    BodyStep(EscapeUnit(u) + more, u, |EscapeUnit(u)|, more, s, rest);
  }

  lemma {:induction false} StringRoundTrip(s: Text, rest: Text)
    ensures ParseBody(QuoteBody(s) + [QUOTE] + rest) == Some((s, rest))
  {
    if s == [] {
      assert QuoteBody(s) + [QUOTE] + rest == [QUOTE] + rest;
    } else if StartsWithPair(s) {
      StringRoundTrip(s[2..], rest);
      PairStep(s[0], s[1], QuoteBody(s[2..]), s[2..], rest);
      assert s == [s[0], s[1]] + s[2..];
    } else {
      StringRoundTrip(s[1..], rest);
      UnitStep(s[0], QuoteBody(s[1..]), s[1..], rest);
      assert s == [s[0]] + s[1..];
    }
  }

  // ---------------------------------------------------------------- printing in the given order

  function Plain(v: Json): Text {
    match v
    case Null => NULL_TEXT
    case Bool(b) => if b then TRUE_TEXT else FALSE_TEXT
    case Num(t) => t
    case NonFinite => []
    case Str(s) => Quote(s)
    case Arr(items) => [OPEN_ARRAY] + PlainItems(items) + [CLOSE_ARRAY]
    case Obj(ms) => [OPEN_OBJECT] + PlainMembers(ms) + [CLOSE_OBJECT]
  }

  function PlainItems(items: Items): Text {
    match items
    case NoItems => []
    case Item(v, tail) => Plain(v) + if tail.NoItems? then [] else [COMMA] + PlainItems(tail)
  }

  function PlainMembers(ms: Members): Text {
    match ms
    case NoMembers => []
    case Member(k, v, rest) =>
      Quote(k) + [COLON] + Plain(v) + if rest.NoMembers? then [] else [COMMA] + PlainMembers(rest)
  }

  // ---------------------------------------------------------------- parsing

  function NumberLength(t: Text): (n: nat)
    ensures n <= |t|
  {
    if t != [] && IsNumberUnit(t[0]) then 1 + NumberLength(t[1..]) else 0
  }

  /** A value at the start of a text, and what follows it. */
  function ParseValue(t: Text): (r: Option<(Json, Text)>)
    ensures r.Some? ==> |r.value.1| < |t|
    decreases |t|, 0
  {
    if t == [] then None
    else if NULL_TEXT <= t then Some((Null, t[4..]))
    else if TRUE_TEXT <= t then Some((Bool(true), t[4..]))
    else if FALSE_TEXT <= t then Some((Bool(false), t[5..]))
    else if t[0] == QUOTE then
      match ParseBody(t[1..])
      case None => None
      case Some(s) => Some((Str(s.0), s.1))
    else if t[0] == OPEN_ARRAY then
      if |t| >= 2 && t[1] == CLOSE_ARRAY then Some((Arr(NoItems), t[2..]))
      else
        match ParseItems(t[1..])
        case None => None
        case Some(items) => Some((Arr(items.0), items.1))
    else if t[0] == OPEN_OBJECT then
      if |t| >= 2 && t[1] == CLOSE_OBJECT then Some((Obj(NoMembers), t[2..]))
      else
        match ParseMembers(t[1..])
        case None => None
        case Some(ms) => Some((Obj(ms.0), ms.1))
    else
      var n := NumberLength(t);
      if n > 0 then Some((Num(t[..n]), t[n..])) else None
  }

  function ParseItems(t: Text): (r: Option<(Items, Text)>)
    ensures r.Some? ==> |r.value.1| < |t|
    decreases |t|, 1
  {
    match ParseValue(t)
    case None => None
    case Some((v, u)) =>
      if u != [] && u[0] == CLOSE_ARRAY then Some((Item(v, NoItems), u[1..]))
      else if u != [] && u[0] == COMMA then
        match ParseItems(u[1..])
        case None => None
        case Some((items, rest)) => Some((Item(v, items), rest))
      else None
  }

  function ParseMembers(t: Text): (r: Option<(Members, Text)>)
    ensures r.Some? ==> |r.value.1| < |t|
    decreases |t|, 1
  {
    if t == [] || t[0] != QUOTE then None else
    match ParseBody(t[1..])
    case None => None
    case Some((k, u)) =>
      if u == [] || u[0] != COLON then None else
      match ParseValue(u[1..])
      case None => None
      case Some((v, w)) =>
        if w != [] && w[0] == CLOSE_OBJECT then Some((Member(k, v, NoMembers), w[1..]))
        else if w != [] && w[0] == COMMA then
          match ParseMembers(w[1..])
          case None => None
          case Some((ms, rest)) => Some((Member(k, v, ms), rest))
        else None
  }

  // ---------------------------------------------------------------- the parser inverts the printer

  /** What may follow the text of a value without becoming part of it. */
  predicate Ends(v: Json, rest: Text) { v.Num? && rest != [] ==> !IsNumberUnit(rest[0]) }

  lemma {:induction false} NumberRoundTrip(t: Text, rest: Text)
    requires forall u :: u in t ==> IsNumberUnit(u)
    requires rest != [] ==> !IsNumberUnit(rest[0])
    ensures NumberLength(t + rest) == |t|
  {
    if t == [] {
      assert t + rest == rest;
    } else {
      NumberRoundTrip(t[1..], rest);
      assert (t + rest)[1..] == t[1..] + rest;
    }
  }

  lemma {:induction false} PlainStarts(v: Json)
    requires Valid(v) && Finite(v)
    ensures Plain(v) != [] && Plain(v)[0] != CLOSE_ARRAY
  {
    if v.Num? { assert v.text[0] in v.text; }
  }

  lemma LiteralsDiffer(t: Text)
    requires t != []
    ensures NULL_TEXT <= t ==> t[0] == 0x6E
    ensures TRUE_TEXT <= t ==> t[0] == 0x74
    ensures FALSE_TEXT <= t ==> t[0] == 0x66
  {
  }

  lemma LiteralRoundTrip(v: Json, rest: Text)
    requires v.Null? || v.Bool?
    ensures ParseValue(Plain(v) + rest) == Some((v, rest))
  {
    var t := Plain(v) + rest;
    LiteralsDiffer(t);
    assert t[..|Plain(v)|] == Plain(v) && t[|Plain(v)|..] == rest;
    assert Plain(v) <= t;
    assert t[0] == Plain(v)[0];
  }

  lemma NumRoundTrip(n: Text, rest: Text)
    requires IsNumberText(n) && (rest != [] ==> !IsNumberUnit(rest[0]))
    ensures ParseValue(n + rest) == Some((Num(n), rest))
  {
    var t := n + rest;
    LiteralsDiffer(t);
    NumberRoundTrip(n, rest);
    assert t[0] == n[0] && n[0] in n;
    assert t[..|n|] == n && t[|n|..] == rest;
  }

  /** How the first unit directs the parser to strings, arrays and objects. */
  lemma Directs(t: Text)
    requires t != []
    ensures t[0] == QUOTE && ParseBody(t[1..]).Some?
      ==> ParseValue(t) == Some((Str(ParseBody(t[1..]).value.0), ParseBody(t[1..]).value.1))
    ensures t[0] == OPEN_ARRAY && |t| >= 2 && t[1] != CLOSE_ARRAY && ParseItems(t[1..]).Some?
      ==> ParseValue(t) == Some((Arr(ParseItems(t[1..]).value.0), ParseItems(t[1..]).value.1))
    ensures t[0] == OPEN_OBJECT && |t| >= 2 && t[1] != CLOSE_OBJECT && ParseMembers(t[1..]).Some?
      ==> ParseValue(t) == Some((Obj(ParseMembers(t[1..]).value.0), ParseMembers(t[1..]).value.1))
    ensures t[0] == OPEN_ARRAY && |t| >= 2 && t[1] == CLOSE_ARRAY ==> ParseValue(t) == Some((Arr(NoItems), t[2..]))
    ensures t[0] == OPEN_OBJECT && |t| >= 2 && t[1] == CLOSE_OBJECT ==> ParseValue(t) == Some((Obj(NoMembers), t[2..]))
  {
    LiteralsDiffer(t);
  }

  lemma {:induction false} PlainRoundTrip(v: Json, rest: Text)
    requires Valid(v) && Finite(v) && Ends(v, rest)
    ensures ParseValue(Plain(v) + rest) == Some((v, rest))
    decreases v, 0
  {
    var t := Plain(v) + rest;
    match v {
      case Null => LiteralRoundTrip(v, rest);
      case Bool(_) => LiteralRoundTrip(v, rest);
      case Num(n) => NumRoundTrip(n, rest);
      case Str(s) =>
        KeyRoundTrip(s, rest);
        Directs(t);
      case Arr(items) => ArrayRoundTrip(items, rest);
      case Obj(ms) => ObjectRoundTrip(ms, rest);
    }
  }

  lemma ArrayStep(t: Text, items: Items, rest: Text)
    requires |t| >= 2 && t[0] == OPEN_ARRAY
    requires if items.NoItems? then t[1] == CLOSE_ARRAY && t[2..] == rest
             else t[1] != CLOSE_ARRAY && ParseItems(t[1..]) == Some((items, rest))
    ensures ParseValue(t) == Some((Arr(items), rest))
  {
    Directs(t);
  }

  lemma ObjectStep(t: Text, ms: Members, rest: Text)
    requires |t| >= 2 && t[0] == OPEN_OBJECT
    requires if ms.NoMembers? then t[1] == CLOSE_OBJECT && t[2..] == rest
             else t[1] != CLOSE_OBJECT && ParseMembers(t[1..]) == Some((ms, rest))
    ensures ParseValue(t) == Some((Obj(ms), rest))
  {
    Directs(t);
  }

  /** A text between brackets. */
  lemma BetweenText(open: Unit, body: Text, close: Unit, rest: Text)
    ensures var t := [open] + body + [close] + rest;
      |t| >= 2 && t[0] == open && t[1..] == body + [close] + rest
      && t[1] == (if body == [] then close else body[0]) && (body == [] ==> t[2..] == rest)
  {
    assert [open] + body + [close] + rest == [open] + (body + [close] + rest);
  }

  lemma {:induction false} ArrayRoundTrip(items: Items, rest: Text)
    requires ValidItems(items) && FiniteItems(items)
    ensures ParseValue(Plain(Arr(items)) + rest) == Some((Arr(items), rest))
    decreases items, 2
  {
    BetweenText(OPEN_ARRAY, PlainItems(items), CLOSE_ARRAY, rest);
    if items.Item? {
      ItemsRoundTrip(items, rest);
      PlainStarts(items.head);
    }
    ArrayStep(Plain(Arr(items)) + rest, items, rest);
  }

  lemma {:induction false} ObjectRoundTrip(ms: Members, rest: Text)
    requires ValidMembers(ms) && FiniteMembers(ms)
    ensures ParseValue(Plain(Obj(ms)) + rest) == Some((Obj(ms), rest))
    decreases ms, 2
  {
    BetweenText(OPEN_OBJECT, PlainMembers(ms), CLOSE_OBJECT, rest);
    if ms.Member? {
      MembersRoundTrip(ms, rest);
    }
    ObjectStep(Plain(Obj(ms)) + rest, ms, rest);
  }

  lemma {:induction false} ItemsRoundTrip(items: Items, rest: Text)
    requires items.Item? && ValidItems(items) && FiniteItems(items)
    ensures ParseItems(PlainItems(items) + [CLOSE_ARRAY] + rest) == Some((items, rest))
    decreases items, 1
  {
    var t := PlainItems(items) + [CLOSE_ARRAY] + rest;
    var after := if items.tail.NoItems? then [CLOSE_ARRAY] + rest
                 else [COMMA] + (PlainItems(items.tail) + [CLOSE_ARRAY] + rest);
    assert t == Plain(items.head) + after;
    PlainRoundTrip(items.head, after);
    if items.tail.Item? {
      ItemsRoundTrip(items.tail, rest);
      assert after[1..] == PlainItems(items.tail) + [CLOSE_ARRAY] + rest;
    }
  }

  lemma KeyRoundTrip(k: Text, value: Text)
    ensures var t := Quote(k) + value; t[0] == QUOTE && ParseBody(t[1..]) == Some((k, value))
  {
    StringRoundTrip(k, value);
    assert (Quote(k) + value)[1..] == QuoteBody(k) + [QUOTE] + value;
  }

  /** What follows the first member's value. */
  function AfterMember(ms: Members, rest: Text): Text
    requires ms.Member?
  {
    if ms.rest.NoMembers? then [CLOSE_OBJECT] + rest
    else [COMMA] + (PlainMembers(ms.rest) + [CLOSE_OBJECT] + rest)
  }

  lemma Regroup<T>(q: seq<T>, c: seq<T>, p: seq<T>, x: seq<T>, e: seq<T>, r: seq<T>)
    ensures q + c + p + x + e + r == q + (c + (p + (x + (e + r))))
  {
  }

  lemma MembersText(ms: Members, rest: Text)
    requires ms.Member?
    ensures PlainMembers(ms) + [CLOSE_OBJECT] + rest
            == Quote(ms.key) + ([COLON] + (Plain(ms.value) + AfterMember(ms, rest)))
  {
    var x := if ms.rest.NoMembers? then [] else [COMMA] + PlainMembers(ms.rest);
    Regroup(Quote(ms.key), [COLON], Plain(ms.value), x, [CLOSE_OBJECT], rest);
    assert x + ([CLOSE_OBJECT] + rest) == AfterMember(ms, rest);
  }

  /** A member, its value and the rest parse to the member followed by what the rest parses to. */
  lemma MemberStep(ms: Members, key: Text, value: Text, after: Text, rest: Text)
    requires ms.Member? && value == [COLON] + after
    requires key != [] && key[0] == QUOTE && ParseBody(key[1..]) == Some((ms.key, value))
    requires ParseValue(after).Some? && ParseValue(after).value.0 == ms.value
    requires var w := ParseValue(after).value.1;
      w != [] && if ms.rest.NoMembers? then w == [CLOSE_OBJECT] + rest
                 else w[0] == COMMA && ParseMembers(w[1..]) == Some((ms.rest, rest))
    ensures ParseMembers(key) == Some((ms, rest))
  {
    assert value[1..] == after;
    var w := ParseValue(after).value.1;
    if ms.rest.NoMembers? {
      assert w[1..] == rest;
    }
  }

  lemma {:induction false} MembersRoundTrip(ms: Members, rest: Text)
    requires ms.Member? && ValidMembers(ms) && FiniteMembers(ms)
    ensures ParseMembers(PlainMembers(ms) + [CLOSE_OBJECT] + rest) == Some((ms, rest))
    decreases ms, 1
  {
    var after := AfterMember(ms, rest);
    var value := [COLON] + (Plain(ms.value) + after);
    MembersText(ms, rest);
    KeyRoundTrip(ms.key, value);
    PlainRoundTrip(ms.value, after);
    if ms.rest.Member? {
      MembersRoundTrip(ms.rest, rest);
      assert after[1..] == PlainMembers(ms.rest) + [CLOSE_OBJECT] + rest;
    }
    MemberStep(ms, Quote(ms.key) + value, value, Plain(ms.value) + after, rest);
  }
}
