/** Strings as UTF-16 code units, their UTF-8 bytes, and decimal numerals. */
module Text {
  import opened Bytes

  type Unit = x: int | 0 <= x < 0x1_0000
  type Text = seq<Unit>

  predicate IsLead(u: Unit) { 0xD800 <= u < 0xDC00 }

  predicate IsTrail(u: Unit) { 0xDC00 <= u < 0xE000 }

  predicate StartsWithPair(s: Text) { |s| >= 2 && IsLead(s[0]) && IsTrail(s[1]) }

  /** No surrogate stands alone. */
  predicate WellFormed(s: Text) {
    || s == []
    || (if StartsWithPair(s) then WellFormed(s[2..]) else !IsLead(s[0]) && !IsTrail(s[0]) && WellFormed(s[1..]))
  }

  lemma {:induction false} WellFormedConcat(s: Text, t: Text)
    requires WellFormed(s) && WellFormed(t)
    ensures WellFormed(s + t)
  {
    if s == [] {
      assert s + t == t;
    } else if StartsWithPair(s) {
      WellFormedConcat(s[2..], t);
      assert (s + t)[2..] == s[2..] + t;
    } else {
      WellFormedConcat(s[1..], t);
      assert (s + t)[1..] == s[1..] + t;
    }
  }

  // ---------------------------------------------------------------- UTF-8

  type CodePoint = c: int | 0 <= c < 0x11_0000

  function PairPoint(lead: Unit, trail: Unit): CodePoint
    requires IsLead(lead) && IsTrail(trail)
  {
    0x1_0000 + (lead - 0xD800) * 0x400 + (trail - 0xDC00)
  }

  function EncodePoint(c: CodePoint): (b: Bytes)
    ensures 1 <= |b| <= 4
  {
    if c < 0x80 then [c]
    else if c < 0x800 then [0xC0 + c / 64, 0x80 + c % 64]
    else if c < 0x1_0000 then [0xE0 + c / 4096, 0x80 + c / 64 % 64, 0x80 + c % 64]
    else [0xF0 + c / 262144, 0x80 + c / 4096 % 64, 0x80 + c / 64 % 64, 0x80 + c % 64]
  }

  const REPLACEMENT: CodePoint := 0xFFFD

  /** The text encoder of the platform: a surrogate that stands alone becomes U+FFFD. */
  function Utf8(s: Text): Bytes {
    if s == [] then []
    else if StartsWithPair(s) then EncodePoint(PairPoint(s[0], s[1])) + Utf8(s[2..])
    else EncodePoint(if IsLead(s[0]) || IsTrail(s[0]) then REPLACEMENT else s[0]) + Utf8(s[1..])
  }

  lemma Regroup<T>(a: seq<T>, b: seq<T>, c: seq<T>)
    ensures a + (b + c) == a + b + c
  {
  }

  lemma FirstPoint(s: Text, t: Text, n: nat, point: CodePoint)
    requires s != [] && WellFormed(s) && n == (if StartsWithPair(s) then 2 else 1)
    requires point == if StartsWithPair(s) then PairPoint(s[0], s[1]) else s[0]
    ensures n <= |s| && WellFormed(s[n..]) && Utf8(s) == EncodePoint(point) + Utf8(s[n..])
    ensures Utf8(s + t) == EncodePoint(point) + Utf8(s[n..] + t)
  {
    assert (s + t)[n..] == s[n..] + t;
  }

  /** Texts are encoded from left to right, each complete part by itself. */
  lemma {:induction false} Utf8Concat(s: Text, t: Text)
    requires WellFormed(s)
    ensures Utf8(s + t) == Utf8(s) + Utf8(t)
  {
    if s == [] {
      assert s + t == t;
    } else {
      var n, point := if StartsWithPair(s) then 2 else 1, if StartsWithPair(s) then PairPoint(s[0], s[1]) else s[0];
      FirstPoint(s, t, n, point);
      Utf8Concat(s[n..], t);
      Regroup(EncodePoint(point), Utf8(s[n..]), Utf8(t));
    }
  }

  /** The first byte tells how many bytes encode the first code point. */
  function PointLength(first: Byte): nat {
    if first < 0x80 then 1 else if first < 0xE0 then 2 else if first < 0xF0 then 3 else 4
  }

  lemma FirstByteTells(c: CodePoint)
    ensures PointLength(EncodePoint(c)[0]) == |EncodePoint(c)|
  {
  }

  function DecodePoint(b: Bytes): int
    requires 1 <= |b| <= 4
  {
    match |b|
    case 1 => b[0]
    case 2 => (b[0] as int - 0xC0) * 64 + (b[1] as int - 0x80)
    case 3 => (b[0] as int - 0xE0) * 4096 + (b[1] as int - 0x80) * 64 + (b[2] as int - 0x80)
    case 4 => (b[0] as int - 0xF0) * 262144 + (b[1] as int - 0x80) * 4096 + (b[2] as int - 0x80) * 64
              + (b[3] as int - 0x80)
  }

  lemma DecodeInverts(c: CodePoint)
    ensures DecodePoint(EncodePoint(c)) == c
  {
    assert c / 4096 == c / 64 / 64 && c / 262144 == c / 64 / 64 / 64;
  }

  lemma PointsApart(c: CodePoint, x: Bytes, d: CodePoint, y: Bytes)
    requires EncodePoint(c) + x == EncodePoint(d) + y
    ensures c == d && x == y
  {
    assert (EncodePoint(c) + x)[0] == EncodePoint(c)[0] && (EncodePoint(d) + y)[0] == EncodePoint(d)[0];
    FirstByteTells(c);
    FirstByteTells(d);
    SplitEqual(EncodePoint(c), x, EncodePoint(d), y);
    DecodeInverts(c);
    DecodeInverts(d);
  }

  /** A lead byte for the number of bytes, then continuation bytes. */
  predicate IsForm(b: Bytes) {
    && 1 <= |b| <= 4
    && (match |b|
        case 1 => b[0] < 0x80
        case 2 => 0xC0 <= b[0] < 0xE0
        case 3 => 0xE0 <= b[0] < 0xF0
        case _ => 0xF0 <= b[0] < 0xF8)
    && forall i :: 1 <= i < |b| ==> 0x80 <= b[i] < 0xC0
  }

  lemma FormBounds(b: Bytes)
    requires IsForm(b)
    ensures DecodePoint(b) < match |b| case 1 => 0x80 case 2 => 0x800 case 3 => 0x1_0000 case _ => 0x20_0000
  {
    if |b| == 2 {
      assert b[1] < 0xC0;
    } else if |b| == 3 {
      assert b[1] < 0xC0 && b[2] < 0xC0;
    } else if |b| == 4 {
      assert b[1] < 0xC0 && b[2] < 0xC0 && b[3] < 0xC0;
    }
  }

  lemma FormsApart(a: Bytes, b: Bytes)
    requires IsForm(a) && IsForm(b) && |a| == |b| && DecodePoint(a) == DecodePoint(b)
    ensures a == b
  {
    if |a| >= 2 {
      assert 0x80 <= a[1] < 0xC0 && 0x80 <= b[1] < 0xC0;
    }
    if |a| >= 3 {
      assert 0x80 <= a[2] < 0xC0 && 0x80 <= b[2] < 0xC0;
    }
    if |a| >= 4 {
      assert 0x80 <= a[3] < 0xC0 && 0x80 <= b[3] < 0xC0;
    }
  }

  lemma EncodesToForm(c: CodePoint)
    ensures IsForm(EncodePoint(c))
    ensures |EncodePoint(c)| == if c < 0x80 then 1 else if c < 0x800 then 2 else if c < 0x1_0000 then 3 else 4
  {
  }

  /** Of the forms that decode to a code point, the encoder takes the shortest (section 3 of RFC 3629). */
  lemma EncodesShortest(c: CodePoint, b: Bytes)
    requires IsForm(b) && DecodePoint(b) == c
    ensures IsForm(EncodePoint(c)) && (b == EncodePoint(c) || |b| > |EncodePoint(c)|)
  {
    DecodeInverts(c);
    EncodesToForm(c);
    FormBounds(b);
    if |b| == |EncodePoint(c)| {
      FormsApart(b, EncodePoint(c));
    }
  }

  /** Surrogate pairs count through the supplementary code points in their own order. */
  lemma PairsCount(lead: Unit, trail: Unit)
    requires IsLead(lead) && IsTrail(trail)
    ensures PairPoint(0xD800, 0xDC00) == 0x1_0000
    ensures trail < 0xDFFF ==> PairPoint(lead, trail + 1) == PairPoint(lead, trail) + 1
    ensures lead < 0xDBFF ==> PairPoint(lead + 1, 0xDC00) == PairPoint(lead, 0xDFFF) + 1
  {
  }

  lemma PairPointInjective(h: Unit, l: Unit, h': Unit, l': Unit)
    requires IsLead(h) && IsTrail(l) && IsLead(h') && IsTrail(l') && PairPoint(h, l) == PairPoint(h', l')
    ensures h == h' && l == l'
  {
  }

  /** On well-formed strings the encoding loses nothing. */
  lemma {:induction false} Utf8Injective(s: Text, t: Text)
    requires WellFormed(s) && WellFormed(t) && Utf8(s) == Utf8(t)
    ensures s == t
  {
    if s == [] || t == [] {
    } else {
      var p, q := StartsWithPair(s), StartsWithPair(t);
      var c := if p then PairPoint(s[0], s[1]) else s[0];
      var d := if q then PairPoint(t[0], t[1]) else t[0];
      var s', t' := if p then s[2..] else s[1..], if q then t[2..] else t[1..];
      PointsApart(c, Utf8(s'), d, Utf8(t'));
      assert p == q;
      Utf8Injective(s', t');
      if p {
        PairPointInjective(s[0], s[1], t[0], t[1]);
        assert s == [s[0], s[1]] + s' && t == [t[0], t[1]] + t';
      } else {
        assert s == [s[0]] + s' && t == [t[0]] + t';
      }
    }
  }

  // ---------------------------------------------------------------- which texts share their bytes

  /** What the encoder makes of a text: every lone surrogate replaced. */
  function Repaired(s: Text): Text {
    if s == [] then []
    else if StartsWithPair(s) then [s[0], s[1]] + Repaired(s[2..])
    else [if IsLead(s[0]) || IsTrail(s[0]) then REPLACEMENT else s[0]] + Repaired(s[1..])
  }

  /** A text with its first U+FFFD replaced by a lone surrogate. */
  function Spoiled(s: Text): Text {
    if s == [] then []
    else if StartsWithPair(s) then [s[0], s[1]] + Spoiled(s[2..])
    else if s[0] == REPLACEMENT then [0xDC00] + s[1..]
    else [s[0]] + Spoiled(s[1..])
  }

  /** No lone surrogate, and nothing that one is replaced by. */
  predicate Clean(s: Text) { WellFormed(s) && forall i :: 0 <= i < |s| ==> s[i] != REPLACEMENT }

  /** Repairing keeps the bytes, makes the text well-formed, and changes exactly the ill-formed texts. */
  lemma {:induction false} RepairedFacts(s: Text)
    ensures WellFormed(Repaired(s)) && Utf8(Repaired(s)) == Utf8(s)
    ensures WellFormed(s) ==> Repaired(s) == s
    ensures !WellFormed(s) ==> Repaired(s) != s && exists i :: 0 <= i < |Repaired(s)| && Repaired(s)[i] == REPLACEMENT
  {
    var r := Repaired(s);
    if s == [] {
    } else if StartsWithPair(s) {
      RepairedFacts(s[2..]);
      assert r[2..] == Repaired(s[2..]) && s == [s[0], s[1]] + s[2..];
      if !WellFormed(s) {
        var i :| 0 <= i < |Repaired(s[2..])| && Repaired(s[2..])[i] == REPLACEMENT;
        assert r[2 + i] == REPLACEMENT;
      }
    } else {
      RepairedFacts(s[1..]);
      assert r[1..] == Repaired(s[1..]) && s == [s[0]] + s[1..];
      if IsLead(s[0]) || IsTrail(s[0]) {
        assert r[0] == REPLACEMENT;
      } else if !WellFormed(s) {
        var i :| 0 <= i < |Repaired(s[1..])| && Repaired(s[1..])[i] == REPLACEMENT;
        assert r[1 + i] == REPLACEMENT;
      }
    }
  }

  lemma {:induction false} SpoiledFacts(s: Text)
    requires WellFormed(s) && !Clean(s)
    ensures Spoiled(s) != s && Utf8(Spoiled(s)) == Utf8(s)
  {
    if StartsWithPair(s) {
      assert forall i :: 2 <= i < |s| ==> s[i] == s[2..][i - 2];
      assert s[0] != REPLACEMENT && s[1] != REPLACEMENT;
      SpoiledFacts(s[2..]);
      assert Spoiled(s)[2..] == Spoiled(s[2..]) && s == [s[0], s[1]] + s[2..];
    } else if s[0] == REPLACEMENT {
      assert Spoiled(s)[1..] == s[1..] && Spoiled(s)[0] != s[0];
    } else {
      assert forall i :: 1 <= i < |s| ==> s[i] == s[1..][i - 1];
      SpoiledFacts(s[1..]);
      assert Spoiled(s)[1..] == Spoiled(s[1..]) && s == [s[0]] + s[1..];
    }
  }

  /** Another text with the same bytes: a well-formed one exactly for the ill-formed texts. */
  function Twin(s: Text): Text { if WellFormed(s) then Spoiled(s) else Repaired(s) }

  lemma TwinFacts(s: Text)
    requires !Clean(s)
    ensures Twin(s) != s && Utf8(Twin(s)) == Utf8(s) && (!WellFormed(s) ==> WellFormed(Twin(s)))
  {
    RepairedFacts(s);
    if WellFormed(s) {
      SpoiledFacts(s);
    }
  }

  /** A clean text is the only one with its bytes. */
  lemma CleanIsAlone(s: Text, t: Text)
    requires Clean(s) && Utf8(s) == Utf8(t)
    ensures s == t
  {
    RepairedFacts(t);
    Utf8Injective(s, Repaired(t));
  }

  // ---------------------------------------------------------------- decimal numerals

  function Digit(d: int): Unit
    requires 0 <= d < 10
  {
    0x30 + d
  }

  function ToDecimal(n: nat): (s: Text)
    ensures s != []
  {
    if n < 10 then [Digit(n)] else ToDecimal(n / 10) + [Digit(n % 10)]
  }

  predicate IsNumeral(s: Text) { s != [] && forall i :: 0 <= i < |s| ==> 0x30 <= s[i] <= 0x39 }

  /** The number a numeral denotes. */
  function FromDecimal(s: Text): int {
    if s == [] then 0 else FromDecimal(s[..|s| - 1]) * 10 + (s[|s| - 1] as int - 0x30)
  }

  function Pow10(n: nat): nat { if n == 0 then 1 else 10 * Pow10(n - 1) }

  /** The first digit of a numeral counts most. */
  lemma {:induction false} FirstDigitCountsMost(s: Text)
    requires s != []
    ensures FromDecimal(s) == (s[0] as int - 0x30) * Pow10(|s| - 1) + FromDecimal(s[1..])
  {
    var n := |s| - 1;
    if n > 0 {
      FirstDigitCountsMost(s[..n]);
      assert s[..n][1..] == s[1..][..n - 1];
      assert (s[0] as int - 0x30) * (10 * Pow10(n - 1)) == 10 * ((s[0] as int - 0x30) * Pow10(n - 1));
    }
  }

  /** A decimal text has no leading zero. */
  lemma {:induction false} NoLeadingZero(n: nat)
    ensures |ToDecimal(n)| > 1 ==> ToDecimal(n)[0] != 0x30
    ensures ToDecimal(n)[0] == 0x30 ==> n == 0
  {
    if n >= 10 {
      NoLeadingZero(n / 10);
    }
  }

  lemma {:induction false} DecimalRoundTrip(n: nat)
    ensures IsNumeral(ToDecimal(n)) && FromDecimal(ToDecimal(n)) == n
  {
    if n >= 10 {
      DecimalRoundTrip(n / 10);
      var s := ToDecimal(n);
      assert s[..|s| - 1] == ToDecimal(n / 10);
    }
  }
}
