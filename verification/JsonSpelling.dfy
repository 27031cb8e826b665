/** Of all ways to spell a string in JSON, `JSON.stringify` takes the shortest. */
module JsonSpelling {
  import opened Outcomes
  import opened Text
  import opened Json

  /** One unit, written plainly or escaped; control characters and surrogates are not written plainly. */
  predicate Spells(t: Text, u: Unit) {
    && t != [] && t[0] != QUOTE && FirstUnit(t) == Some((u, |t|))
    && (|t| == 1 ==> u >= 0x20 && !IsLead(u) && !IsTrail(u))
  }

  lemma HexUnique(u: Unit)
    requires HexValue(u).Some?
    ensures 0 <= HexValue(u).value < 16 && HexDigit(HexValue(u).value) == u
  {
  }

  lemma LongEscapeUnique(t: Text, u: Unit)
    requires |t| == 6 && t[0] == BACKSLASH && LongEscape(t) == Some(u)
    ensures t == [BACKSLASH, 0x75, HexDigit(u / 4096), HexDigit(u / 256 % 16), HexDigit(u / 16 % 16), HexDigit(u % 16)]
  {
    HexUnique(t[2]);
    HexUnique(t[3]);
    HexUnique(t[4]);
    HexUnique(t[5]);
    var a, b, c, d := HexValue(t[2]).value, HexValue(t[3]).value, HexValue(t[4]).value, HexValue(t[5]).value;
    assert u / 16 == a * 256 + b * 16 + c && u / 256 == a * 16 + b && u / 4096 == a;
  }

  /** The escape of a unit is its only shortest spelling. */
  lemma EscapesShortest(t: Text, u: Unit)
    requires Spells(t, u)
    ensures t == EscapeUnit(u) || |t| > |EscapeUnit(u)|
  {
    if |t| == 6 {
      LongEscapeUnique(t, u);
    } else if |t| == 2 {
      assert t == [t[0], t[1]];
    } else {
      assert t == [t[0]];
    }
  }

  /** The text between the quotes of a JSON string: no control characters, and surrogates in pairs only. */
  ghost predicate StringText(t: Text) { WellFormed(t) && forall i :: 0 <= i < |t| ==> t[i] >= 0x20 }

  /** The first spelling in a text that reads as a string, and what the remainder reads as. */
  lemma FirstSpelling(t: Text, s: Text) returns (u: Unit, n: nat)
    requires t != [] && ParseBody(t + [QUOTE]) == Some((s, []))
    ensures 1 <= n <= |t| && FirstUnit(t[..n]) == Some((u, n)) && t[0] != QUOTE
    ensures s != [] && s[0] == u && ParseBody(t[n..] + [QUOTE]) == Some((s[1..], []))
  {
    var q := t + [QUOTE];
    assert q[0] == t[0];
    u, n := FirstUnit(q).value.0, FirstUnit(q).value.1;
    assert q[n..] == t[n..] + [QUOTE];
    SameFirst(q, t[..n], u, n);
  }

  lemma SameFirst(q: Text, t: Text, u: Unit, n: nat)
    requires q != [] && FirstUnit(q) == Some((u, n)) && t == q[..n]
    ensures FirstUnit(t) == Some((u, n))
  {
    assert |t| == n && forall i :: 0 <= i < n ==> t[i] == q[i];
  }

  lemma {:induction false} StringTextDrops(t: Text, n: nat)
    requires n <= |t| && StringText(t)
    requires forall i :: 0 <= i < n ==> !IsLead(t[i]) && !IsTrail(t[i])
    ensures StringText(t[n..])
  {
    if n > 0 {
      assert t[1..][n - 1..] == t[n..];
      StringTextDrops(t[1..], n - 1);
    }
  }

  /** An escape is made of plain characters. */
  lemma EscapeIsPlain(t: Text, u: Unit)
    requires t != [] && FirstUnit(t) == Some((u, |t|)) && |t| > 1
    ensures forall i :: 0 <= i < |t| ==> !IsLead(t[i]) && !IsTrail(t[i])
  {
    if |t| == 6 {
      LongEscapeUnique(t, u);
    }
  }

  /** A text that starts with a pair of surrogates, written plainly. */
  lemma PairFirst(t: Text, s: Text)
    requires StringText(t) && StartsWithPair(t) && ParseBody(t + [QUOTE]) == Some((s, []))
    ensures StartsWithPair(s) && s[..2] == t[..2] && ParseBody(t[2..] + [QUOTE]) == Some((s[2..], []))
    ensures StringText(t[2..])
  {
    var u, n := FirstSpelling(t, s);
    var v, m := FirstSpelling(t[1..], s[1..]);
    assert t[1..][1..] == t[2..] && s[1..][1..] == s[2..];
  }

  /** Any other text that is not empty starts with a spelling of the first unit. */
  lemma UnitFirst(t: Text, s: Text) returns (n: nat)
    requires t != [] && StringText(t) && !StartsWithPair(t) && ParseBody(t + [QUOTE]) == Some((s, []))
    ensures 1 <= n <= |t| && s != [] && Spells(t[..n], s[0])
    ensures StringText(t[n..]) && ParseBody(t[n..] + [QUOTE]) == Some((s[1..], []))
  {
    var u;
    u, n := FirstSpelling(t, s);
    if n > 1 {
      EscapeIsPlain(t[..n], u);
      assert forall i :: 0 <= i < n ==> t[i] == t[..n][i];
    }
    StringTextDrops(t, n);
  }

  /** Written plainly, a pair is shorter than an escape and whatever its second unit would take alone. */
  lemma PairIsShorter(s: Text, n: nat)
    requires StartsWithPair(s) && n >= 1
    ensures |QuoteBody(s)| < n + |QuoteBody(s[1..])|
  {
    assert s[1..][1..] == s[2..];
  }

  lemma PairStep(s: Text, t: Text)
    requires StartsWithPair(s) && StartsWithPair(t) && s[..2] == t[..2]
    requires t[2..] == QuoteBody(s[2..]) || |t[2..]| > |QuoteBody(s[2..])|
    ensures t == QuoteBody(s) || |t| > |QuoteBody(s)|
  {
    assert t == [t[0], t[1]] + t[2..];
    assert s[0] == s[..2][0] == t[..2][0] && s[1] == s[..2][1] == t[..2][1];
  }

  lemma UnitStep(s: Text, t: Text, n: nat)
    requires 1 <= n <= |t| && s != [] && Spells(t[..n], s[0])
    requires t[n..] == QuoteBody(s[1..]) || |t[n..]| > |QuoteBody(s[1..])|
    ensures t == QuoteBody(s) || |t| > |QuoteBody(s)|
  {
    assert t == t[..n] + t[n..];
    EscapesShortest(t[..n], s[0]);
    if StartsWithPair(s) {
      PairIsShorter(s, n);
    }
  }

  /**
   * Among the texts that a JSON string may hold between its quotes and that read as `s`, the body of
   * `JSON.stringify(s)` is the only shortest one. (Hexadecimal digits are in lowercase throughout.)
   */
  lemma {:induction false} StringifyIsShortest(s: Text, t: Text)
    requires StringText(t) && ParseBody(t + [QUOTE]) == Some((s, []))
    ensures t == QuoteBody(s) || |t| > |QuoteBody(s)|
    decreases |t|
  {
    if t == [] {
      assert t + [QUOTE] == [QUOTE];
    } else if StartsWithPair(t) {
      PairFirst(t, s);
      StringifyIsShortest(s[2..], t[2..]);
      PairStep(s, t);
    } else {
      var n := UnitFirst(t, s);
      StringifyIsShortest(s[1..], t[n..]);
      UnitStep(s, t, n);
    }
  }
}
