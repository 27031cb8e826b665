/** RFC 8785 canonical JSON: a canonical form of JSON values up to the order of members. */
module CanonicalJson {
  import opened Outcomes
  import opened Text
  import opened Json

  // ---------------------------------------------------------------- keys and their order

  /** Strict order of strings by UTF-16 code units. */
  predicate Before(a: Text, b: Text) {
    b != [] && (a == [] || a[0] < b[0] || (a[0] == b[0] && Before(a[1..], b[1..])))
  }

  lemma {:induction false} BeforeTotal(a: Text, b: Text)
    ensures !(Before(a, b) && Before(b, a))
    ensures a == b || Before(a, b) || Before(b, a)
    ensures a == b ==> !Before(a, b)
  {
    if a != [] && b != [] {
      BeforeTotal(a[1..], b[1..]);
      if a[1..] == b[1..] && a[0] == b[0] {
        assert a == [a[0]] + a[1..] && b == [b[0]] + b[1..];
      }
    }
  }

  lemma {:induction false} BeforeTransitive(a: Text, b: Text, c: Text)
    requires Before(a, b) && Before(b, c)
    ensures Before(a, c)
  {
    if a != [] && a[0] == b[0] == c[0] {
      BeforeTransitive(a[1..], b[1..], c[1..]);
    }
  }

  /** In the first unit in which they differ `a` has the smaller one, or it ends there. */
  ghost predicate SmallerAtFirstDifference(a: Text, b: Text) {
    exists i :: 0 <= i <= |a| && i < |b| && a[..i] == b[..i] && (i == |a| || a[i] < b[i])
  }

  /** The recursive order is the order by the first difference, where a proper prefix comes first. */
  lemma {:induction false} BeforeByFirstDifference(a: Text, b: Text)
    ensures Before(a, b) <==> SmallerAtFirstDifference(a, b)
  {
    if a == [] || b == [] {
      if b != [] {
        assert a[..0] == b[..0];
      }
    } else {
      BeforeByFirstDifference(a[1..], b[1..]);
      if a[0] < b[0] {
        assert a[..0] == b[..0];
      }
      if a[0] == b[0] && SmallerAtFirstDifference(a[1..], b[1..]) {
        var i :| 0 <= i <= |a[1..]| && i < |b[1..]| && a[1..][..i] == b[1..][..i] && (i == |a[1..]| || a[1..][i] < b[1..][i]);
        assert a[..i + 1] == [a[0]] + a[1..][..i] && b[..i + 1] == [b[0]] + b[1..][..i];
        assert i + 1 == |a| || a[i + 1] < b[i + 1];
      }
      if SmallerAtFirstDifference(a, b) {
        var i :| 0 <= i <= |a| && i < |b| && a[..i] == b[..i] && (i == |a| || a[i] < b[i]);
        if i > 0 {
          assert a[0] == a[..i][0] && b[0] == b[..i][0];
          assert a[1..][..i - 1] == a[..i][1..] && b[1..][..i - 1] == b[..i][1..];
          assert i - 1 == |a[1..]| || a[1..][i - 1] < b[1..][i - 1];
        }
      }
    }
  }

  function KeyList(ms: Members): seq<Text> {
    match ms
    case NoMembers => []
    case Member(k, _, rest) => [k] + KeyList(rest)
  }

  function InsertKey(k: Text, ks: seq<Text>): seq<Text> {
    if ks == [] || Before(k, ks[0]) then [k] + ks else [ks[0]] + InsertKey(k, ks[1..])
  }

  function SortKeys(ks: seq<Text>): seq<Text> {
    if ks == [] then [] else InsertKey(ks[0], SortKeys(ks[1..]))
  }

  predicate Sorted(ks: seq<Text>) { forall i, j :: 0 <= i < j < |ks| ==> !Before(ks[j], ks[i]) }

  lemma {:induction false} InsertKeySorts(k: Text, ks: seq<Text>)
    requires Sorted(ks)
    ensures Sorted(InsertKey(k, ks)) && multiset(InsertKey(k, ks)) == multiset{k} + multiset(ks)
  {
    if ks == [] {
    } else if Before(k, ks[0]) {
      forall j | 0 <= j < |ks| ensures !Before(ks[j], k) {
        if Before(ks[j], k) {
          BeforeTransitive(ks[j], k, ks[0]);
        }
        BeforeTotal(ks[j], ks[0]);
      }
    } else {
      InsertKeySorts(k, ks[1..]);
      var t := InsertKey(k, ks[1..]);
      assert ks == [ks[0]] + ks[1..];
      forall x | x in t ensures !Before(x, ks[0]) {
        assert x in multiset(t);
        if x != k {
          assert x in ks[1..];
        }
      }
    }
  }

  /**
   * None of the keys is lost and none added, and they come out in UTF-16 order: of two different keys,
   * the earlier one has the smaller unit in the first place where they differ, or is a prefix.
   */
  lemma KeysInUtf16Order(ks: seq<Text>)
    ensures multiset(SortKeys(ks)) == multiset(ks)
    ensures forall i, j :: 0 <= i < j < |SortKeys(ks)| && SortKeys(ks)[i] != SortKeys(ks)[j]
              ==> SmallerAtFirstDifference(SortKeys(ks)[i], SortKeys(ks)[j])
  {
    SortKeysSorts(ks);
    var sorted := SortKeys(ks);
    forall i, j | 0 <= i < j < |sorted| && sorted[i] != sorted[j] ensures SmallerAtFirstDifference(sorted[i], sorted[j]) {
      BeforeTotal(sorted[i], sorted[j]);
      BeforeByFirstDifference(sorted[i], sorted[j]);
    }
  }

  lemma {:induction false} SortKeysSorts(ks: seq<Text>)
    ensures Sorted(SortKeys(ks)) && multiset(SortKeys(ks)) == multiset(ks)
  {
    if ks == [] {
    } else {
      SortKeysSorts(ks[1..]);
      InsertKeySorts(ks[0], SortKeys(ks[1..]));
      assert ks == [ks[0]] + ks[1..];
    }
  }

  // ---------------------------------------------------------------- the printer

  function Size(v: Json): nat {
    match v
    case Arr(items) => 1 + SizeItems(items)
    case Obj(ms) => 1 + SizeMembers(ms)
    case _ => 1
  }

  function SizeItems(items: Items): nat {
    match items case NoItems => 0 case Item(v, tail) => 1 + Size(v) + SizeItems(tail)
  }

  function SizeMembers(ms: Members): nat {
    match ms case NoMembers => 0 case Member(_, v, rest) => 1 + Size(v) + SizeMembers(rest)
  }

  function Lookup(ms: Members, k: Text): (v: Json)
    requires HasKey(ms, k)
    ensures Size(v) < SizeMembers(ms)
  {
    if ms.key == k then ms.value else Lookup(ms.rest, k)
  }

  lemma {:induction false} KeyListHas(ms: Members, k: Text)
    ensures k in KeyList(ms) <==> HasKey(ms, k)
  {
    if ms.NoMembers? {
    } else {
      KeyListHas(ms.rest, k);
    }
  }

  /** The text of a value, its objects' members in the order of their sorted keys. */
  function Render(v: Json): Text
    decreases Size(v), 0
  {
    match v
    case Null => NULL_TEXT
    case Bool(b) => if b then TRUE_TEXT else FALSE_TEXT
    case Num(t) => t
    case NonFinite => []
    case Str(s) => Quote(s)
    case Arr(items) => [OPEN_ARRAY] + RenderItems(items) + [CLOSE_ARRAY]
    case Obj(ms) =>
      var keys := SortKeys(KeyList(ms));
      assert forall k :: k in keys ==> HasKey(ms, k) by {
        SortKeysSorts(KeyList(ms));
        forall k | k in keys ensures HasKey(ms, k) {
          assert k in multiset(keys);
          KeyListHas(ms, k);
        }
      }
      [OPEN_OBJECT] + RenderMembers(ms, keys) + [CLOSE_OBJECT]
  }

  function RenderItems(items: Items): Text
    decreases SizeItems(items), 0
  {
    match items
    case NoItems => []
    case Item(v, tail) => Render(v) + if tail.NoItems? then [] else [COMMA] + RenderItems(tail)
  }

  function RenderMembers(ms: Members, keys: seq<Text>): Text
    requires forall k :: k in keys ==> HasKey(ms, k)
    decreases SizeMembers(ms), |keys|
  {
    if keys == [] then []
    else
      Quote(keys[0]) + [COLON] + Render(Lookup(ms, keys[0]))
      + if |keys| == 1 then [] else [COMMA] + RenderMembers(ms, keys[1..])
  }

  /** `canonicalJson`: a number that is not finite anywhere in the value makes it throw. */
  function CanonicalText(v: Json): Result<Text> {
    if Finite(v) then Ok(Render(v)) else Err("JCS: non-finite numbers are not allowed")
  }

  // ---------------------------------------------------------------- the sorted value behind the text

  function InsertMember(k: Text, v: Json, ms: Members): Members {
    if ms.NoMembers? || Before(k, ms.key) then Member(k, v, ms)
    else Member(ms.key, ms.value, InsertMember(k, v, ms.rest))
  }

  function SortMembers(ms: Members): Members {
    if ms.NoMembers? then NoMembers else InsertMember(ms.key, ms.value, SortMembers(ms.rest))
  }

  /** The value with the members of every object, at every depth, in key order. */
  function Canon(v: Json): Json {
    match v
    case Arr(items) => Arr(CanonItems(items))
    case Obj(ms) => Obj(SortMembers(CanonMembers(ms)))
    case _ => v
  }

  function CanonItems(items: Items): Items {
    match items case NoItems => NoItems case Item(v, tail) => Item(Canon(v), CanonItems(tail))
  }

  function CanonMembers(ms: Members): Members {
    match ms case NoMembers => NoMembers case Member(k, v, rest) => Member(k, Canon(v), CanonMembers(rest))
  }

  predicate Distinct(ms: Members) { ms.Member? ==> !HasKey(ms.rest, ms.key) && Distinct(ms.rest) }

  lemma {:induction false} InsertFacts(k: Text, v: Json, ms: Members, j: Text)
    requires Distinct(ms) && !HasKey(ms, k)
    ensures var r := InsertMember(k, v, ms);
      && Distinct(r) && KeyList(r) == InsertKey(k, KeyList(ms))
      && (HasKey(r, j) <==> j == k || HasKey(ms, j))
      && (HasKey(r, j) ==> Lookup(r, j) == if j == k then v else Lookup(ms, j))
      && (ValidMembers(r) <==> Valid(v) && ValidMembers(ms))
      && (FiniteMembers(r) <==> Finite(v) && FiniteMembers(ms))
  {
    if ms.Member? && !Before(k, ms.key) {
      InsertFacts(k, v, ms.rest, j);
      InsertFacts(k, v, ms.rest, ms.key);
      assert KeyList(ms)[1..] == KeyList(ms.rest);
    }
  }

  lemma {:induction false} SortFacts(ms: Members, j: Text)
    requires Distinct(ms)
    ensures var r := SortMembers(ms);
      && Distinct(r) && KeyList(r) == SortKeys(KeyList(ms))
      && (HasKey(r, j) <==> HasKey(ms, j))
      && (HasKey(r, j) ==> Lookup(r, j) == Lookup(ms, j))
      && (ValidMembers(r) <==> ValidMembers(ms)) && (FiniteMembers(r) <==> FiniteMembers(ms))
  {
    if ms.NoMembers? {
    } else {
      SortFacts(ms.rest, j);
      SortFacts(ms.rest, ms.key);
      InsertFacts(ms.key, ms.value, SortMembers(ms.rest), j);
      assert KeyList(ms)[1..] == KeyList(ms.rest);
    }
  }

  lemma {:induction false} CanonMembersFacts(ms: Members, j: Text)
    ensures KeyList(CanonMembers(ms)) == KeyList(ms)
    ensures HasKey(CanonMembers(ms), j) <==> HasKey(ms, j)
    ensures HasKey(ms, j) ==> Lookup(CanonMembers(ms), j) == Canon(Lookup(ms, j))
    ensures Distinct(CanonMembers(ms)) <==> Distinct(ms)
  {
    if ms.NoMembers? {
    } else {
      CanonMembersFacts(ms.rest, j);
      CanonMembersFacts(ms.rest, ms.key);
    }
  }

  lemma {:induction false} ValidIsDistinct(ms: Members)
    requires ValidMembers(ms)
    ensures Distinct(ms)
  {
    if ms.NoMembers? {
    } else {
      ValidIsDistinct(ms.rest);
    }
  }

  lemma {:induction false} CanonIsValid(v: Json)
    requires Valid(v)
    ensures Valid(Canon(v)) && (Finite(Canon(v)) <==> Finite(v))
    decreases v
  {
    match v
    case Arr(items) => CanonItemsValid(items);
    case Obj(ms) =>
      CanonMembersValid(ms);
      ValidIsDistinct(ms);
      CanonMembersFacts(ms, []);
      SortFacts(CanonMembers(ms), []);
    case _ =>
  }

  lemma {:induction false} CanonItemsValid(items: Items)
    requires ValidItems(items)
    ensures ValidItems(CanonItems(items)) && (FiniteItems(CanonItems(items)) <==> FiniteItems(items))
    decreases items
  {
    if items.NoItems? {
    } else {
      CanonIsValid(items.head);
      CanonItemsValid(items.tail);
    }
  }

  lemma {:induction false} CanonMembersValid(ms: Members)
    requires ValidMembers(ms)
    ensures ValidMembers(CanonMembers(ms)) && (FiniteMembers(CanonMembers(ms)) <==> FiniteMembers(ms))
    decreases ms
  {
    if ms.NoMembers? {
    } else {
      CanonIsValid(ms.value);
      CanonMembersValid(ms.rest);
      CanonMembersFacts(ms.rest, ms.key);
    }
  }

  // ---------------------------------------------------------------- the printer prints the sorted value

  lemma {:induction false} RenderIsPlain(v: Json)
    requires Valid(v)
    ensures Render(v) == Plain(Canon(v))
    decreases Size(v), 0, 0
  {
    match v
    case Arr(items) => RenderItemsIsPlain(items);
    case Obj(ms) =>
      var sorted := SortMembers(CanonMembers(ms));
      ValidIsDistinct(ms);
      CanonMembersFacts(ms, []);
      SortFacts(CanonMembers(ms), []);
      forall j ensures (HasKey(sorted, j) <==> HasKey(ms, j)) && (HasKey(ms, j) ==> Lookup(sorted, j) == Canon(Lookup(ms, j))) {
        CanonMembersFacts(ms, j);
        SortFacts(CanonMembers(ms), j);
      }
      RenderMembersIsPlain(ms, sorted);
    case _ =>
  }

  lemma {:induction false} RenderItemsIsPlain(items: Items)
    requires ValidItems(items)
    ensures RenderItems(items) == PlainItems(CanonItems(items))
    decreases SizeItems(items), 0, 0
  {
    if items.NoItems? {
    } else {
      RenderIsPlain(items.head);
      RenderItemsIsPlain(items.tail);
    }
  }

  lemma {:induction false} LookupValid(ms: Members, k: Text)
    requires ValidMembers(ms) && HasKey(ms, k)
    ensures Valid(Lookup(ms, k))
  {
    if ms.key != k {
      LookupValid(ms.rest, k);
    }
  }

  lemma {:induction false} RenderMembersIsPlain(ms: Members, ns: Members)
    requires ValidMembers(ms) && Distinct(ns)
    requires forall j :: HasKey(ns, j) ==> HasKey(ms, j) && Lookup(ns, j) == Canon(Lookup(ms, j))
    ensures forall k :: k in KeyList(ns) ==> HasKey(ms, k)
    ensures RenderMembers(ms, KeyList(ns)) == PlainMembers(ns)
    decreases SizeMembers(ms), 1, ns
  {
    forall k | k in KeyList(ns) ensures HasKey(ms, k) {
      KeyListHas(ns, k);
    }
    if ns.Member? {
      forall j | HasKey(ns.rest, j) ensures HasKey(ms, j) && Lookup(ns.rest, j) == Canon(Lookup(ms, j)) {
        assert HasKey(ns, j) && j != ns.key;
      }
      RenderMembersIsPlain(ms, ns.rest);
      assert HasKey(ns, ns.key);
      LookupValid(ms, ns.key);
      RenderIsPlain(Lookup(ms, ns.key));
      assert KeyList(ns)[1..] == KeyList(ns.rest);
    }
  }

  // ---------------------------------------------------------------- equality up to the order of members

  function Remove(ms: Members, k: Text): Members {
    match ms
    case NoMembers => NoMembers
    case Member(j, v, rest) => if j == k then rest else Member(j, v, Remove(rest, k))
  }

  /** Equal up to the order of the members of objects, at every depth. */
  predicate Same(a: Json, b: Json)
    decreases a
  {
    match (a, b)
    case (Arr(xs), Arr(ys)) => SameItems(xs, ys)
    case (Obj(ms), Obj(ns)) => SameMembers(ms, ns)
    case _ => a == b
  }

  predicate SameItems(xs: Items, ys: Items)
    decreases xs
  {
    match (xs, ys)
    case (NoItems, NoItems) => true
    case (Item(x, xt), Item(y, yt)) => Same(x, y) && SameItems(xt, yt)
    case _ => false
  }

  predicate SameMembers(ms: Members, ns: Members)
    decreases ms
  {
    match ms
    case NoMembers => ns.NoMembers?
    case Member(k, v, rest) => HasKey(ns, k) && Same(v, Lookup(ns, k)) && SameMembers(rest, Remove(ns, k))
  }

  lemma {:induction false} RemoveFacts(ms: Members, k: Text, j: Text)
    requires Distinct(ms)
    ensures Distinct(Remove(ms, k)) && (ValidMembers(ms) ==> ValidMembers(Remove(ms, k)))
    ensures HasKey(Remove(ms, k), j) <==> j != k && HasKey(ms, j)
  {
    if ms.Member? && ms.key != k {
      RemoveFacts(ms.rest, k, j);
      RemoveFacts(ms.rest, k, ms.key);
    } else if ms.Member? {
    }
  }

  lemma {:induction false} InsertsCommute(k: Text, v: Json, j: Text, w: Json, ms: Members)
    requires j != k
    ensures InsertMember(k, v, InsertMember(j, w, ms)) == InsertMember(j, w, InsertMember(k, v, ms))
  {
    BeforeTotal(j, k);
    if ms.Member? {
      if Before(j, k) && Before(k, ms.key) { BeforeTransitive(j, k, ms.key); }
      if Before(k, j) && Before(j, ms.key) { BeforeTransitive(k, j, ms.key); }
      InsertsCommute(k, v, j, w, ms.rest);
    }
  }

  /** Sorting may start from any member. */
  lemma {:induction false} SortFrom(ms: Members, k: Text)
    requires Distinct(ms) && HasKey(ms, k)
    ensures SortMembers(CanonMembers(ms))
            == InsertMember(k, Canon(Lookup(ms, k)), SortMembers(CanonMembers(Remove(ms, k))))
  {
    if ms.key != k {
      SortFrom(ms.rest, k);
      InsertsCommute(ms.key, Canon(ms.value), k, Canon(Lookup(ms.rest, k)), SortMembers(CanonMembers(Remove(ms.rest, k))));
    }
  }

  lemma {:induction false} SameHasSameCanon(a: Json, b: Json)
    requires Valid(a) && Valid(b) && Same(a, b)
    ensures Canon(a) == Canon(b)
    decreases a
  {
    match (a, b)
    case (Arr(xs), Arr(ys)) => SameItemsCanon(xs, ys);
    case (Obj(ms), Obj(ns)) => SameMembersCanon(ms, ns);
    case _ =>
  }

  lemma {:induction false} SameItemsCanon(xs: Items, ys: Items)
    requires ValidItems(xs) && ValidItems(ys) && SameItems(xs, ys)
    ensures CanonItems(xs) == CanonItems(ys)
    decreases xs
  {
    if xs.NoItems? {
    } else {
      SameHasSameCanon(xs.head, ys.head);
      SameItemsCanon(xs.tail, ys.tail);
    }
  }

  lemma {:induction false} SameMembersCanon(ms: Members, ns: Members)
    requires ValidMembers(ms) && ValidMembers(ns) && SameMembers(ms, ns)
    ensures SortMembers(CanonMembers(ms)) == SortMembers(CanonMembers(ns))
    decreases ms
  {
    if ms.NoMembers? {
    } else {
      ValidIsDistinct(ns);
      RemoveFacts(ns, ms.key, ms.key);
      LookupValid(ns, ms.key);
      SameHasSameCanon(ms.value, Lookup(ns, ms.key));
      SameMembersCanon(ms.rest, Remove(ns, ms.key));
      SortFrom(ns, ms.key);
    }
  }

  lemma {:induction false} RemoveInserted(k: Text, v: Json, ms: Members)
    requires !HasKey(ms, k)
    ensures HasKey(InsertMember(k, v, ms), k) && Lookup(InsertMember(k, v, ms), k) == v
    ensures Remove(InsertMember(k, v, ms), k) == ms
  {
    if ms.Member? && !Before(k, ms.key) {
      RemoveInserted(k, v, ms.rest);
    }
  }

  lemma {:induction false} SameCanonIsSame(a: Json, b: Json)
    requires Valid(a) && Valid(b) && Canon(a) == Canon(b)
    ensures Same(a, b)
    decreases a
  {
    match (a, b)
    case (Arr(xs), Arr(ys)) => ItemsFromCanon(xs, ys);
    case (Obj(ms), Obj(ns)) => MembersFromCanon(ms, ns);
    case _ =>
  }

  lemma {:induction false} ItemsFromCanon(xs: Items, ys: Items)
    requires ValidItems(xs) && ValidItems(ys) && CanonItems(xs) == CanonItems(ys)
    ensures SameItems(xs, ys)
    decreases xs
  {
    if xs.NoItems? {
    } else {
      SameCanonIsSame(xs.head, ys.head);
      ItemsFromCanon(xs.tail, ys.tail);
    }
  }

  lemma SortedHas(ms: Members, k: Text)
    requires Distinct(ms)
    ensures HasKey(SortMembers(CanonMembers(ms)), k) <==> HasKey(ms, k)
  {
    CanonMembersFacts(ms, k);
    SortFacts(CanonMembers(ms), k);
  }

  lemma {:induction false} MembersFromCanon(ms: Members, ns: Members)
    requires ValidMembers(ms) && ValidMembers(ns)
    requires SortMembers(CanonMembers(ms)) == SortMembers(CanonMembers(ns))
    ensures SameMembers(ms, ns)
    decreases ms
  {
    ValidIsDistinct(ms);
    ValidIsDistinct(ns);
    if ms.NoMembers? {
      if ns.Member? {
        SortedHas(ns, ns.key);
      }
    } else {
      var k := ms.key;
      SortedHas(ms, k);
      SortedHas(ns, k);
      SortFrom(ns, k);
      RemoveFacts(ns, k, k);
      SortedHas(ms.rest, k);
      SortedHas(Remove(ns, k), k);
      RemoveInserted(k, Canon(ms.value), SortMembers(CanonMembers(ms.rest)));
      RemoveInserted(k, Canon(Lookup(ns, k)), SortMembers(CanonMembers(Remove(ns, k))));
      LookupValid(ns, k);
      SameCanonIsSame(ms.value, Lookup(ns, k));
      MembersFromCanon(ms.rest, Remove(ns, k));
    }
  }

  // ---------------------------------------------------------------- the canonical form

  /** Sorting the members gives the same value, in this sense. */
  lemma CanonIsSame(v: Json)
    requires Valid(v)
    ensures Same(v, Canon(v))
  {
    CanonIsValid(v);
    SortedStaysCanon(v);
    SameCanonIsSame(v, Canon(v));
  }

  lemma {:induction false} SortedStaysCanon(v: Json)
    requires Valid(v)
    ensures Canon(Canon(v)) == Canon(v)
    decreases v
  {
    match v
    case Arr(items) => ItemsStayCanon(items);
    case Obj(ms) =>
      ValidIsDistinct(ms);
      MembersStayCanon(ms);
    case _ =>
  }

  lemma {:induction false} ItemsStayCanon(items: Items)
    requires ValidItems(items)
    ensures CanonItems(CanonItems(items)) == CanonItems(items)
    decreases items
  {
    if items.NoItems? {
    } else {
      SortedStaysCanon(items.head);
      ItemsStayCanon(items.tail);
    }
  }

  lemma {:induction false} CanonInsert(k: Text, v: Json, ms: Members)
    ensures CanonMembers(InsertMember(k, v, ms)) == InsertMember(k, Canon(v), CanonMembers(ms))
  {
    if ms.Member? && !Before(k, ms.key) {
      CanonInsert(k, v, ms.rest);
    }
  }

  lemma {:induction false} SortInsert(k: Text, v: Json, ms: Members)
    requires Distinct(ms) && !HasKey(ms, k)
    ensures SortMembers(InsertMember(k, v, ms)) == InsertMember(k, v, SortMembers(ms))
  {
    if ms.Member? && !Before(k, ms.key) {
      SortInsert(k, v, ms.rest);
      InsertsCommute(ms.key, ms.value, k, v, SortMembers(ms.rest));
    }
  }

  lemma {:induction false} MembersStayCanon(ms: Members)
    requires ValidMembers(ms) && Distinct(ms)
    ensures SortMembers(CanonMembers(SortMembers(CanonMembers(ms)))) == SortMembers(CanonMembers(ms))
    decreases ms
  {
    if ms.NoMembers? {
    } else {
      var sorted := SortMembers(CanonMembers(ms.rest));
      MembersStayCanon(ms.rest);
      SortedStaysCanon(ms.value);
      CanonInsert(ms.key, Canon(ms.value), sorted);
      SortedHas(ms.rest, ms.key);
      CanonMembersFacts(ms.rest, ms.key);
      SortFacts(CanonMembers(ms.rest), ms.key);
      CanonMembersFacts(sorted, ms.key);
      SortInsert(ms.key, Canon(ms.value), CanonMembers(sorted));
    }
  }

  /**
   * The text determines the value up to the order of members: whatever follows it, a parser reads
   * back the same value with its members sorted, and exactly the rest.
   */
  lemma CanonicalTextParses(v: Json, rest: Text)
    requires Valid(v) && Finite(v) && Ends(v, rest)
    ensures ParseValue(Render(v) + rest) == Some((Canon(v), rest)) && Same(v, Canon(v))
  {
    CanonIsValid(v);
    RenderIsPlain(v);
    PlainRoundTrip(Canon(v), rest);
    CanonIsSame(v);
  }

  /** Two values have one canonical text exactly when they are equal up to the order of members. */
  lemma CanonicalForm(a: Json, b: Json)
    requires Valid(a) && Valid(b) && Finite(a) && Finite(b)
    ensures CanonicalText(a) == CanonicalText(b) <==> Same(a, b)
  {
    RenderIsPlain(a);
    RenderIsPlain(b);
    if Same(a, b) {
      SameHasSameCanon(a, b);
    }
    if Render(a) == Render(b) {
      CanonicalTextParses(a, []);
      CanonicalTextParses(b, []);
      assert Render(a) + [] == Render(b) + [];
      SameCanonIsSame(a, b);
    }
  }
}
