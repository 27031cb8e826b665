/** Byte strings, 32-byte words, arbitrary hash functions and the big-endian value of a byte string. */
module Bytes {

  type Byte = x: int | 0 <= x < 256
  type Bytes = seq<Byte>
  type Word = w: Bytes | |w| == 32 witness seq(32, i => 0)

  /** keccak-256 and SHA-256 are arbitrary functions from byte strings to words. */
  type Hasher = Bytes -> Word

  const ZERO_WORD: Word := [
    0, 0, 0, 0, 0, 0, 0, 0, 0, 0, 0, 0, 0, 0, 0, 0,
    0, 0, 0, 0, 0, 0, 0, 0, 0, 0, 0, 0, 0, 0, 0, 0]

  predicate Collide(H: Hasher, x: Bytes, y: Bytes) {
    x != y && H(x) == H(y)
  }

  /** Two different byte strings, one hashed by each of two computations, with the same hash. */
  ghost predicate CollisionBetween(H: Hasher, xs: set<Bytes>, ys: set<Bytes>) {
    exists x, y :: x in xs && y in ys && Collide(H, x, y)
  }

  /** The number a byte string denotes, most significant byte first. */
  function Value(b: Bytes): nat {
    if b == [] then 0 else Value(b[..|b| - 1]) * 256 + b[|b| - 1]
  }

  lemma {:induction false} ValueInjective(a: Bytes, b: Bytes)
    requires |a| == |b| && Value(a) == Value(b)
    ensures a == b
  {
    if |a| == 0 {
    } else {
      var n := |a| - 1;
      ValueInjective(a[..n], b[..n]);
      assert a == a[..n] + [a[n]];
      assert b == b[..n] + [b[n]];
    }
  }

  /** At the first place where they differ, the first of two byte strings has the smaller byte. */
  ghost predicate FirstDiffersBelow(a: Bytes, b: Bytes) {
    exists i :: 0 <= i < |a| && i < |b| && a[..i] == b[..i] && a[i] < b[i]
  }

  /** As numbers, byte strings of one length compare by the first byte in which they differ. */
  lemma {:induction false} ValueOrder(a: Bytes, b: Bytes)
    requires |a| == |b|
    ensures Value(a) < Value(b) <==> FirstDiffersBelow(a, b)
  {
    if a != [] {
      var n := |a| - 1;
      ValueOrder(a[..n], b[..n]);
      if FirstDiffersBelow(a, b) {
        var i :| 0 <= i < |a| && a[..i] == b[..i] && a[i] < b[i];
        if i < n {
          assert a[..n][..i] == b[..n][..i] && a[..n][i] < b[..n][i];
        }
      }
      if Value(a) < Value(b) {
        if Value(a[..n]) < Value(b[..n]) {
          var i :| 0 <= i < n && a[..n][..i] == b[..n][..i] && a[..n][i] < b[..n][i];
          assert a[..i] == a[..n][..i] && b[..i] == b[..n][..i];
        } else {
          ValueInjective(a[..n], b[..n]);
        }
      }
    }
  }

  function Pow256(n: nat): nat {
    if n == 0 then 1 else 256 * Pow256(n - 1)
  }

  /** The last `size` bytes of the big-endian form of `n`. */
  function BigEndian(n: nat, size: nat): (b: Bytes)
    ensures |b| == size
  {
    if size == 0 then [] else BigEndian(n / 256, size - 1) + [n % 256]
  }

  lemma {:induction false} BigEndianValue(n: nat, size: nat)
    requires n < Pow256(size)
    ensures Value(BigEndian(n, size)) == n
  {
    if size == 0 {
    } else {
      BigEndianValue(n / 256, size - 1);
      assert BigEndian(n, size)[..size - 1] == BigEndian(n / 256, size - 1);
    }
  }

  /** A number in the width of a word is recovered from its word. */
  lemma WordInjective(m: nat, n: nat)
    requires m < Pow256(32) && n < Pow256(32)
    requires BigEndian(m, 32) == BigEndian(n, 32)
    ensures m == n
  {
    BigEndianValue(m, 32);
    BigEndianValue(n, 32);
  }

  lemma {:induction false} PowMonotone(m: nat, n: nat)
    requires m <= n
    ensures 1 <= Pow256(m) <= Pow256(n)
  {
    if n == 0 {
    } else if m == n {
      PowMonotone(m - 1, n - 1);
    } else {
      PowMonotone(m, n - 1);
    }
  }

  /** A concatenation whose first parts have equal length has equal parts when it is equal. */
  lemma SplitEqual(a: Bytes, b: Bytes, c: Bytes, d: Bytes)
    requires |a| == |c| && a + b == c + d
    ensures a == c && b == d
  {
    assert a == (a + b)[..|a|] && c == (c + d)[..|c|];
    assert b == (a + b)[|a|..] && d == (c + d)[|c|..];
  }
}
