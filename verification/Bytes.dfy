/** Byte strings, fixed-width machine integers and big-endian numerals. */
module Bytes {

  type byte = x: int | 0 <= x < 0x100
  type bytes = seq<byte>
  type u32 = x: int | 0 <= x < 0x1_0000_0000
  type u64 = x: int | 0 <= x < 0x1_0000_0000_0000_0000

  const U32_MAX: u32 := 0xFFFF_FFFF

  function Pow256(n: nat): (p: nat)
    ensures p > 0
  {
    if n == 0 then 1 else 256 * Pow256(n - 1)
  }

  lemma Pow256Constants()
    ensures Pow256(4) == 0x1_0000_0000
    ensures Pow256(8) == 0x1_0000_0000_0000_0000
    ensures Pow256(12) == 0x1_0000_0000_0000_0000_0000_0000
  {
    assert Pow256(2) == 0x1_0000;
    assert Pow256(4) == 0x1_0000_0000;
    assert Pow256(6) == 0x1_0000_0000_0000;
    assert Pow256(8) == 0x1_0000_0000_0000_0000;
    assert Pow256(10) == 0x1_0000_0000_0000_0000_0000;
  }

  /** The number a byte string denotes, most significant byte first. */
  function Value(s: bytes): nat {
    if s == [] then 0 else Value(s[..|s| - 1]) * 256 + s[|s| - 1]
  }

  /** The low `n` bytes of `v`, most significant byte first. */
  function BigEndian(v: nat, n: nat): (s: bytes)
    ensures |s| == n
  {
    if n == 0 then [] else BigEndian(v / 256, n - 1) + [v % 256]
  }

  lemma {:induction false} ValueBound(s: bytes)
    ensures Value(s) < Pow256(|s|)
  {
    if s != [] {
      ValueBound(s[..|s| - 1]);
    }
  }

  lemma {:induction false} ValueOfBigEndian(v: nat, n: nat)
    requires v < Pow256(n)
    ensures Value(BigEndian(v, n)) == v
  {
    if n > 0 {
      ValueOfBigEndian(v / 256, n - 1);
      assert BigEndian(v, n)[..n - 1] == BigEndian(v / 256, n - 1);
    }
  }

  lemma {:induction false} BigEndianOfValue(s: bytes)
    ensures BigEndian(Value(s), |s|) == s
  {
    if s != [] {
      BigEndianOfValue(s[..|s| - 1]);
      assert s == s[..|s| - 1] + [s[|s| - 1]];
    }
  }

  lemma BigEndianInjective(v: nat, w: nat, n: nat)
    requires v < Pow256(n) && w < Pow256(n) && BigEndian(v, n) == BigEndian(w, n)
    ensures v == w
  {
    ValueOfBigEndian(v, n);
    ValueOfBigEndian(w, n);
  }

  /** Reading from the other end: the leading byte weighs 256 to the number of bytes behind it. */
  lemma {:induction false} ValueCons(b: byte, s: bytes)
    ensures Value([b] + s) == b * Pow256(|s|) + Value(s)
  {
    var t := [b] + s;
    if s == [] {
      assert t[..0] == [];
    } else {
      var n := |s| - 1;
      assert t[..|t| - 1] == [b] + s[..n];
      ValueCons(b, s[..n]);
      assert b * (256 * Pow256(n)) == (b * Pow256(n)) * 256;
    }
  }

  /** The concatenation of a list of byte strings. */
  function Concat(parts: seq<bytes>): bytes {
    if parts == [] then [] else parts[0] + Concat(parts[1..])
  }

  lemma {:induction false} ConcatAppend(a: seq<bytes>, b: seq<bytes>)
    ensures Concat(a + b) == Concat(a) + Concat(b)
  {
    if a == [] {
      assert a + b == b;
    } else {
      assert (a + b)[1..] == a[1..] + b;
      ConcatAppend(a[1..], b);
    }
  }

  lemma ConcatSnoc(a: seq<bytes>, last: bytes)
    ensures Concat(a + [last]) == Concat(a) + last
  {
    ConcatAppend(a, [last]);
    assert Concat([last]) == last + Concat([]);
  }
}
