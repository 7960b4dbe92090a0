/** AES-256-GCM seen through the interface of RFC 5116: a keyed pair of functions and the laws
    that every instance of the algorithm satisfies. Nothing about the inside of the cipher is used. */
module Cipher {
  import opened Wrappers
  import opened Bytes

  const KEY_LENGTH := 32
  const NONCE_LENGTH := 12
  const TAG_LENGTH := 16

  type Key = k: bytes | |k| == KEY_LENGTH witness seq(KEY_LENGTH, i => 0)
  type Nonce = n: bytes | |n| == NONCE_LENGTH witness seq(NONCE_LENGTH, i => 0)

  /** A cipher instance for one key: `seal` and `open` take nonce, associated data and text. */
  datatype Aead = Aead(seal: (Nonce, bytes, bytes) -> bytes,
                       open: (Nonce, bytes, bytes) -> Option<bytes>)
  {
    /** Opening undoes sealing, sealing adds a tag, and only the sealing of a text opens to it. */
    ghost predicate Lawful() {
      && (forall n: Nonce, a: bytes, p: bytes :: open(n, a, seal(n, a, p)) == Some(p))
      && (forall n: Nonce, a: bytes, p: bytes :: |seal(n, a, p)| == |p| + TAG_LENGTH)
      && (forall n: Nonce, a: bytes, c: bytes :: open(n, a, c).Some? ==> c == seal(n, a, open(n, a, c).value))
    }
  }

  /** A cipher whose tag is the nonce and four zero bytes: no secrecy, but all three laws. */
  function TransparentAead(): Aead {
    Aead((n: Nonce, a: bytes, p: bytes) => p + n + [0, 0, 0, 0],
         (n: Nonce, a: bytes, c: bytes) =>
           if |c| >= 16 && c[|c| - 16..] == n + [0, 0, 0, 0] then Some(c[..|c| - 16]) else None)
  }

  /** The laws are consistent: some cipher satisfies them. */
  lemma LawsHaveAModel()
    ensures exists c: Aead :: c.Lawful()
  {
    var c := TransparentAead();
    forall n: Nonce, a: bytes, p: bytes
      ensures c.open(n, a, c.seal(n, a, p)) == Some(p)
    {
      var s := c.seal(n, a, p);
      assert s[|s| - 16..] == n + [0, 0, 0, 0];
      assert s[..|s| - 16] == p;
    }
    forall n: Nonce, a: bytes, t: bytes | c.open(n, a, t).Some?
      ensures t == c.seal(n, a, c.open(n, a, t).value)
    {
      assert t == t[..|t| - 16] + t[|t| - 16..];
    }
    assert c.Lawful();
  }
}
