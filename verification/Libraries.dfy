/** The foreign code the vault is built on, as functions and the laws they obey. */
module Libraries {
  import opened Wrappers
  import opened Bytes
  import opened Cipher
  import opened Trees

  /** What the archive parser makes of the bytes it has been given so far. */
  datatype Parse = NeedMore | Entries(entries: seq<Entry>) | Malformed

  datatype Lib = Lib(
    gcm: Key -> Aead,                                   // AES-256-GCM under a key
    argon2: (bytes, bytes, u32, u32, u32) -> Option<Key>, // password, salt, memory, time, lanes (RFC 9106)
    base64: bytes -> bytes,                             // section 4 of RFC 4648
    unbase64: bytes -> Option<bytes>,
    parseUuid: bytes -> Option<bytes>,                  // the canonical text of a UUID, if it is one
    tarPack: seq<Entry> -> Option<bytes>,               // None where the writer refuses, as for a socket
    tarParse: (bytes, bool) -> Parse)                   // bytes so far, and whether the input has ended
  {
    ghost predicate CipherLaws() {
      forall k: Key :: gcm(k).Lawful()
    }

    ghost predicate Base64Laws() {
      forall b: bytes :: unbase64(base64(b)) == Some(b)
    }

    /** The parser recovers the listing of a directory that the writer packed, commits to its answer, and
        needs no more at the end. */
    ghost predicate TarLaws() {
      && (forall es: seq<Entry>, t: Tree :: WellFormedTree(t) && Lists(es, t) && tarPack(es).Some? ==>
            tarParse(tarPack(es).value, false) == Entries(es))
      && (forall b: bytes, more: bytes :: !tarParse(b, false).NeedMore? ==>
            tarParse(b + more, false) == tarParse(b, false))
      && (forall b: bytes :: !tarParse(b, true).NeedMore?)
    }

    ghost predicate Lawful() {
      CipherLaws() && Base64Laws() && TarLaws()
    }
  }
}
