/** Password-derived keys, the wrapped data key, and password rotation on the manifest. */
module KeyWrap {
  import opened Wrappers
  import opened Bytes
  import opened Cipher
  import opened Libraries
  import opened Manifest

  const SALT_LENGTH := 16

  // ------------------------------------------------------- key derivation

  predicate ValidParameters(k: KdfParameters) {
    && k.algorithm == Ascii("argon2id")
    && 16 * 1024 <= k.memoryCostKiB <= 256 * 1024
    && 1 <= k.timeCost <= 10
    && 1 <= k.parallelism <= 16
    && k.outputLength == KEY_LENGTH
  }

  function DeriveKey(lib: Lib, password: bytes, k: KdfParameters): Option<Key> {
    if !ValidParameters(k) then None else
    var salt :- lib.unbase64(k.salt);
    if |salt| != SALT_LENGTH then None
    else lib.argon2(password, salt, k.memoryCostKiB, k.timeCost, k.parallelism)
  }

  /** Fresh parameters; the random salt is an input. */
  function DefaultKdf(lib: Lib, salt: bytes): KdfParameters {
    KdfParameters(Ascii("argon2id"), lib.base64(salt), 64 * 1024, 3, 1, KEY_LENGTH)
  }

  // ------------------------------------------------------------- wrapping

  /** Seals the data key; the random nonce is an input. */
  function WrapDataKey(lib: Lib, dataKey: Key, wrappingKey: Key, associatedData: bytes, iv: Nonce): Option<WrappedKey> {
    var encrypted := lib.gcm(wrappingKey).seal(iv, associatedData, dataKey);
    if |encrypted| < TAG_LENGTH then None else
    var split := |encrypted| - TAG_LENGTH;
    Some(WrappedKey(WRAP_ALGORITHM, lib.base64(iv), lib.base64(encrypted[..split]), lib.base64(encrypted[split..])))
  }

  function UnwrapDataKey(lib: Lib, wrapped: WrappedKey, wrappingKey: Key, associatedData: bytes): Option<Key> {
    var iv :- lib.unbase64(wrapped.iv);
    var ciphertext :- lib.unbase64(wrapped.ciphertext);
    var tag :- lib.unbase64(wrapped.authenticationTag);
    if |iv| != NONCE_LENGTH || |ciphertext| != KEY_LENGTH || |tag| != TAG_LENGTH then None else
    var plaintext :- lib.gcm(wrappingKey).open(iv, associatedData, ciphertext + tag);
    if |plaintext| == KEY_LENGTH then Some(plaintext) else None
  }

  /** A wrapped key holds `dataKey`: its three fields decode to a nonce and to the two parts of the one
      sealing of that key. */
  ghost predicate KeyFieldsHold(lib: Lib, wrapped: WrappedKey, wrappingKey: Key, associatedData: bytes,
                                iv: Nonce, dataKey: Key)
  {
    && lib.unbase64(wrapped.iv) == Some(iv)
    && lib.unbase64(wrapped.ciphertext).Some? && lib.unbase64(wrapped.authenticationTag).Some?
    && var ciphertext, tag := lib.unbase64(wrapped.ciphertext).value, lib.unbase64(wrapped.authenticationTag).value;
    && |tag| == TAG_LENGTH
    && ciphertext + tag == lib.gcm(wrappingKey).seal(iv, associatedData, dataKey)
  }

  /** Unwrapping is exact: it yields a key if and only if the fields hold that very key. */
  lemma UnwrapIsExact(lib: Lib, wrapped: WrappedKey, wrappingKey: Key, associatedData: bytes, dataKey: Key)
    requires lib.CipherLaws()
    ensures UnwrapDataKey(lib, wrapped, wrappingKey, associatedData) == Some(dataKey)
            <==> exists iv: Nonce :: KeyFieldsHold(lib, wrapped, wrappingKey, associatedData, iv, dataKey)
  {
    assert lib.gcm(wrappingKey).Lawful();
    if UnwrapDataKey(lib, wrapped, wrappingKey, associatedData) == Some(dataKey) {
      assert KeyFieldsHold(lib, wrapped, wrappingKey, associatedData, lib.unbase64(wrapped.iv).value, dataKey);
    }
    forall iv: Nonce | KeyFieldsHold(lib, wrapped, wrappingKey, associatedData, iv, dataKey)
      ensures UnwrapDataKey(lib, wrapped, wrappingKey, associatedData) == Some(dataKey)
    {
      assert |lib.gcm(wrappingKey).seal(iv, associatedData, dataKey)| == KEY_LENGTH + TAG_LENGTH;
    }
  }

  /** Wrapping never fails and is undone by unwrapping under the same key and associated data. */
  lemma WrapThenUnwrap(lib: Lib, dataKey: Key, wrappingKey: Key, associatedData: bytes, iv: Nonce)
    requires lib.CipherLaws() && lib.Base64Laws()
    ensures var wrapped := WrapDataKey(lib, dataKey, wrappingKey, associatedData, iv);
            && wrapped.Some? && wrapped.value.algorithm == WRAP_ALGORITHM
            && UnwrapDataKey(lib, wrapped.value, wrappingKey, associatedData) == Some(dataKey)
  {
    var c := lib.gcm(wrappingKey);
    assert c.Lawful();
    var encrypted := c.seal(iv, associatedData, dataKey);
    assert encrypted[..KEY_LENGTH] + encrypted[KEY_LENGTH..] == encrypted;
  }

  // ------------------------------------------------------- authentication

  /** What unlock and rotate do with a password: derive, encode the header, unwrap. */
  function Authenticate(lib: Lib, m: UserManifest, password: bytes): Option<Key> {
    var wrappingKey :- DeriveKey(lib, password, m.kdf);
    if Encodable(m) then UnwrapDataKey(lib, m.wrappedDataKey, wrappingKey, Encoding(m, [])) else None
  }

  /** Puts a data key under a new password: fresh KDF block first, then the header with that block is
      encoded, and the key is wrapped under it. */
  function Rewrap(lib: Lib, m: UserManifest, dataKey: Key, password: bytes, salt: Salt, iv: Nonce)
    : Option<UserManifest>
  {
    var renewed := m.(kdf := DefaultKdf(lib, salt));
    var wrappingKey :- DeriveKey(lib, password, renewed.kdf);
    if !Encodable(renewed) then None else
    var wrapped :- WrapDataKey(lib, dataKey, wrappingKey, Encoding(renewed, []), iv);
    Some(renewed.(wrappedDataKey := wrapped))
  }

  /** Rewrapping fails only where Argon2id does or a field is too long to encode. */
  lemma RewrapSucceedsIff(lib: Lib, m: UserManifest, dataKey: Key, password: bytes, salt: Salt, iv: Nonce)
    requires lib.CipherLaws() && lib.Base64Laws()
    ensures Rewrap(lib, m, dataKey, password, salt, iv).Some?
            <==> lib.argon2(password, salt, 64 * 1024, 3, 1).Some? && Encodable(m.(kdf := DefaultKdf(lib, salt)))
  {
    var renewed := m.(kdf := DefaultKdf(lib, salt));
    assert ValidParameters(renewed.kdf) && lib.unbase64(renewed.kdf.salt) == Some(salt);
    var wrappingKey := DeriveKey(lib, password, renewed.kdf);
    if wrappingKey.Some? {
      WrapThenUnwrap(lib, dataKey, wrappingKey.value, Encoding(renewed, []), iv);
    }
  }

  predicate SameIdentity(m: UserManifest, n: UserManifest) {
    m.version == n.version && m.id == n.id && m.username == n.username && m.createdAt == n.createdAt
    && m.vaultFormat == n.vaultFormat
  }

  /** After rewrapping, the new password finds the same data key, and nothing but the KDF block and the
      wrapped key has changed. */
  lemma RewrapAuthenticates(lib: Lib, m: UserManifest, dataKey: Key, password: bytes, salt: Salt, iv: Nonce)
    requires lib.CipherLaws() && lib.Base64Laws()
    requires Rewrap(lib, m, dataKey, password, salt, iv).Some?
    ensures var n := Rewrap(lib, m, dataKey, password, salt, iv).value;
            && Authenticate(lib, n, password) == Some(dataKey)
            && SameIdentity(m, n) && n.wrappedDataKey.algorithm == WRAP_ALGORITHM
  {
    var n := Rewrap(lib, m, dataKey, password, salt, iv).value;
    var renewed := m.(kdf := DefaultKdf(lib, salt));
    var wrappingKey := DeriveKey(lib, password, renewed.kdf).value;
    WrapThenUnwrap(lib, dataKey, wrappingKey, Encoding(renewed, []), iv);
    EncodingIgnoresWrappedKey(renewed);
    EncodingIgnoresWrappedKey(n);
    assert Header(n) == Header(renewed);
  }

  /** Two passwords that derive the same wrapping key cannot tell different data keys apart. */
  lemma SameWrappingKeySameDataKey(lib: Lib, m: UserManifest, password: bytes, other: bytes)
    requires DeriveKey(lib, password, m.kdf) == DeriveKey(lib, other, m.kdf)
    ensures Authenticate(lib, m, password) == Authenticate(lib, m, other)
  {
  }

  // -------------------------------------------------------------- rotation

  type Salt = s: bytes | |s| == SALT_LENGTH witness seq(SALT_LENGTH, i => 0)

  datatype Rotation = Rotation(newPassword: bytes, salt: Salt, iv: Nonce)

  function Rotate(lib: Lib, m: UserManifest, currentPassword: bytes, r: Rotation): Option<UserManifest> {
    var dataKey :- Authenticate(lib, m, currentPassword);
    Rewrap(lib, m, dataKey, r.newPassword, r.salt, r.iv)
  }

  /** A chain of rotations, each started with the password the one before it set. */
  function RotateAll(lib: Lib, m: UserManifest, password: bytes, rs: seq<Rotation>): Option<UserManifest>
    decreases |rs|
  {
    if rs == [] then Some(m) else
    var n :- Rotate(lib, m, password, rs[0]);
    RotateAll(lib, n, rs[0].newPassword, rs[1..])
  }

  function LastPassword(password: bytes, rs: seq<Rotation>): bytes {
    if rs == [] then password else rs[|rs| - 1].newPassword
  }

  /** After any number of successful rotations the newest password recovers the original data key, and
      the identity the key is bound to is the original one. */
  lemma {:induction false} RotationChain(lib: Lib, m: UserManifest, password: bytes, rs: seq<Rotation>)
    requires lib.CipherLaws() && lib.Base64Laws()
    requires Authenticate(lib, m, password).Some? && RotateAll(lib, m, password, rs).Some?
    ensures var n := RotateAll(lib, m, password, rs).value;
            && Authenticate(lib, n, LastPassword(password, rs)) == Authenticate(lib, m, password)
            && SameIdentity(m, n)
    decreases |rs|
  {
    if rs != [] {
      var r := rs[0];
      RewrapAuthenticates(lib, m, Authenticate(lib, m, password).value, r.newPassword, r.salt, r.iv);
      RotationChain(lib, Rotate(lib, m, password, r).value, r.newPassword, rs[1..]);
    }
  }

  /** A rotation succeeds exactly when the current password authenticates and Argon2id accepts the new
      one: the fresh parameters are always valid and the wrapping never fails. */
  lemma RotateSucceedsIff(lib: Lib, m: UserManifest, currentPassword: bytes, r: Rotation)
    requires lib.CipherLaws() && lib.Base64Laws()
    ensures Rotate(lib, m, currentPassword, r).Some?
            <==> && Authenticate(lib, m, currentPassword).Some?
                 && lib.argon2(r.newPassword, r.salt, 64 * 1024, 3, 1).Some?
                 && |lib.base64(r.salt)| <= U32_MAX
  {
    if Authenticate(lib, m, currentPassword).Some? {
      RewrapSucceedsIff(lib, m, Authenticate(lib, m, currentPassword).value, r.newPassword, r.salt, r.iv);
    }
  }

  /** Nothing compares the new password with the current one: a rotation to the same password is made like
      any other, and the password it replaces goes on opening the same key. */
  lemma SamePasswordStillOpens(lib: Lib, m: UserManifest, password: bytes, salt: Salt, iv: Nonce)
    requires lib.CipherLaws() && lib.Base64Laws()
    ensures var n := Rotate(lib, m, password, Rotation(password, salt, iv));
            && (n.Some? <==> Authenticate(lib, m, password).Some?
                             && lib.argon2(password, salt, 64 * 1024, 3, 1).Some? && |lib.base64(salt)| <= U32_MAX)
            && (n.Some? ==> Authenticate(lib, n.value, password) == Authenticate(lib, m, password))
  {
    hide Authenticate, Rewrap;
    RotateSucceedsIff(lib, m, password, Rotation(password, salt, iv));
    if Rotate(lib, m, password, Rotation(password, salt, iv)).Some? {
      RewrapAuthenticates(lib, m, Authenticate(lib, m, password).value, password, salt, iv);
    }
  }

  // ------------------------------------------------------------ honest wraps

  /** A manifest the code has made: the password it was made for, the data key in it, the nonce used. */
  datatype HonestWrap = HonestWrap(m: UserManifest, password: bytes, dataKey: Key, iv: Nonce)

  ghost predicate WrappedHonestly(lib: Lib, w: HonestWrap) {
    && Encodable(w.m) && DeriveKey(lib, w.password, w.m.kdf).Some?
    && KeyFieldsHold(lib, w.m.wrappedDataKey, DeriveKey(lib, w.password, w.m.kdf).value, Encoding(w.m, []), w.iv,
        w.dataKey)
  }

  lemma RewrapIsHonest(lib: Lib, m: UserManifest, dataKey: Key, password: bytes, salt: Salt, iv: Nonce)
    requires lib.CipherLaws() && lib.Base64Laws() && Rewrap(lib, m, dataKey, password, salt, iv).Some?
    ensures var n := Rewrap(lib, m, dataKey, password, salt, iv).value;
            WrappedHonestly(lib, HonestWrap(n, password, dataKey, iv)) && n.kdf.salt == lib.base64(salt)
  {
    var n, renewed := Rewrap(lib, m, dataKey, password, salt, iv).value, m.(kdf := DefaultKdf(lib, salt));
    EncodingIgnoresWrappedKey(renewed);
    EncodingIgnoresWrappedKey(n);
    assert Header(n) == Header(renewed);
    var c := lib.gcm(DeriveKey(lib, password, n.kdf).value);
    assert c.Lawful();
    hide Encoding, DeriveKey;
    var encrypted := c.seal(iv, Encoding(n, []), dataKey);
    assert encrypted[..|encrypted| - TAG_LENGTH] + encrypted[|encrypted| - TAG_LENGTH..] == encrypted;
  }

  /** What `password` makes of `n` is a ciphertext that was sealed, under the very wrapping key it
      derives, with that nonce and associated data, for an honest manifest. */
  ghost predicate PresentsLogged(lib: Lib, password: bytes, wraps: seq<HonestWrap>, n: UserManifest) {
    exists k :: 0 <= k < |wraps| && Presents(lib, password, wraps[k], n)
  }

  ghost predicate Presents(lib: Lib, password: bytes, w: HonestWrap, n: UserManifest) {
    && DeriveKey(lib, password, n.kdf).Some?
    && DeriveKey(lib, w.password, w.m.kdf) == DeriveKey(lib, password, n.kdf)
    && Encodable(w.m) && Encoding(w.m, []) == Encoding(n, [])
    && KeyFieldsHold(lib, n.wrappedDataKey, DeriveKey(lib, password, n.kdf).value, Encoding(n, []), w.iv, w.dataKey)
  }

  /** The assumption is met by every manifest the code has wrapped, presented with its password. */
  lemma HonestWrapIsLogged(lib: Lib, wraps: seq<HonestWrap>, w: HonestWrap)
    requires w in wraps && WrappedHonestly(lib, w)
    ensures PresentsLogged(lib, w.password, wraps, w.m)
  {
    hide Encoding, DeriveKey;
    var k :| 0 <= k < |wraps| && wraps[k] == w;
    assert Presents(lib, w.password, wraps[k], w.m);
  }

  /** Wrapping binds the header: unless a forgery succeeds, a manifest that authenticates agrees with
      some honestly wrapped one in every field but the wrapped key, the password derives the key that one
      was wrapped under, and what comes out is the key wrapped for it. A manifest whose identity, creation
      time or KDF block was changed therefore does not authenticate. */
  lemma WrappingBindsHeader(lib: Lib, wraps: seq<HonestWrap>, n: UserManifest, password: bytes)
    requires lib.CipherLaws() && Authenticate(lib, n, password).Some? && PresentsLogged(lib, password, wraps, n)
    ensures exists w :: w in wraps && Header(w.m) == Header(n)
              && DeriveKey(lib, w.password, n.kdf) == DeriveKey(lib, password, n.kdf)
              && Authenticate(lib, n, password) == Some(w.dataKey)
  {
    hide Encoding, DeriveKey, KeyFieldsHold;
    var k :| 0 <= k < |wraps| && Presents(lib, password, wraps[k], n);
    var w := wraps[k];
    assert Encoding(w.m, []) + [] == Encoding(w.m, []);
    AssociatedDataIsInjective(w.m, n, []);
    UnwrapIsExact(lib, n.wrappedDataKey, DeriveKey(lib, password, n.kdf).value, Encoding(n, []), w.dataKey);
    assert w.m.kdf == Header(w.m).kdf && n.kdf == Header(n).kdf;
    assert w in wraps;
  }
}
