/** The per-user manifest: its associated-data encoding, and the user-name grammar. Text fields are
    modelled by their UTF-8 bytes. */
module Manifest {
  import opened Wrappers
  import opened Bytes

  function Ascii(s: string): (b: bytes)
    requires forall i :: 0 <= i < |s| ==> s[i] < 128 as char
    ensures |b| == |s|
  {
    seq(|s|, i requires 0 <= i < |s| => s[i] as int)
  }

  const MANIFEST_VERSION: u32 := 1
  const VAULT_FORMAT := Ascii("cdxvlt02")
  const WRAP_ALGORITHM := Ascii("aes-256-gcm")
  const LABEL := Ascii("CDXVAULT-WRAP-AAD-01")

  datatype KdfParameters = KdfParameters(
    algorithm: bytes, salt: bytes, memoryCostKiB: u32, timeCost: u32, parallelism: u32, outputLength: u32)

  datatype WrappedKey = WrappedKey(algorithm: bytes, iv: bytes, ciphertext: bytes, authenticationTag: bytes)

  datatype UserManifest = UserManifest(
    version: u32, id: bytes, username: bytes, createdAt: u64, kdf: KdfParameters,
    wrappedDataKey: WrappedKey, vaultFormat: bytes)

  datatype Error = FieldTooLong

  // --------------------------------------------------- associated data

  const BLANK := WrappedKey([], [], [], [])

  /** Everything but the wrapped key itself. */
  function Header(m: UserManifest): UserManifest {
    m.(wrappedDataKey := BLANK)
  }

  function Fixed(v: nat, width: nat, rest: bytes): bytes {
    BigEndian(v, width) + rest
  }

  function Field(v: bytes, rest: bytes): bytes {
    BigEndian(|v|, 4) + v + rest
  }

  /** The encoding of a manifest header, followed by `rest`. */
  function Encoding(m: UserManifest, rest: bytes): bytes {
    LABEL + HeaderEncoding(m, rest)
  }

  function HeaderEncoding(m: UserManifest, rest: bytes): bytes {
    Fixed(m.version, 4, Field(m.id,
        Field(m.username, Fixed(m.createdAt, 8, KdfEncoding(m.kdf, Field(m.vaultFormat, rest))))))
  }

  function KdfEncoding(k: KdfParameters, rest: bytes): bytes {
    Field(k.algorithm, Field(k.salt,
      Fixed(k.memoryCostKiB, 4, Fixed(k.timeCost, 4, Fixed(k.parallelism, 4, Fixed(k.outputLength, 4, rest))))))
  }

  predicate Encodable(m: UserManifest) {
    && |m.id| <= U32_MAX && |m.username| <= U32_MAX && |m.vaultFormat| <= U32_MAX
    && |m.kdf.algorithm| <= U32_MAX && |m.kdf.salt| <= U32_MAX
  }

  method PushField(output: bytes, value: bytes) returns (r: Result<bytes, Error>)
    ensures r.Ok? <==> |value| <= U32_MAX
    ensures forall rest: bytes :: r.Ok? ==> r.value + rest == output + Field(value, rest)
  {
    if |value| > U32_MAX {
      return Err(FieldTooLong);
    }
    var extended := output + BigEndian(|value|, 4);
    extended := extended + value;
    return Ok(extended);
  }

  /** The bytes that key wrapping authenticates. They exist exactly when every field is encodable, and
      they do not depend on the wrapped key. */
  method AssociatedData(m: UserManifest) returns (r: Result<bytes, Error>)
    ensures r.Ok? <==> Encodable(m)
    ensures r.Ok? ==> r.value == Encoding(m, []) == Encoding(Header(m), [])
  {
    hide Field;
    ghost var afterKdf := Field(m.vaultFormat, []);
    ghost var afterTime := KdfEncoding(m.kdf, afterKdf);
    ghost var afterName := Fixed(m.createdAt, 8, afterTime);
    ghost var afterId := Field(m.username, afterName);
    var output := LABEL + BigEndian(m.version, 4);
    assert output + Field(m.id, afterId) == Encoding(m, []);
    var pushed := PushField(output, m.id);
    if pushed.Err? { return pushed; }
    assert pushed.value + afterId == Encoding(m, []);
    pushed := PushField(pushed.value, m.username);
    if pushed.Err? { return pushed; }
    assert pushed.value + afterName == Encoding(m, []);
    output := pushed.value + BigEndian(m.createdAt, 8);
    assert output + afterTime == Encoding(m, []);
    pushed := PushField(output, m.kdf.algorithm);
    if pushed.Err? { return pushed; }
    pushed := PushField(pushed.value, m.kdf.salt);
    if pushed.Err? { return pushed; }
    output := pushed.value + BigEndian(m.kdf.memoryCostKiB, 4);
    output := output + BigEndian(m.kdf.timeCost, 4);
    output := output + BigEndian(m.kdf.parallelism, 4);
    output := output + BigEndian(m.kdf.outputLength, 4);
    assert output + afterKdf == Encoding(m, []);
    pushed := PushField(output, m.vaultFormat);
    if pushed.Err? { return pushed; }
    output := pushed.value;
    assert output + [] == output;
    return Ok(output);
  }

  // ------------------------------------------------------- the decoder

  function TakeFixed(b: bytes, width: nat): Option<(nat, bytes)> {
    if |b| < width then None else Some((Value(b[..width]), b[width..]))
  }

  function TakeField(b: bytes): Option<(bytes, bytes)> {
    var (length, rest) :- TakeFixed(b, 4);
    if |rest| < length then None else Some((rest[..length], rest[length..]))
  }

  function TakeKdf(b: bytes): Option<(KdfParameters, bytes)> {
    var (algorithm, b1) :- TakeField(b);
    var (salt, b2) :- TakeField(b1);
    var (memory, b3) :- TakeFixed(b2, 4);
    var (time, b4) :- TakeFixed(b3, 4);
    var (lanes, b5) :- TakeFixed(b4, 4);
    var (length, b6) :- TakeFixed(b5, 4);
    if memory > U32_MAX || time > U32_MAX || lanes > U32_MAX || length > U32_MAX then None
    else Some((KdfParameters(algorithm, salt, memory, time, lanes, length), b6))
  }

  function TakeHeader(b: bytes): Option<(UserManifest, bytes)> {
    var (version, b1) :- TakeFixed(b, 4);
    var (id, b2) :- TakeField(b1);
    var (username, b3) :- TakeField(b2);
    var (createdAt, b4) :- TakeFixed(b3, 8);
    var (kdf, b5) :- TakeKdf(b4);
    var (vaultFormat, b6) :- TakeField(b5);
    if version > U32_MAX || createdAt >= 0x1_0000_0000_0000_0000 then None
    else Some((UserManifest(version, id, username, createdAt, kdf, BLANK, vaultFormat), b6))
  }

  /** Reads a header back from the front of a byte string. */
  function DecodeHeader(b: bytes): Option<(UserManifest, bytes)> {
    if LABEL <= b then TakeHeader(b[|LABEL|..]) else None
  }

  lemma FixedIsTaken(v: nat, width: nat, rest: bytes)
    requires v < Pow256(width)
    ensures TakeFixed(Fixed(v, width, rest), width) == Some((v, rest))
  {
    ValueOfBigEndian(v, width);
    assert Fixed(v, width, rest)[..width] == BigEndian(v, width);
  }

  lemma FieldIsTaken(v: bytes, rest: bytes)
    requires |v| <= U32_MAX
    ensures TakeField(Field(v, rest)) == Some((v, rest))
  {
    Pow256Constants();
    FixedIsTaken(|v|, 4, v + rest);
    assert Field(v, rest) == Fixed(|v|, 4, v + rest);
  }

  lemma TakenIsFixed(b: bytes, width: nat)
    requires TakeFixed(b, width).Some?
    ensures var (v, rest) := TakeFixed(b, width).value; b == Fixed(v, width, rest)
  {
    BigEndianOfValue(b[..width]);
  }

  lemma TakenIsField(b: bytes)
    requires TakeField(b).Some?
    ensures var (v, rest) := TakeField(b).value; b == Field(v, rest) && |v| <= U32_MAX
  {
    Pow256Constants();
    TakenIsFixed(b, 4);
    ValueBound(b[..4]);
  }

  lemma KdfIsTaken(k: KdfParameters, rest: bytes)
    requires |k.algorithm| <= U32_MAX && |k.salt| <= U32_MAX
    ensures TakeKdf(KdfEncoding(k, rest)) == Some((k, rest))
  {
    hide Field, Fixed, TakeField, TakeFixed;
    Pow256Constants();
    var r4 := Fixed(k.outputLength, 4, rest);
    var r3 := Fixed(k.parallelism, 4, r4);
    var r2 := Fixed(k.timeCost, 4, r3);
    var r1 := Fixed(k.memoryCostKiB, 4, r2);
    FieldIsTaken(k.algorithm, Field(k.salt, r1));
    FieldIsTaken(k.salt, r1);
    FixedIsTaken(k.memoryCostKiB, 4, r2);
    FixedIsTaken(k.timeCost, 4, r3);
    FixedIsTaken(k.parallelism, 4, r4);
    FixedIsTaken(k.outputLength, 4, rest);
  }

  /** The encoding is self-delimiting: whatever follows it, the header and the rest are recovered. */
  lemma EncodingIsDecoded(m: UserManifest, rest: bytes)
    requires Encodable(m)
    ensures DecodeHeader(Encoding(m, rest)) == Some((Header(m), rest))
  {
    var r5 := Field(m.vaultFormat, rest);
    var r4 := KdfEncoding(m.kdf, r5);
    var r3 := Fixed(m.createdAt, 8, r4);
    var r2 := Field(m.username, r3);
    var r1 := Field(m.id, r2);
    var r0 := Fixed(m.version, 4, r1);
    assert Encoding(m, rest)[|LABEL|..] == r0;
    hide Field, Fixed, TakeField, TakeFixed, KdfEncoding, TakeKdf;
    Pow256Constants();
    FixedIsTaken(m.version, 4, r1);
    FieldIsTaken(m.id, r2);
    FieldIsTaken(m.username, r3);
    FixedIsTaken(m.createdAt, 8, r4);
    KdfIsTaken(m.kdf, r5);
    FieldIsTaken(m.vaultFormat, rest);
  }

  lemma TakenIsKdf(b: bytes)
    requires TakeKdf(b).Some?
    ensures var (k, rest) := TakeKdf(b).value;
            b == KdfEncoding(k, rest) && |k.algorithm| <= U32_MAX && |k.salt| <= U32_MAX
  {
    var (algorithm, b1) := TakeField(b).value;
    var (salt, b2) := TakeField(b1).value;
    var (memory, b3) := TakeFixed(b2, 4).value;
    var (time, b4) := TakeFixed(b3, 4).value;
    var (lanes, b5) := TakeFixed(b4, 4).value;
    hide Field, Fixed, TakeField, TakeFixed;
    TakenIsField(b);
    TakenIsField(b1);
    TakenIsFixed(b2, 4);
    TakenIsFixed(b3, 4);
    TakenIsFixed(b4, 4);
    TakenIsFixed(b5, 4);
  }

  lemma TakenIsHeader(b: bytes)
    requires TakeHeader(b).Some?
    ensures var (h, rest) := TakeHeader(b).value; b == HeaderEncoding(h, rest) && Encodable(h) && h == Header(h)
  {
    hide Field, Fixed, TakeField, TakeFixed, TakeKdf, KdfEncoding;
    TakenIsFixed(b, 4);
    var b1 := TakeFixed(b, 4).value.1;
    TakenIsField(b1);
    var b2 := TakeField(b1).value.1;
    TakenIsField(b2);
    var b3 := TakeField(b2).value.1;
    TakenIsFixed(b3, 8);
    var b4 := TakeFixed(b3, 8).value.1;
    TakenIsKdf(b4);
    TakenIsField(TakeKdf(b4).value.1);
  }

  /** The decoder accepts nothing but encodings. */
  lemma DecodedIsEncoding(b: bytes)
    requires DecodeHeader(b).Some?
    ensures var (h, rest) := DecodeHeader(b).value; b == Encoding(h, rest) && Encodable(h) && h == Header(h)
  {
    hide Ascii, TakeHeader, HeaderEncoding;
    TakenIsHeader(b[|LABEL|..]);
    assert b == LABEL + b[|LABEL|..];
  }

  lemma FieldThen(v: bytes, a: bytes, b: bytes)
    ensures Field(v, a + b) == Field(v, a) + b
  {
  }

  lemma FixedThen(v: nat, width: nat, a: bytes, b: bytes)
    ensures Fixed(v, width, a + b) == Fixed(v, width, a) + b
  {
  }

  /** `Encoding(m, rest)` really is the associated data with `rest` behind it. */
  lemma EncodingThen(m: UserManifest, rest: bytes)
    ensures Encoding(m, rest) == Encoding(m, []) + rest
  {
    hide Field, Fixed;
    var k := m.kdf;
    var a11 := Field(m.vaultFormat, []);
    FieldThen(m.vaultFormat, [], rest);
    assert [] + rest == rest;
    FixedThen(k.outputLength, 4, a11, rest);
    var a10 := Fixed(k.outputLength, 4, a11);
    FixedThen(k.parallelism, 4, a10, rest);
    var a9 := Fixed(k.parallelism, 4, a10);
    FixedThen(k.timeCost, 4, a9, rest);
    var a8 := Fixed(k.timeCost, 4, a9);
    FixedThen(k.memoryCostKiB, 4, a8, rest);
    var a7 := Fixed(k.memoryCostKiB, 4, a8);
    FieldThen(k.salt, a7, rest);
    var a6 := Field(k.salt, a7);
    FieldThen(k.algorithm, a6, rest);
    var a5 := Field(k.algorithm, a6);
    FixedThen(m.createdAt, 8, a5, rest);
    var a4 := Fixed(m.createdAt, 8, a5);
    FieldThen(m.username, a4, rest);
    var a3 := Field(m.username, a4);
    FieldThen(m.id, a3, rest);
    var a2 := Field(m.id, a3);
    FixedThen(m.version, 4, a2, rest);
  }

  /** Injective and prefix-free: of two encodable manifests, the associated data of one can begin with
      that of the other only if they agree on every field but the wrapped key, and then it is equal. */
  lemma AssociatedDataIsInjective(m: UserManifest, n: UserManifest, rest: bytes)
    requires Encodable(m) && Encodable(n)
    ensures Encoding(m, []) + rest == Encoding(n, []) <==> Header(m) == Header(n) && rest == []
  {
    hide Encoding, DecodeHeader;
    EncodingThen(m, rest);
    EncodingIsDecoded(m, rest);
    EncodingIsDecoded(n, []);
    if Header(m) == Header(n) && rest == [] {
      EncodingIgnoresWrappedKey(m);
      EncodingIgnoresWrappedKey(n);
      assert Encoding(m, []) + [] == Encoding(m, []);
    }
  }

  lemma EncodingIgnoresWrappedKey(m: UserManifest)
    ensures Encoding(m, []) == Encoding(Header(m), [])
  {
  }

  // -------------------------------------------------------- user names

  const DOT: byte := 46
  const SLASH: byte := 47

  predicate IsUpper(b: byte) { 65 <= b <= 90 }
  predicate IsLower(b: byte) { 97 <= b <= 122 }
  predicate IsDigit(b: byte) { 48 <= b <= 57 }
  predicate IsAlphanumeric(b: byte) { IsUpper(b) || IsLower(b) || IsDigit(b) }

  /** Letters, digits, dot, underscore and hyphen; the first a letter or digit; at most 64. */
  predicate IsValidUsername(u: bytes) {
    && 0 < |u| <= 64
    && IsAlphanumeric(u[0])
    && forall i :: 0 <= i < |u| ==> IsAlphanumeric(u[i]) || u[i] == DOT || u[i] == 95 || u[i] == 45
  }

  function ToLower(b: byte): byte {
    if IsUpper(b) then b + 32 else b
  }

  /** The directory a user name is stored under. */
  function UserDirectory(u: bytes): bytes {
    seq(|u|, i requires 0 <= i < |u| => ToLower(u[i]))
  }

  predicate SameLetter(a: byte, b: byte) {
    a == b || (IsUpper(a) && b == a + 32) || (IsUpper(b) && a == b + 32)
  }

  /** Equal but for the case of ASCII letters. */
  predicate EqualUpToCase(u: bytes, v: bytes) {
    |u| == |v| && forall i :: 0 <= i < |u| ==> SameLetter(u[i], v[i])
  }

  /** The directory of an accepted name is one plain path component that is neither hidden nor special,
      and it is itself an accepted name. */
  lemma DirectoryIsPlain(u: bytes)
    requires IsValidUsername(u)
    ensures var d := UserDirectory(u);
            IsValidUsername(d) && UserDirectory(d) == d && d[0] != DOT && SLASH !in d && 0 !in d
  {
    var d := UserDirectory(u);
    assert forall i :: 0 <= i < |d| ==> d[i] == ToLower(u[i]);
  }

  /** Two names share a directory exactly when they differ at most in the case of letters. */
  lemma SharedDirectory(u: bytes, v: bytes)
    ensures UserDirectory(u) == UserDirectory(v) <==> EqualUpToCase(u, v)
  {
    if UserDirectory(u) == UserDirectory(v) {
      forall i | 0 <= i < |u|
        ensures SameLetter(u[i], v[i])
      {
        assert UserDirectory(u)[i] == UserDirectory(v)[i];
      }
    }
  }
}
