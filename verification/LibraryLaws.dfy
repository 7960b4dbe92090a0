/** The laws assumed of foreign code contradict neither each other nor themselves: here is code that
    obeys them all. It only has to be lawful, not secure or compact. */
module LibraryLaws {
  import opened Wrappers
  import opened Bytes
  import opened Cipher
  import opened Libraries
  import opened Trees

  /** A list as a byte string: 1 before each element, 0 behind the last. */
  function ListCode<T>(code: T -> bytes, xs: seq<T>): bytes {
    if xs == [] then [0] else [1] + code(xs[0]) + ListCode(code, xs[1..])
  }

  /** No code word begins another. */
  ghost predicate PrefixFree<T(!new)>(code: T -> bytes) {
    forall x: T, y: T, r: bytes, t: bytes :: code(x) + r == code(y) + t ==> x == y
  }

  lemma Cancel(a: bytes, r: bytes, t: bytes)
    requires a + r == a + t
    ensures r == t
  {
    assert r == (a + r)[|a|..] && t == (a + t)[|a|..];
  }

  lemma {:induction false} ListCodeIsPrefixFree<T(!new)>(code: T -> bytes, xs: seq<T>, ys: seq<T>, r: bytes, t: bytes)
    requires PrefixFree(code) && ListCode(code, xs) + r == ListCode(code, ys) + t
    ensures xs == ys
    decreases |xs|
  {
    assert (ListCode(code, xs) + r)[0] == (ListCode(code, ys) + t)[0];
    if xs != [] {
      var x, y, moreX, moreY := code(xs[0]), code(ys[0]), ListCode(code, xs[1..]) + r, ListCode(code, ys[1..]) + t;
      assert ListCode(code, xs) + r == [1] + (x + moreX);
      assert ListCode(code, ys) + t == [1] + (y + moreY);
      Cancel([1], x + moreX, y + moreY);
      Cancel(x, moreX, moreY);
      ListCodeIsPrefixFree(code, xs[1..], ys[1..], r, t);
      assert xs == [xs[0]] + xs[1..] && ys == [ys[0]] + ys[1..];
    }
  }

  function ByteCode(b: byte): bytes { [b] }

  function TextCode(text: bytes): bytes { ListCode(ByteCode, text) }

  function PathCode(path: Path): bytes { ListCode(TextCode, path) }

  function KindCode(k: Kind): byte {
    match k
    case Regular => 0
    case Directory => 1
    case Symlink => 2
    case HardLink => 3
    case Other => 4
  }

  function HeadCode(e: Entry): bytes { [KindCode(e.kind), if e.fillable then 1 else 0] }

  function EntryCode(e: Entry): bytes { HeadCode(e) + PathCode(e.path) + TextCode(e.data) }

  lemma HeadsDiffer(x: Entry, y: Entry)
    requires HeadCode(x) == HeadCode(y)
    ensures x.kind == y.kind && x.fillable == y.fillable
  {
    assert HeadCode(x)[0] == KindCode(x.kind) && HeadCode(y)[0] == KindCode(y.kind);
    assert HeadCode(x)[1] == HeadCode(y)[1];
  }

  function ArchiveCode(es: seq<Entry>): bytes { ListCode(EntryCode, es) }

  lemma TextAndPathArePrefixFree()
    ensures PrefixFree(TextCode) && PrefixFree(PathCode)
  {
    assert PrefixFree(ByteCode) by {
      forall x: byte, y: byte, r: bytes, t: bytes | ByteCode(x) + r == ByteCode(y) + t
        ensures x == y
      {
        assert (ByteCode(x) + r)[0] == x && (ByteCode(y) + t)[0] == y;
      }
    }
    forall x: bytes, y: bytes, r: bytes, t: bytes | TextCode(x) + r == TextCode(y) + t
      ensures x == y
    {
      ListCodeIsPrefixFree(ByteCode, x, y, r, t);
    }
    forall x: Path, y: Path, r: bytes, t: bytes | PathCode(x) + r == PathCode(y) + t
      ensures x == y
    {
      ListCodeIsPrefixFree(TextCode, x, y, r, t);
    }
  }

  lemma EntriesArePrefixFree()
    ensures PrefixFree(EntryCode)
  {
    TextAndPathArePrefixFree();
    hide ListCode, TextCode, PathCode;
    forall x: Entry, y: Entry, r: bytes, t: bytes | EntryCode(x) + r == EntryCode(y) + t
      ensures x == y
    {
      var moreX, moreY := TextCode(x.data) + r, TextCode(y.data) + t;
      assert EntryCode(x) + r == HeadCode(x) + (PathCode(x.path) + moreX);
      assert EntryCode(y) + t == HeadCode(y) + (PathCode(y.path) + moreY);
      assert (EntryCode(x) + r)[..2] == HeadCode(x) && (EntryCode(y) + t)[..2] == HeadCode(y);
      HeadsDiffer(x, y);
      hide HeadCode;
      Cancel(HeadCode(x), PathCode(x.path) + moreX, PathCode(y.path) + moreY);
      assert x.path == y.path;
      Cancel(PathCode(x.path), moreX, moreY);
    }
  }

  ghost predicate Contains(b: bytes, es: seq<Entry>) {
    ArchiveCode(es) <= b
  }

  ghost function ParseCode(b: bytes, ended: bool): Parse {
    if exists es :: Contains(b, es) then
      var es :| Contains(b, es);
      Entries(es)
    else if ended then Malformed
    else NeedMore
  }

  lemma ParseIsDetermined(b: bytes, es: seq<Entry>, ended: bool)
    requires Contains(b, es)
    ensures ParseCode(b, ended) == Entries(es)
  {
    EntriesArePrefixFree();
    var found := ParseCode(b, ended).entries;
    var n, m := |ArchiveCode(es)|, |ArchiveCode(found)|;
    assert b == ArchiveCode(es) + b[n..] && b == ArchiveCode(found) + b[m..];
    ListCodeIsPrefixFree(EntryCode, es, found, b[n..], b[m..]);
  }

  function SomeKey(): Key { seq(KEY_LENGTH, i => 0) }

  /** All the laws together have a model, even one whose every password, UUID and archive is fine. */
  lemma LibrariesHaveAModel() returns (lib: Lib)
    ensures lib.Lawful()
    ensures forall p, s, m, t, l :: lib.argon2(p, s, m, t, l) == Some(SomeKey())
    ensures forall b: bytes :: lib.parseUuid(b) == Some(b) && lib.base64(b) == b
    ensures forall es: seq<Entry> :: lib.tarPack(es) == Some(ArchiveCode(es))
  {
    LawsHaveAModel();
    var c: Aead :| c.Lawful();
    lib := Lib((k: Key) => c, (p, s, m, t, l) => Some(SomeKey()), b => b, b => Some(b), b => Some(b),
               es => Some(ArchiveCode(es)), (b, ended) => ParseCode(b, ended));
    forall es: seq<Entry>
      ensures lib.tarParse(lib.tarPack(es).value, false) == Entries(es)
    {
      ParseIsDetermined(ArchiveCode(es), es, false);
    }
    forall b: bytes, more: bytes | !lib.tarParse(b, false).NeedMore?
      ensures lib.tarParse(b + more, false) == lib.tarParse(b, false)
    {
      var es :| Contains(b, es);
      assert Contains(b + more, es);
      ParseIsDetermined(b, es, false);
      ParseIsDetermined(b + more, es, false);
    }
  }
}
