/** Sealing a directory into a vault file and restoring it. */
module Archive {
  import opened Wrappers
  import opened Bytes
  import opened Cipher
  import opened Libraries
  import opened Trees
  import opened VaultFormat
  import VaultReader
  import VaultWriter
  import VaultLanguage

  // ------------------------------------------------------------ extraction

  const PARENT_DIRECTORY: bytes := [46, 46]

  /** Puts something at `p`, which its directory must allow. */
  function Place(dest: Tree, p: Path, n: Node): Option<Tree>
    requires p != []
  {
    if CanHold(dest, Parent(p)) then Some(dest[p := n]) else None
  }

  /** Creates the missing directories above and including `p`; fails at anything else in the way. */
  function MakeDirs(dest: Tree, p: Path): Option<Tree>
    decreases |p|
  {
    if p == [] then Some(dest) else
    var above :- MakeDirs(dest, Parent(p));
    if p !in above then Place(above, p, Dir(true))
    else if above[p].Dir? then Some(above)
    else None
  }

  /** One entry below the destination: `None` is an error, and an entry that would climb out of the
      destination is one. A directory gets its mode at once, before what it holds comes up. */
  function UnpackIn(dest: Tree, e: Entry): Option<Tree> {
    if PARENT_DIRECTORY in e.path then None
    else if e.path == [] then Some(dest)
    else
      var above :- MakeDirs(dest, Parent(e.path));
      if e.kind.Directory? then
        if e.path !in above then Place(above, e.path, Dir(e.fillable))
        else if above[e.path].Dir? then Some(above[e.path := Dir(e.fillable)])
        else None
      else if e.path in above && above[e.path].Dir? then None
      else Place(above, e.path, File(e.data))
  }

  /** Links and special entries are passed over. */
  function Unpack(dest: Tree, e: Entry): Option<Tree> {
    if e.kind.Regular? || e.kind.Directory? then UnpackIn(dest, e) else Some(dest)
  }

  function UnpackAll(es: seq<Entry>): Option<Tree> {
    if es == [] then Some(map[]) else
    var dest :- UnpackAll(es[..|es| - 1]);
    Unpack(dest, es[|es| - 1])
  }

  // --------------------------------------------- extraction restores a tree

  /** The restorable part of the paths listed so far. */
  ghost function RestoredSoFar(es: seq<Entry>, t: Tree): Tree {
    map p | p in Restorable(t) && Listed(es, p) :: t[p]
  }

  lemma {:induction false} DirsAreThere(dest: Tree, p: Path)
    requires Rooted(dest) && IsDirIn(dest, p)
    ensures MakeDirs(dest, p) == Some(dest)
    decreases |p|
  {
    if p != [] {
      DirsAreThere(dest, Parent(p));
    }
  }

  lemma ListedSnoc(es: seq<Entry>, p: Path)
    requires es != []
    ensures Listed(es, p) <==> Listed(es[..|es| - 1], p) || es[|es| - 1].path == p
  {
    if Listed(es[..|es| - 1], p) {
      var i :| 0 <= i < |es| - 1 && es[..|es| - 1][i].path == p;
      assert es[i].path == p;
    }
    if Listed(es, p) && es[|es| - 1].path != p {
      var i :| 0 <= i < |es| && es[i].path == p;
      assert es[..|es| - 1][i].path == p;
    }
  }

  lemma ParentListedToo(all: seq<Entry>, n: nat, t: Tree, p: Path)
    requires Lists(all, t) && n <= |all| && Listed(all[..n], p) && p != [] && Parent(p) != []
    ensures Listed(all[..n], Parent(p))
  {
    var es := all[..n];
    var i :| 0 <= i < |es| && es[i].path == p;
    assert all[i].path == p;
    assert Listed(all[..i], Parent(p));
    var j :| 0 <= j < i && all[..i][j].path == Parent(p);
    assert es[j].path == Parent(p);
  }

  /** Whatever is listed has its directory listed before it, so each stage of the extraction is a tree. */
  lemma SoFarIsRooted(all: seq<Entry>, n: nat, t: Tree)
    requires WellFormedTree(t) && Lists(all, t) && n <= |all|
    ensures Rooted(RestoredSoFar(all[..n], t))
  {
    var es := all[..n];
    var dest := RestoredSoFar(es, t);
    forall p | p in dest
      ensures p != [] && IsDirIn(dest, Parent(p))
    {
      if Parent(p) != [] {
        ParentListedToo(all, n, t, p);
        assert IsDirIn(t, Parent(p));
      }
    }
    hide Lists, Listed;
  }

  ghost predicate Restores(e: Entry, t: Tree) {
    e.path in t && (t[e.path].File? || t[e.path].Dir?)
  }

  lemma SoFarSnoc(all: seq<Entry>, n: nat, t: Tree)
    requires n < |all|
    ensures RestoredSoFar(all[..n + 1], t)
            == if Restores(all[n], t) then RestoredSoFar(all[..n], t)[all[n].path := t[all[n].path]]
               else RestoredSoFar(all[..n], t)
  {
    assert all[..n + 1][..n] == all[..n];
    forall p
      ensures Listed(all[..n + 1], p) <==> Listed(all[..n], p) || all[n].path == p
    {
      ListedSnoc(all[..n + 1], p);
    }
    hide Listed;
  }

  /** When an entry comes up, it is new and its directory is already there. */
  lemma EntryIsReady(all: seq<Entry>, n: nat, t: Tree)
    requires WellFormedTree(t) && Lists(all, t) && n < |all| && all[n].path != []
    ensures all[n].path in t && all[n] == EntryOf(all[n].path, t[all[n].path]) && PARENT_DIRECTORY !in all[n].path
    ensures all[n].path !in RestoredSoFar(all[..n], t) && IsDirIn(RestoredSoFar(all[..n], t), Parent(all[n].path))
  {
    var p := all[n].path;
    assert IsDirIn(t, Parent(p));
    assert Parent(p) != [] ==> Listed(all[..n], Parent(p));
    assert !ValidComponent(PARENT_DIRECTORY);
  }

  /** So far every file and directory listed could be put where it belongs. */
  ghost predicate RefillableSoFar(all: seq<Entry>, n: nat, t: Tree)
    requires n <= |all|
  {
    forall i :: 0 <= i < n && Restores(all[i], t) && all[i].path != [] ==> CanHold(t, Parent(all[i].path))
  }

  /** The directory of an entry that comes up is as fillable as in the tree. */
  lemma ParentAsInTree(all: seq<Entry>, n: nat, t: Tree)
    requires WellFormedTree(t) && Lists(all, t) && n < |all| && all[n].path != []
    ensures CanHold(RestoredSoFar(all[..n], t), Parent(all[n].path)) <==> CanHold(t, Parent(all[n].path))
  {
    EntryIsReady(all, n, t);
  }

  /** One more entry restores one more path, or cannot be placed because its directory does not let it. */
  lemma UnpackOneMore(all: seq<Entry>, n: nat, t: Tree)
    requires WellFormedTree(t) && Lists(all, t) && n < |all|
    ensures Unpack(RestoredSoFar(all[..n], t), all[n])
            == if Restores(all[n], t) && all[n].path != [] && !CanHold(t, Parent(all[n].path)) then None
               else Some(RestoredSoFar(all[..n + 1], t))
  {
    var e, dest := all[n], RestoredSoFar(all[..n], t);
    SoFarSnoc(all, n, t);
    if e.path == [] {
      assert [] !in t;
    } else {
      EntryIsReady(all, n, t);
      ParentAsInTree(all, n, t);
      SoFarIsRooted(all, n, t);
      DirsAreThere(dest, Parent(e.path));
      hide Lists, WellFormedTree, Rooted, RestoredSoFar, CanHold, IsDirIn;
    }
  }

  /** Extraction of any listing of a tree restores exactly its files and directories, or stops at the
      first that its directory does not let be created. */
  lemma {:induction false} UnpackRestores(all: seq<Entry>, n: nat, t: Tree)
    requires WellFormedTree(t) && Lists(all, t) && n <= |all|
    ensures UnpackAll(all[..n]) == if RefillableSoFar(all, n, t) then Some(RestoredSoFar(all[..n], t)) else None
  {
    hide Lists, WellFormedTree, Unpack, CanHold, Restores;
    if n == 0 {
      assert RestoredSoFar(all[..0], t) == map[];
    } else {
      hide RestoredSoFar;
      UnpackRestores(all, n - 1, t);
      UnpackOneMore(all, n - 1, t);
      assert all[..n][..n - 1] == all[..n - 1];
    }
  }

  lemma AllListedIsRefillable(all: seq<Entry>, t: Tree)
    requires WellFormedTree(t) && Lists(all, t)
    ensures RefillableSoFar(all, |all|, t) <==> Refillable(t)
  {
    if RefillableSoFar(all, |all|, t) {
      forall p | p in Restorable(t) && p != []
        ensures CanHold(t, Parent(p))
      {
        assert Listed(all, p);
        var i :| 0 <= i < |all| && all[i].path == p;
        assert Restores(all[i], t);
      }
    }
    hide Lists, CanHold;
  }

  /** The exact condition: extraction of any listing of a tree succeeds if and only if no file or directory
      sits in a directory its owner may not create entries in, and then restores exactly the files and
      directories. */
  lemma UnpackRestoresAll(all: seq<Entry>, t: Tree)
    requires WellFormedTree(t) && Lists(all, t)
    ensures UnpackAll(all) == if Refillable(t) then Some(Restorable(t)) else None
  {
    UnpackRestores(all, |all|, t);
    AllListedIsRefillable(all, t);
    assert all[..|all|] == all;
    assert RestoredSoFar(all, t) == Restorable(t);
  }

  /** A restored tree is a tree of its own, restoring it again changes nothing, and it can be extracted
      again exactly when the tree it comes from can. */
  lemma RestorableIsFixpoint(t: Tree)
    requires WellFormedTree(t)
    ensures WellFormedTree(Restorable(t)) && Restorable(Restorable(t)) == Restorable(t)
    ensures Refillable(Restorable(t)) <==> Refillable(t)
  {
    assert Restorable(Restorable(t)) == Restorable(t);
    forall p | p in Restorable(t) && p != []
      ensures CanHold(Restorable(t), Parent(p)) <==> CanHold(t, Parent(p))
    {
    }
  }

  // ----------------------------------------------------- sealing, unsealing

  /** What the archive parser finally says about a complete stream. */
  function ParseAll(lib: Lib, stream: bytes): Parse {
    if lib.tarParse(stream, false).NeedMore? then lib.tarParse(stream, true) else lib.tarParse(stream, false)
  }

  /** The tree a state file opens to under a key, if it opens at all. */
  function Unseal(lib: Lib, key: Key, file: bytes): Option<Tree> {
    if !VaultReader.Accepts(lib.gcm(key), file) then None else
    match ParseAll(lib, VaultReader.Plaintext(lib.gcm(key), file))
    case Entries(es) => UnpackAll(es)
    case _ => None
  }

  /** The archive writer takes the entries and the seed leaves room for what it makes of them. */
  predicate CanSeal(lib: Lib, seed: Nonce, es: seq<Entry>) {
    lib.tarPack(es).Some? && Fits(seed, |lib.tarPack(es).value|)
  }

  /** The state file that sealing the entries produces. */
  function SealedFile(lib: Lib, key: Key, seed: Nonce, es: seq<Entry>): bytes
    requires CanSeal(lib, seed, es)
  {
    Image(lib.gcm(key), seed, Chunks(lib.tarPack(es).value))
  }

  datatype SealError = Unpackable | NotSealed(error: VaultFormat.Error)

  /** Streams the archive into the writer in pieces of any size. */
  method SealEntries(lib: Lib, key: Key, seed: Nonce, es: seq<Entry>, pieces: seq<bytes>)
    returns (r: Result<bytes, SealError>)
    requires lib.tarPack(es).Some? ==> Concat(pieces) == lib.tarPack(es).value
    ensures r.Ok? <==> CanSeal(lib, seed, es)
    ensures r.Ok? ==> r.value == SealedFile(lib, key, seed, es)
  {
    if lib.tarPack(es).None? {
      return Err(Unpackable);
    }
    var sealed := VaultWriter.SealStream(lib.gcm(key), seed, pieces);
    r := if sealed.Ok? then Ok(sealed.value) else Err(NotSealed(sealed.error));
  }

  datatype UnsealError = Stream(error: VaultFormat.Error) | BadArchive | NotExtracted

  lemma Pulled(stream: bytes, piece: bytes, before: bytes, after: bytes, whole: bytes)
    requires stream + before == whole && piece + after == before
    ensures (stream + piece) + after == whole && (piece == [] ==> stream + piece == stream && after == before)
  {
    assert (stream + piece) + after == stream + (piece + after);
  }

  /** What the parser settles on is what it makes of the whole stream. */
  lemma PulledEnough(lib: Lib, stream: bytes, rest: bytes, whole: bytes, ended: bool)
    requires lib.TarLaws() && stream + rest == whole && !lib.tarParse(stream, ended).NeedMore?
    requires ended ==> rest == [] && lib.tarParse(stream, false).NeedMore?
    ensures lib.tarParse(stream, ended) == ParseAll(lib, whole)
  {
    if ended {
      assert stream + [] == stream;
    } else {
      assert lib.tarParse(stream + rest, false) == lib.tarParse(stream, false);
    }
  }

  /** The archive parser pulls blocks through the reader until it is satisfied or the stream ends. */
  method PullArchive(lib: Lib, reader: VaultReader.VaultReader, blockSize: nat)
    returns (r: Result<Parse, VaultFormat.Error>)
    requires lib.TarLaws() && blockSize > 0 && reader.Valid()
    modifies reader
    ensures r.Err? ==> old(reader.End()) == Some(r.error)
    ensures r.Ok? ==> reader.Valid() && reader.End() == old(reader.End()) && !r.value.NeedMore?
    ensures r.Ok? && old(reader.End()).None? ==> r.value == ParseAll(lib, old(reader.Future()))
  {
    hide VaultReader.Drain, Concat;
    ghost var whole := reader.Future();
    var stream: bytes, ended := [], false;
    var block := new byte[blockSize](i => 0);
    while lib.tarParse(stream, ended).NeedMore?
      invariant reader.Valid() && fresh(block) && block.Length == blockSize
      invariant stream + reader.Future() == whole && reader.End() == old(reader.End())
      invariant ended ==> reader.Future() == [] && lib.tarParse(stream, false).NeedMore?
      decreases |reader.Future()| + if ended then 0 else 1
    {
      ghost var future := reader.Future();
      var got := reader.Read(block);
      if got.Err? {
        return Err(got.error);
      }
      Pulled(stream, block[..got.value], future, reader.Future(), whole);
      stream := stream + block[..got.value];
      ended := got.value == 0;
    }
    PulledEnough(lib, stream, reader.Future(), whole, ended);
    return Ok(lib.tarParse(stream, ended));
  }

  /** Opens a state file: parse, unpack each entry in turn, drain the reader to its final frame. It
      succeeds exactly when the whole file is accepted, the archive is well formed and every entry could
      be placed, even where the parser itself stopped early. */
  method UnsealDirectory(lib: Lib, key: Key, file: bytes, blockSize: nat) returns (r: Result<Tree, UnsealError>)
    requires lib.TarLaws() && blockSize > 0
    ensures r.Ok? <==> Unseal(lib, key, file).Some?
    ensures r.Ok? ==> Some(r.value) == Unseal(lib, key, file)
  {
    hide UnpackAll, ParseAll;
    var started := VaultReader.VaultReader.New(lib.gcm(key), file);
    if started.Err? {
      return Err(Stream(started.error));
    }
    hide VaultReader.Decode, VaultReader.Plaintext;
    var reader := started.value;
    var parsed := PullArchive(lib, reader, blockSize);
    if parsed.Err? {
      return Err(Stream(parsed.error));
    }
    if parsed.value.Malformed? {
      return Err(BadArchive);
    }
    var dest := ExtractEntries(parsed.value.entries);
    if dest.None? {
      return Err(NotExtracted);
    }
    var verified := reader.VerifyFinished();
    if verified.Err? {
      return Err(Stream(verified.error));
    }
    return Ok(dest.value);
  }

  /** Unpacks the entries one after the other and stops at the first that cannot be placed. */
  method ExtractEntries(es: seq<Entry>) returns (r: Option<Tree>)
    ensures r == UnpackAll(es)
  {
    var dest: Tree := map[];
    for i := 0 to |es|
      invariant UnpackAll(es[..i]) == Some(dest)
    {
      assert es[..i + 1][..i] == es[..i];
      var placed := Unpack(dest, es[i]);
      if placed.None? {
        FailureStays(es, i + 1);
        return None;
      }
      dest := placed.value;
    }
    assert es[..|es|] == es;
    return Some(dest);
  }

  /** A failure at any entry is a failure of the whole. */
  lemma {:induction false} FailureStays(es: seq<Entry>, n: nat)
    requires n <= |es| && UnpackAll(es[..n]).None?
    ensures UnpackAll(es).None?
    decreases |es|
  {
    if n == |es| {
      assert es[..n] == es;
    } else {
      assert es[..|es| - 1][..n] == es[..n];
      FailureStays(es[..|es| - 1], n);
    }
  }

  /** Sealing and unsealing restores exactly the files and directories of the tree: links and special
      files are dropped, nothing else is lost and nothing is added. It does so if and only if the tree can
      be extracted again; a tree that cannot is sealed all the same. */
  lemma SealThenUnseal(lib: Lib, key: Key, seed: Nonce, es: seq<Entry>, t: Tree)
    requires lib.CipherLaws() && lib.TarLaws() && WellFormedTree(t) && Lists(es, t)
    requires CanSeal(lib, seed, es)
    ensures Unseal(lib, key, SealedFile(lib, key, seed, es)) == if Refillable(t) then Some(Restorable(t)) else None
  {
    assert lib.gcm(key).Lawful();
    VaultLanguage.SealedFileDecodes(lib.gcm(key), seed, lib.tarPack(es).value);
    assert lib.tarParse(lib.tarPack(es).value, false) == Entries(es);
    UnpackRestoresAll(es, t);
  }
}
