/** Authenticity carried from bytes to file trees: whatever is found in place of a state file, opening it
    yields a tree that was sealed under the key, or nothing. */
module SealedTrees {
  import opened Wrappers
  import opened Bytes
  import opened Cipher
  import opened Libraries
  import opened Trees
  import opened VaultFormat
  import opened VaultAuthenticity
  import opened Archive
  import VaultReader
  import VaultLanguage

  /** A tree and the order in which it was walked to be sealed. */
  datatype Snapshot = Snapshot(tree: Tree, listing: seq<Entry>)

  /** Honest file `f` was sealed, perhaps only in part, from this tree. */
  ghost predicate SealedFrom(lib: Lib, f: HonestFile, x: Snapshot) {
    && f.Valid() && WellFormedTree(x.tree) && Lists(x.listing, x.tree)
    && lib.tarPack(x.listing) == Some(f.data)
  }

  ghost predicate AllSealedFrom(lib: Lib, files: seq<HonestFile>, snapshots: seq<Snapshot>) {
    |files| == |snapshots| && forall k :: 0 <= k < |files| ==> SealedFrom(lib, files[k], snapshots[k])
  }

  /** A finished file opens to the restorable part of the tree it was sealed from. */
  lemma FinishedFileOpens(lib: Lib, key: Key, f: HonestFile, x: Snapshot)
    requires lib.CipherLaws() && lib.TarLaws() && SealedFrom(lib, f, x) && f.Finished()
    ensures Unseal(lib, key, f.FileImage(lib.gcm(key))) == if Refillable(x.tree) then Some(Restorable(x.tree)) else None
  {
    hide Unseal, Refillable, Restorable, Lists, WellFormedTree, Image, Chunks;
    assert CanSeal(lib, f.seed, x.listing);
    SealThenUnseal(lib, key, f.seed, x.listing, x.tree);
  }

  lemma OpenedIsAccepted(lib: Lib, key: Key, file: bytes)
    requires Unseal(lib, key, file).Some?
    ensures VaultReader.Accepts(lib.gcm(key), file)
  {
  }

  /** The byte string is finished file `k`. */
  ghost predicate IsFile(c: Aead, files: seq<HonestFile>, k: nat, file: bytes) {
    k < |files| && files[k].Finished() && file == files[k].FileImage(c)
  }

  /** What opening the byte string yields, decided by the files alone. */
  ghost predicate OpensAsSealed(lib: Lib, key: Key, files: seq<HonestFile>, snapshots: seq<Snapshot>, file: bytes)
    requires |files| == |snapshots|
  {
    && (Unseal(lib, key, file).Some? <==>
          exists k: nat :: IsFile(lib.gcm(key), files, k, file) && Refillable(snapshots[k].tree))
    && forall k: nat :: IsFile(lib.gcm(key), files, k, file) ==>
         Unseal(lib, key, file)
         == if Refillable(snapshots[k].tree) then Some(Restorable(snapshots[k].tree)) else None
  }

  /** Any number of trees were sealed under one key with distinct seeds, some perhaps only in part, and an
      arbitrary byte string is opened. Unless it holds forged frames it opens if and only if it is, byte for
      byte, one of the finished files and the tree sealed in it can be extracted; and then exactly the files
      and directories of that tree come out. */
  lemma AuthenticTree(lib: Lib, key: Key, files: seq<HonestFile>, snapshots: seq<Snapshot>, file: bytes)
    requires lib.CipherLaws() && lib.TarLaws() && DistinctSeeds(files) && AllSealedFrom(lib, files, snapshots)
    requires UnforgedFile(lib.gcm(key), files, file)
    ensures OpensAsSealed(lib, key, files, snapshots, file)
  {
    hide Unseal, Refillable, Restorable, Lists, WellFormedTree, UnforgedFile, Image, Chunks, FileHeader;
    hide VaultReader.Plaintext, VaultReader.Decode, DistinctSeeds;
    var c := lib.gcm(key);
    assert c.Lawful();
    Authentic(c, files, file);
    forall k: nat | IsFile(c, files, k, file)
      ensures Unseal(lib, key, file)
              == if Refillable(snapshots[k].tree) then Some(Restorable(snapshots[k].tree)) else None
    {
      FinishedFileOpens(lib, key, files[k], snapshots[k]);
    }
    if Unseal(lib, key, file).Some? {
      OpenedIsAccepted(lib, key, file);
      var f :| f in files && FileHeader(f.seed) <= file;
      var k: nat :| k < |files| && files[k] == f;
      assert IsFile(c, files, k, file);
    }
  }

  lemma TogetherSealedFrom(lib: Lib, files: seq<HonestFile>, snapshots: seq<Snapshot>, partial: seq<HonestFile>,
                           halves: seq<Snapshot>)
    requires AllSealedFrom(lib, files, snapshots) && AllSealedFrom(lib, partial, halves)
    ensures |files| == |snapshots| && |partial| == |halves|
    ensures AllSealedFrom(lib, files + partial, snapshots + halves)
  {
    hide SealedFrom;
  }

  lemma SameFinishedFiles(c: Aead, files: seq<HonestFile>, partial: seq<HonestFile>, file: bytes)
    requires forall f :: f in partial ==> !f.Finished()
    ensures forall k: nat :: IsFile(c, files + partial, k, file) <==> IsFile(c, files, k, file)
  {
    hide Image, Chunks;
    forall k: nat
      ensures IsFile(c, files + partial, k, file) <==> IsFile(c, files, k, file)
    {
      if |files| <= k < |files + partial| {
        assert (files + partial)[k] in partial;
      }
    }
  }

  /** What interrupted seals have left behind is of no use. */
  lemma InterruptedOnesDoNotCount(lib: Lib, key: Key, files: seq<HonestFile>, snapshots: seq<Snapshot>,
                                  partial: seq<HonestFile>, halves: seq<Snapshot>, file: bytes)
    requires lib.CipherLaws() && lib.TarLaws() && DistinctSeeds(files + partial)
    requires AllSealedFrom(lib, files, snapshots) && AllSealedFrom(lib, partial, halves)
    requires (forall f :: f in partial ==> !f.Finished()) && UnforgedFile(lib.gcm(key), files + partial, file)
    ensures OpensAsSealed(lib, key, files, snapshots, file)
  {
    TogetherSealedFrom(lib, files, snapshots, partial, halves);
    hide Unseal, Refillable, Restorable, UnforgedFile, DistinctSeeds, AllSealedFrom, Image, Chunks;
    AuthenticTree(lib, key, files + partial, snapshots + halves, file);
    SameFinishedFiles(lib.gcm(key), files, partial, file);
    hide IsFile;
  }
}
