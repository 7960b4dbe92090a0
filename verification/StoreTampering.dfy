/** State files that somebody outside has put in place of those the store wrote. The store itself has no such
    event; here an arbitrary byte string is opened after an arbitrary run. */
module StoreTampering {
  import opened Wrappers
  import opened Bytes
  import opened Cipher
  import opened Libraries
  import opened Trees
  import opened VaultFormat
  import opened VaultAuthenticity
  import opened Archive
  import opened SealedTrees
  import opened StoreModel
  import opened StoreInvariant
  import opened StoreFrames
  import opened StoreTheorems

  /** What an event seals under `key`: the seed it draws and the tree. */
  function SealedBy(s: State, e: Event, key: Key): Option<(Nonce, Snapshot)> {
    if !e.By? then None else
    var proc := Of(s, e.p);
    match e.act
    case FinishState(seed, listing) =>
      if proc.AddStaged? && proc.dataKey == Some(key) then Some((seed, Snapshot(map[], listing))) else None
    case FinishSeal(seed, listing) =>
      if proc.Sealing? && proc.key == key then Some((seed, Snapshot(proc.tree, listing))) else None
    case _ => None
  }

  function Finished(seed: Nonce, data: bytes): HonestFile {
    HonestFile(seed, data, |Chunks(data)| + 1)
  }

  /** All state files the processes have sealed under `key` in a run, and the trees they sealed in them. */
  ghost function Sealed(lib: Lib, es: seq<Event>, key: Key): (seq<HonestFile>, seq<Snapshot>)
    requires Run(lib, es)
    decreases |es|
  {
    if es == [] then ([], []) else
    Shorter(lib, es);
    var before := es[..|es| - 1];
    var (files, snapshots) := Sealed(lib, before, key);
    var now := SealedBy(StoreAfter(lib, before), es[|es| - 1], key);
    if now.Some? && lib.tarPack(now.value.1.listing).Some? then
      (files + [Finished(now.value.0, lib.tarPack(now.value.1.listing).value)], snapshots + [now.value.1])
    else (files, snapshots)
  }

  lemma FittingFileIsValid(seed: Nonce, data: bytes)
    requires Fits(seed, |data|)
    ensures Finished(seed, data).Valid()
  {
  }

  lemma SealingIsHonest(lib: Lib, s: State, a: Vault, e: Event, key: Key)
    requires Inv(lib, s, a) && Next(lib, s, e).Some? && SealedBy(s, e, key).Some?
    ensures var (seed, x) := SealedBy(s, e, key).value;
            lib.tarPack(x.listing).Some? && SealedFrom(lib, Finished(seed, lib.tarPack(x.listing).value), x)
  {
    hide Inv, ProfileOk, SealedFile, Lists, Chunks, Restorable;
    var (seed, x) := SealedBy(s, e, key).value;
    Extract(lib, s, a, e.p);
    FittingFileIsValid(seed, lib.tarPack(x.listing).value);
  }

  lemma {:induction false} AllSealedHonestly(lib: Lib, es: seq<Event>, key: Key)
    requires Run(lib, es)
    ensures AllSealedFrom(lib, Sealed(lib, es, key).0, Sealed(lib, es, key).1)
    decreases |es|
  {
    if es != [] {
      var before, e := es[..|es| - 1], es[|es| - 1];
      Shorter(lib, es);
      EveryRunKeepsInv(lib, before);
      hide Run, StoreAfter, Inv, Next, SealedBy, SealedFrom;
      AllSealedHonestly(lib, before, key);
      if SealedBy(StoreAfter(lib, before), e, key).Some? {
        SealingIsHonest(lib, StoreAfter(lib, before), VaultAfter(lib, before), e, key);
      }
    }
  }

  /** In any run, whatever byte string is put in place of a profile's state file: unless it holds forged
      frames, the profile's key opens it if and only if it is, byte for byte, a state file that was sealed
      under that key in the run and whose tree can be extracted, and then to that tree. So damage of every
      kind is noticed but for the return of an older state. Seals that were interrupted, `partial`, may have
      left frames behind; they are of no use. */
  lemma TamperedStateIsNoticed(lib: Lib, es: seq<Event>, key: Key, file: bytes, partial: seq<HonestFile>,
                               halves: seq<Snapshot>)
    requires Run(lib, es) && AllSealedFrom(lib, partial, halves) && forall f :: f in partial ==> !f.Finished()
    requires DistinctSeeds(Sealed(lib, es, key).0 + partial)
    requires UnforgedFile(lib.gcm(key), Sealed(lib, es, key).0 + partial, file)
    ensures var (files, snapshots) := Sealed(lib, es, key);
            AllSealedFrom(lib, files, snapshots) && OpensAsSealed(lib, key, files, snapshots, file)
  {
    RunIsLawful(lib, es);
    AllSealedHonestly(lib, es, key);
    var (files, snapshots) := Sealed(lib, es, key);
    hide Run, Sealed, UnforgedFile, AllSealedFrom, OpensAsSealed, DistinctSeeds;
    InterruptedOnesDoNotCount(lib, key, files, snapshots, partial, halves, file);
  }
}
