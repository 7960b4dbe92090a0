# Codex Vault: a verified model

Codex Vault keeps several password-protected profiles in one store. A profile is a directory holding a
manifest, which wraps a random data key under a key derived from the profile's password, and a state file,
which is the profile's file tree sealed under the data key as a stream of authenticated frames. Unlocking a
profile takes its lock, unwraps the data key and extracts the tree into a runtime directory; closing the
session seals the tree again; rotating the password rewraps the data key.

The model follows the code in four layers.

**The frame stream** (`VaultFormat`, `VaultWriter`, `VaultReader`, `VaultLanguage`, `VaultAuthenticity`). The
writer and the reader are classes with the buffers, counters and loops of the original; each is proved equal
to a function of byte strings, and the theorems are about those functions and about whole runs: which byte
strings the reader accepts, that any split of writes and reads returns the text, when sealing succeeds, and
that what the reader delivers from an arbitrary byte string is a prefix of one honest file.

**Manifests and keys** (`Manifest`, `KeyWrap`). The encoding that key wrapping authenticates, its decoder and
its injectivity; wrapping and unwrapping, and chains of password rotations.

**Archives** (`Trees`, `Archive`, `SealedTrees`). Sealing a tree and restoring it, through the reader's own
buffering, and authenticity carried from bytes to trees.

**The store** (`StoreModel` to `StoreOperations`). Processes share the user directories, the locks and the runtime
directories. One event is one file-system action of one process; a run is any interleaving of events of any number
of processes, in which any process may fail or die between two of its actions and outsiders may plant directories
in a runtime root. `StoreInvariant`, `StoreFrames` and `StoreSteps` show that every event keeps an invariant tying
the disk to an abstract vault, a map from profile to password, data key and tree; `StoreRenames` shows what changes
a profile and `StoreIsolation` that no process can disturb another; `StoreWraps` keeps track of the keys the
processes wrap and shows who gets through a password check; `StoreLocks` shows, without any assumption about
forgeries, that locks and runtime directories change hands in order. `StoreTheorems` draws the whole-run guarantees
and `StoreAccess` the exact conditions for unlocking and rotating; `StoreReopening` shows that a profile whose last
close succeeded can be opened again, and `StoreTampering` what becomes of a state file that somebody outside has
replaced; `StoreProgress` and `StoreOwners` show that profiles can be created, locked, opened, closed and given new
passwords, and `StoreWitnesses` builds the runs that show what is not promised. `StoreHistory` reads off a history
what one process has done in it, and `StoreOperations` runs `add_user`, `rotate_password`, `unlock` and `close` as
imperative methods, with their early returns and their cleanup, while other processes act between any two of their
steps, and proves what each has achieved when it returns.

Foreign code is a parameter (`Cipher.Aead`, `Libraries.Lib`) constrained by laws: opening undoes sealing and
opens nothing else, sealing adds 16 bytes, Base64 decoding undoes encoding, the archive parser recovers the
listing of a directory that the archive writer took. `LibraryLaws.LibrariesHaveAModel` shows that the laws are
consistent. Random draws and the clock are inputs.

Two assumptions concern a run, not the libraries. Authenticity of state files assumes that the nonce
seeds drawn under one key differ (`DistinctSeeds`) and that no frame the reader opened was forged (`UnforgedFile`). The store assumes of each event of a run (`Fair`) that a random
salt was not drawn before and that a password which opens a wrapped key opens one that the processes wrapped,
under the key they wrapped it with. `StoreOperations` states its results for histories that are `Honest` in
this sense. Both assumptions are shown to hold of what the code itself produces.

Five things one might expect are false of the code, and the model states exactly what holds instead. Each has a
run or an input that shows it.

- Distinct nonce seeds do not keep the nonces of two files apart (`DistinctSeedsMayClash`): the files share none
  exactly when their ranges of frame numbers do not meet (`NoncesOfTwoFilesDiffer`).
- A published profile is not always listed (`UnlistedProfileExists`): a profile created while the clock stands at
  second 0 of the epoch is published with a manifest that does not validate. Exactly the others are listed
  (`ListedUsersArePublished`), and the profile of second 0 can never be unlocked (`PasswordUnlocksIff`).
- A free lock and the right password do not always unlock (`FreeLockMayBeOfNoUse`). After a process has died with
  a session its lock is free (`DeathLeavesRuntime`), yet unlocking under that runtime root is refused until
  somebody removes the leftover directory (`LeftoverRefusesUnlock`); `RuntimeIsFreeIff` is the exact condition.
- An old password is not refused by its age (`OldPasswordMayOpen`, and `SamePasswordStillOpens` for a rotation to
  the same password): it is refused exactly when it derives another wrapping key than the current one under the
  current salt (`PasswordUnlocksIff`).
- A state that was put in place cannot always be opened again (`ResealedProfileMayNotReopen`). `close` replaces
  the state before it removes the runtime directory, and a tree in which a directory without permission to change
  it holds something can be sealed and neither removed nor extracted by an owner bound by that permission. Exactly
  the other trees come back (`SealThenUnseal`, `OwnerGetsInIff`). Such a `close` has reported an error: a profile
  whose last close succeeded, or that was never closed, opens for its owner iff it was not created at second 0 and
  the runtime path is free (`ClosedProfileReopens`), and in a run without deaths, failed removals and directories
  put in from outside it opens iff it was not created at second 0 (`UntroubledOwnerGetsIn`).

The reader accepts more than the writer emits, namely empty and short data frames before the last; the exact
language says so.

## Model

| member | source | states |
|---|---|---|
| VaultFormat.NonceBytes | src/crypto/vault_stream.rs:52-63 | the in-place carry loop is exact 96-bit addition: it succeeds iff value(seed) + sequence < 2^96, and then the result has exactly that value |
| VaultFormat.CarryStep | src/crypto/vault_stream.rs:55-59 | one turn of the loop keeps the sum of untouched bytes, carry and rewritten bytes |
| VaultFormat.NoncesOfOneFileDiffer | src/crypto/vault_stream.rs:52-63 | frames of one file never share a nonce (section 8 of NIST SP 800-38D) |
| VaultFormat.NoncesOfTwoFilesDiffer | src/crypto/vault_stream.rs:86-105 | two files under one key share no nonce iff their ranges of frame numbers are disjoint; distinct seeds alone do not suffice |
| VaultFormat.DistinctSeedsMayClash | src/crypto/vault_stream.rs:86-105 | there are two different seeds whose files use the same nonce, for frame 1 of one and frame 0 of the other |
| VaultFormat.HeaderFields | src/crypto/vault_stream.rs:65-73 | type, sequence number and length can be read back from a frame header |
| VaultFormat.HeaderOfFields | src/crypto/vault_stream.rs:238-244 | every nine bytes are the header of the fields the reader parses from them |
| VaultFormat.ChunksUnique | src/crypto/vault_stream.rs:157-183 | full chunks with at most one shorter nonempty last one are the only such division of their text |
| VaultWriter.VaultWriter.constructor | src/crypto/vault_stream.rs:86-105 | a new writer has emitted the file header and holds no text |
| VaultWriter.VaultWriter.WriteFrame | src/crypto/vault_stream.rs:126-153 | a frame is appended and the counter advanced iff its number is below 2^32 - 1 and its nonce fits; otherwise nothing changes |
| VaultWriter.VaultWriter.FillPending | src/crypto/vault_stream.rs:163-174 | topping up the buffer loses nothing, and an error means that the text has more full chunks than can be sealed |
| VaultWriter.VaultWriter.SendFullChunks | src/crypto/vault_stream.rs:176-180 | the loop over full chunks loses nothing and leaves less than a chunk |
| VaultWriter.VaultWriter.Write | src/crypto/vault_stream.rs:157-183 | frames ++ buffer is all text written, the buffer is shorter than 64 KiB, every frame is full; a write succeeds iff the full chunks of all text so far can be sealed, and a finished writer refuses |
| VaultWriter.VaultWriter.Finish | src/crypto/vault_stream.rs:107-118 | succeeds iff no write failed and the text fits, and then the sink is the image of the chunking of the text |
| VaultWriter.SealStream | src/crypto/vault_stream.rs:107-183 | for every list of writes: success and file depend only on seed, key and concatenation; success iff c = ceil(n / 65536) has c <= 2^32 - 2 and value(seed) + c < 2^96 |
| VaultReader.VaultReader.New | src/crypto/vault_stream.rs:205-227 | accepts iff the twenty header bytes are there and start with the magic, and is then about to deliver the file's text |
| VaultReader.VaultReader.ReadNextFrame | src/crypto/vault_stream.rs:237-294 | consumes one frame with the checks in the code's order and the same error for each failure |
| VaultReader.VaultReader.Read | src/crypto/vault_stream.rs:298-315 | for any buffer: bytes are served in order and without loss; for a nonempty buffer zero bytes mean iff the final frame and the end of input are verified, and an error comes only after every byte before it |
| VaultReader.VaultReader.VerifyFinished | src/crypto/vault_stream.rs:229-235 | succeeds iff the rest of the stream ends cleanly; after a drain the test of `finalized` never fails |
| VaultReader.ReadStream | src/crypto/vault_stream.rs:205-315 | for every list of buffer sizes, zero included: what is served is a prefix of the functional reader's text, all of it when a read fails, reads into nonempty buffers return zero from the clean end on and never before, and the verdict is the functional reader's |
| VaultLanguage.FrameIsRead | src/crypto/vault_stream.rs:126-153 | the reader takes back every frame the writer can emit at its number |
| VaultLanguage.ReadIsFrame | src/crypto/vault_stream.rs:237-294 | what the reader accepts as a frame is byte for byte the sealing of what it delivers |
| VaultLanguage.MisplacedFrameIsRefused | src/crypto/vault_stream.rs:246-248 | a frame at any place but its own is refused as out of order |
| VaultLanguage.ExactLanguage | src/crypto/vault_stream.rs:205-294 | a byte string is accepted iff it is header, data frames of at most 64 KiB numbered 0..k-1, an empty final frame numbered k, nothing more, with k < 2^32 - 1 and value(seed) + k < 2^96 |
| VaultLanguage.ImagesAreUnique | src/crypto/vault_stream.rs:237-294 | seed and frame list are determined by the bytes, and decoding finds them |
| VaultLanguage.NoTruncationNoExtension | src/crypto/vault_stream.rs:282-286 | no strict prefix of an accepted file is accepted, and an accepted file with anything appended delivers the same chunks and then fails with trailing data |
| VaultLanguage.FramesAreBounded | src/crypto/vault_stream.rs:237-294 | every accepted data frame consumes at least 25 bytes |
| VaultLanguage.SealedFileDecodes | src/crypto/vault_stream.rs:263-281 | the reader never refuses a file the writer finished, and its text is the text written |
| VaultLanguage.RoundTrip | src/crypto/vault_stream.rs:338-345 | for any writes and any read sizes: if sealing succeeds the reads return the text in order, then zero for ever, and verification succeeds |
| VaultAuthenticity.AcceptedFrameIsHonest | src/crypto/vault_stream.rs:237-294 | unless forged, an accepted frame is the frame with its number in the honest file with this seed |
| VaultAuthenticity.DeliversHonestChunks | src/crypto/vault_stream.rs:237-315 | from any frame on, the chunks delivered are the honest file's in order, no more than were sealed, and all of them, of a finished file, if the end is clean |
| VaultAuthenticity.Authentic | docs/THREAT_MODEL.md:27 | for every byte string, with any number of honest files, interrupted ones included: what is delivered before the first error is a prefix of the text of the file whose header it carries, no more frames than were sealed, and full acceptance means the input is that file, finished; so modification, reordering, truncation, extension and splicing are caught |
| VaultAuthenticity.HonestFilesAreUnforged | docs/THREAT_MODEL.md:27 | the assumption about forgeries holds of every finished file |
| VaultAuthenticity.InterruptedFilesAreUnforged | src/archive.rs:19-44 | and of what an interrupted seal leaves behind |
| VaultAuthenticity.ReadUntrusted | src/crypto/vault_stream.rs:348-383 | the running reader, on every input and with any buffers, approves iff it was given a finished honest file unchanged, and hands out only prefixes of honest text |
| Manifest.PushField | src/manifest.rs:101-108 | appends length and value, and fails iff the length exceeds 32 bits |
| Manifest.AssociatedData | src/manifest.rs:68-83 | yields the encoding iff all fields are encodable; the wrapped key has no part in it |
| Manifest.EncodingIsDecoded | src/manifest.rs:68-83 | a decoder recovers every field and what follows |
| Manifest.DecodedIsEncoding | src/manifest.rs:68-83 | whatever decodes is the encoding of what it decodes to |
| Manifest.AssociatedDataIsInjective | src/manifest.rs:68-83 | the encoding of one manifest begins with that of another iff they agree on version, id, user name, creation time, KDF block and vault format, and then nothing follows |
| Manifest.DirectoryIsPlain | src/manifest.rs:111-119 | an accepted name maps to one path component that is not dot-prefixed, so staging directories can never be addressed |
| Manifest.SharedDirectory | src/store.rs:250-252 | two names share a directory iff they are equal up to ASCII case |
| KeyWrap.UnwrapIsExact | src/crypto/key_wrap.rs:51-92 | unwrapping yields a key iff the three fields decode to a nonce and the two parts of the sealing of that very key |
| KeyWrap.WrapThenUnwrap | src/crypto/key_wrap.rs:17-49 | wrapping never fails and is undone under the same key and associated data |
| KeyWrap.RewrapAuthenticates | src/store.rs:170-174 | after rewrapping, the new password recovers the same data key and nothing but KDF block and wrapped key has changed |
| KeyWrap.RotateSucceedsIff | src/store.rs:162-173 | the new manifest can be computed iff the current password authenticates, Argon2id takes the new one and the new salt text is encodable |
| KeyWrap.RotationChain | src/store.rs:156-175 | after any number of rotations the newest password recovers the original data key |
| KeyWrap.SamePasswordStillOpens | src/store.rs:144-180 | nothing compares the new password with the current one: a rotation to the same password succeeds under the usual condition and the password goes on opening the same key |
| KeyWrap.WrappingBindsHeader | docs/THREAT_MODEL.md:44 | unless forged, a manifest that authenticates agrees with an honestly wrapped one on every authenticated field, the password derives the key that one was wrapped under, and its data key comes out |
| KeyWrap.RewrapIsHonest | src/crypto/key_wrap.rs:17-49 | every manifest the code wraps holds the data key under the key its password derives |
| KeyWrap.HonestWrapIsLogged | src/crypto/key_wrap.rs:17-49 | the assumption about forgeries holds of every manifest the code has wrapped |
| Archive.UnpackRestoresAll | src/archive.rs:56-70 | extracting any listing of a tree succeeds iff no file or directory sits in a directory its owner may not create entries in, and then restores exactly the regular files and directories |
| Archive.RestorableIsFixpoint | src/archive.rs:59-64 | what can be restored of a tree is a tree that restores to itself, and it can be extracted iff the tree can |
| Archive.SealEntries | src/archive.rs:27-32 | streaming the archive in any pieces succeeds iff the archive writer takes the entries and their archive fits, with a file determined by the archive |
| Archive.PullArchive | src/archive.rs:53-57 | the parser pulling blocks through the reader sees the file's text, and no error of the stream is lost |
| Archive.ExtractEntries | src/archive.rs:56-70 | the loop over the entries is the fold of placing one entry, and stops at the first failure |
| Archive.UnsealDirectory | src/archive.rs:46-74 | succeeds iff the whole file is accepted, the archive is well formed and every entry can be placed, even where the parser stopped early |
| Archive.SealThenUnseal | src/archive.rs:19-74 | for every tree that could be sealed: unsealing succeeds iff the tree can be extracted, and restores exactly its regular files and directories |
| SealedTrees.AuthenticTree | docs/THREAT_MODEL.md:27 | with any number of trees sealed under one key, some only in part, and unless frames are forged: a byte string opens iff it is byte for byte one of the finished files and its tree can be extracted, and then to exactly the files and directories of that tree |
| StoreTampering.TamperedStateIsNoticed | docs/THREAT_MODEL.md:27 | after any run, whatever is put in place of a state file opens under a key iff it is byte for byte a state file sealed under that key in the run, and then to its tree: only an older state can come back |
| StoreTampering.AllSealedHonestly | src/archive.rs:19-44 | every state file that a run seals under a key is the sealing of a listing of a tree |
| StoreSteps.NewManifestOk | src/store.rs:91-100 | the manifest of a new profile unwraps under its password to its data key |
| StoreSteps.SealedStateOk | src/archive.rs:19-44 | a freshly sealed state file opens to the restorable part of its tree |
| StoreSteps.PublishAddsName | src/store.rs:103-105 | as rename refuses a directory that is not empty, publishing adds a name and never replaces a profile |
| StoreSteps.EveryEventKeepsInv | src/store.rs:75-289 | every event of every process, failures and deaths included, keeps the disk coupled to the abstract vault |
| StoreTheorems.EveryRunKeepsInv | src/store.rs:75-289 | so does every run |
| StoreTheorems.VaultHoldsLastSealed | src/archive.rs:36 | the recorded tree of a profile is the one it was last sealed from, empty after creation |
| StoreTheorems.UnlockShowsLastSealed | src/store.rs:188-244 | over every interleaving, a successful unlock shows exactly the restorable tree last sealed for that profile |
| StoreTheorems.KeyAndStateAgree | src/store.rs:322-337 | in every reachable state each visible directory holds a complete manifest that unwraps under the current password to the key its complete state file is sealed with, and that file opens to the last sealed tree iff that tree can be extracted |
| StoreRenames.OnlyRenamesChangeProfiles | src/store.rs:322-337 | a published profile never disappears, and its manifest and its state file change only by the rename of the process that holds its lock |
| StoreRenames.OnlyRenamesChangeVault | src/store.rs:156-175 | nothing done on one profile changes password or tree of another |
| StoreTheorems.KeyAndStateStay | src/store.rs:144-180 | over any stretch of a run a profile keeps its data key, and unless a session of it is closed in between state.cvlt is byte-identical, through any rotations, crashes and failures |
| StoreWraps.EveryEventKeepsMade | src/store.rs:96-98 | every event keeps it true that the manifest of a published profile was wrapped by a process for the profile's current password |
| StoreWraps.FairIsGenuine | src/store.rs:188-206 | a password that gets through derives the wrapping key of the current one |
| StoreAccess.PasswordUnlocksIff | src/store.rs:188-206 | with the lock in hand a password unlocks iff the profile was not created at second 0 and the password derives the same wrapping key as the current one, so after a rotation the old one is refused unless it does |
| StoreLocks.EveryEventKeepsOrder | src/store.rs:188-289 | every event keeps the lock table naming exactly the processes that hold locks, and every process's runtime directory its own and no leftover |
| StoreTheorems.MutualExclusion | src/store.rs:368-394 | at most one process holds a profile's lock and at most one has a runtime directory, in any history, whatever is forged |
| StoreTheorems.LiveRuntimeHasOwner | src/store.rs:212-236 | a runtime directory that is no leftover has an owner, which holds the lock of the profile it is named after |
| StoreAccess.RuntimeIsFreeIff | src/store.rs:212-223 | in any run, a process with the lock and the key can create its runtime directory iff nothing is left over at that path |
| StoreAccess.NoLeftoverRuntime | src/store.rs:212-223 | in particular it never meets a leftover in a run without crashes, failed cleanups and outsiders |
| StoreAccess.DeathLeavesRuntime | src/store.rs:212-223 | a process that dies with a runtime directory gives its lock back and leaves the directory over |
| StoreAccess.LeftoverRefusesUnlock | src/store.rs:212-223 | from then on, until the leftover is cleared away, nobody can create that runtime directory |
| StoreTheorems.AtMostOnePublishes | src/store.rs:80-110 | of any two publications in a run the names differ by more than case |
| StoreTheorems.ListedUsersArePublished | src/store.rs:118-133 | exactly the published profiles with a nonzero creation time are listed, staging directories never |
| StoreAccess.OwnerGetsInIff | src/store.rs:188-244 | in any run, whoever holds the lock and knows the current password gets to the profile's tree iff the profile was not created at second 0, nothing is left over where its runtime directory goes, and the tree can be extracted |
| StoreReopening.EveryEventKeepsReopening | src/store.rs:282-289 | every event keeps it true that a profile whose last close went through holds a tree that can be extracted, and that between reseal and removal the recorded tree is what can be restored of the closer's runtime directory |
| StoreReopening.ClosedIsRefillable | src/store.rs:275-289 | in any run, a profile that was never closed or whose last close went through holds a tree that can be extracted |
| StoreReopening.ClosedProfileReopens | src/store.rs:188-289 | a close in order can be undone: with lock and current password such a profile opens to its tree iff it was not created at second 0 and nothing is left over where its runtime directory goes |
| StoreReopening.UntroubledOwnerGetsIn | src/store.rs:188-244 | in a run without deaths, failed removals and planted directories, whoever has lock and current password gets in, under any runtime root, iff the profile was not created at second 0 |
| StoreReopening.LeavingIsInOrder | src/store.rs:282-289 | a session that has resealed, removed its runtime directory and then released its lock has ended in a close in order, whatever others do meanwhile |
| StoreAccess.RotationStartsIff | src/store.rs:156-173 | with the lock in hand a rotation gets as far as its new manifest iff the profile was not created at second 0, the password given derives the current wrapping key, Argon2id takes the new one and the new salt text is encodable |
| StoreOwners.RotationCanBeFinished | src/store.rs:170-179 | from there it can be carried through to its rename, and the profile has the new password |
| StoreOwners.SessionCanBeSealed | src/store.rs:282-289 | an open session can be resealed, given a listing the archive writer takes and a seed with room for it |
| StoreTheorems.FailedUnlockIsClean | src/store.rs:194-243 | no step of an unlock changes a file of any profile or a runtime path it does not own; a process that is done holds no lock, and the step that gives its runtime directory up removes it unless that is a death or a failed removal |
| StoreHistory.StandingIsSpared | src/store.rs:212-223 | in any history, a process changes and removes only runtime directories that it has itself created where nothing was |
| StoreHistory.NothingIsLeft | src/store.rs:239-243 | a process that ends without a runtime directory, and had no failed removal and no death, has removed every one it created |
| StoreHistory.RecordStaysWhileHeld | src/archive.rs:36-43 | while a process holds a lock and renames nothing, nobody changes the record of the profile |
| StoreHistory.OpenCloseIsIdentity | src/store.rs:282-289 | a session that is opened, not edited and closed again leaves the record of the profile exactly as it was, whatever others do meanwhile |
| StoreHistory.ReadingSparesEntries | src/store.rs:188-244 | a process that writes no file of its own changes nothing below the users root, on any step |
| StoreIsolation.OthersDisturbNobody | src/store.rs:368-394 | no event of anybody else changes where a process stands, the files and record of the profile it has locked, or the runtime directory it created |
| StoreProgress.ProfileCanBeCreated | src/store.rs:75-111 | from every reachable state in which the name is free the profile can be created, and only that profile is added |
| StoreWitnesses.UnlistedProfileExists | src/store.rs:118-133 | there is a run after which a published profile is not listed |
| StoreWitnesses.FreeLockMayBeOfNoUse | src/store.rs:212-223 | there is a run, without interference from outside and with no other death, in which a process with a session dies and the next owner, with lock and key, cannot create the runtime directory |
| StoreWitnesses.OldPasswordMayOpen | src/store.rs:144-180 | there is a run in which a rotation replaces a password by another and the old one still opens the profile |
| StoreWitnesses.ResealedProfileMayNotReopen | src/store.rs:282-289 | there is a run, without deaths and interference from outside, in which a close replaces the state and fails to remove the runtime directory, and the next owner, with lock, key and a free runtime path, cannot open the profile |
| StoreOperations.VaultStore.Act | src/store.rs:75-289 | a step taken after arbitrary events of others acts on a state in which the process is undisturbed |
| StoreOperations.VaultStore.AddUser | src/store.rs:75-111 | success is reported iff the profile was published, with the given password, the drawn key and an empty tree; bad names and short passwords change nothing; an existing name is reported only if there is one; after any other failure the staging directory is gone unless its removal failed |
| StoreOperations.VaultStore.Enter | src/store.rs:150-168 | success leaves the process authenticated and entered in the lock table; failure leaves it idle with the lock, if it had it, given back last and nothing renamed |
| StoreOperations.VaultStore.RotatePassword | src/store.rs:144-180 | success means that the new password counts; a failure has made at most one rename, and with it the new password counts too; without it the record of the profile is, as the lock is given back, what it was as the lock was taken |
| StoreOperations.VaultStore.ReplaceManifestFile | src/store.rs:322-337 | the manifest is replaced by one rename of a complete file, or not at all |
| StoreOperations.VaultStore.Unlock | src/store.rs:188-244 | success leaves a session whose runtime directory shows the last sealed tree; failure leaves no lock and, unless its removal failed, no runtime directory made in the call; no step of either changes anything below the users root or a runtime directory that was there |
| StoreOperations.VaultStore.Close | src/store.rs:282-289 | the lock is released in every case and the runtime directory removed unless the removal fails, as it must if something in it sits in a directory that does not let it go; success iff state was resealed and the directory removed, and then the recorded tree can be extracted again and the last close is in order; a reseal records what can be restored of the session's tree, and without one the record of the profile is unchanged |
| LibraryLaws.LibrariesHaveAModel | docs/THREAT_MODEL.md:42-46 | the laws assumed of AES-GCM, Argon2id, Base64, UUID parsing and tar are consistent |

## Left out

- AES-256-GCM, Argon2id, Base64, UUID parsing, tar and JSON themselves: parameters with laws. JSON round trips and the manifest's 64 KiB size limit are not modelled; a manifest on disk is a value.
- Randomness and the clock: inputs. UUIDs, profile ids, salts and temporary names are assumed fresh where the code draws them at random.
- VaultWriter.VaultWriter.Write: does not model a sink that fails, or `flush`; its three phases appear as three methods.
- VaultReader.VaultReader.Read: the input is a byte string, so I/O errors of the inner reader are not modelled, and consumers stop at the first error, as the code's callers do; what a read after an error returns is not stated.
- VaultWriter.VaultWriter.WriteFrame: likewise writes to a sink that takes everything.
- Modes and times: of the mode bits only whether the owner of a directory may create and remove entries in it is modelled, and that the process is bound by it, as root would not be; the mode of the tree's own root is not modelled.
- Archive.UnsealDirectory: the entries are parsed first and then placed, while the code alternates; the tree it fails with is not stated. Placing an entry below the destination follows the contract of tar's `unpack_in`; files written through links cannot arise because links are never extracted.
- StoreOperations.VaultStore.Act: an event is one file-system action; a system call that fails leaves its event out, which the schedule of a method decides.
- StoreOperations.VaultStore.AddUser: I/O errors are not told apart, and `initialize` creating the store's own directories is not modelled.
- Damage from outside in the middle of a run: no event changes a manifest or a state file from outside. What the code makes of a damaged file is stated for one file: `Authentic`, `AuthenticTree` and, after any run, `TamperedStateIsNoticed` for state files (docs/THREAT_MODEL.md:27), `WrappingBindsHeader` for manifests.
- Rollback to an older valid vault, deletion, and processes of the same Unix account that ignore the lock: out of scope in docs/THREAT_MODEL.md:33-38.
- Permission bits, ownership and symlink checks of `src/config.rs`: guards that may fail.
- fsync and power loss: a crash is the death of a process, and renames are atomic.
- Zeroization of keys and passwords in memory.
- `src/daemon.rs`, `src/daemon_protocol.rs`, `src/runner.rs` and the command lines: socket handling, message framing, process spawning and prompts; a session is modelled as arbitrary edits of its runtime directory followed by close.
