/** The invariant that couples the store on disk with the abstract vault, and what a step of one process
    cannot break for the others. */
module StoreInvariant {
  import opened Wrappers
  import opened Bytes
  import opened Cipher
  import opened Libraries
  import opened Trees
  import opened Manifest
  import opened KeyWrap
  import opened Archive
  import opened StoreModel

  // ------------------------------------------------- what files mean

  /** A complete manifest of profile `name`: valid but for a clock that read zero, with a canonical id,
      and holding `key` under `password`, which is long enough. */
  ghost predicate ManifestOk(lib: Lib, name: bytes, m: UserManifest, password: bytes, key: Key) {
    && IsValidUsername(m.username) && UserDirectory(m.username) == name
    && lib.parseUuid(m.id) == Some(m.id)
    && (Validates(lib, m) <==> m.createdAt != 0)
    && Authenticate(lib, m, password) == Some(key)
    && |password| >= PASSWORD_MINIMUM
  }

  /** A state file opens to the tree, if that tree can be extracted at all. */
  ghost predicate StateOk(lib: Lib, file: bytes, key: Key, tree: Tree) {
    Unseal(lib, key, file) == (if Refillable(tree) then Some(tree) else None) && WellFormedTree(tree)
  }

  /** A published directory holds a complete manifest and a complete state file that agree. */
  ghost predicate ProfileOk(lib: Lib, name: bytes, d: UserDir, profile: Profile) {
    && HasManifest(d) && HasState(d)
    && ManifestOk(lib, name, ManifestIn(d), profile.password, profile.key)
    && StateOk(lib, StateIn(d), profile.key, profile.tree)
  }

  ghost predicate StateTempOk(lib: Lib, d: UserDir, temp: bytes, key: Key, tree: Tree) {
    && temp in d.temps && d.temps[temp].StateTemp?
    && (d.temps[temp].state.Whole? ==> StateOk(lib, d.temps[temp].state.value, key, tree))
  }

  ghost predicate StagedOk(lib: Lib, d: UserDir, proc: Proc)
    requires proc.AddStaged?
  {
    && (proc.dataKey.None? ==> !HasManifest(d) && d.state.None? && proc.temp.None?)
    && (proc.dataKey.Some? ==>
          var key := proc.dataKey.value;
          && HasManifest(d) && ManifestOk(lib, UserDirectory(proc.user), ManifestIn(d), proc.password, key)
          && (d.state.Some? ==> HasState(d) && StateOk(lib, StateIn(d), key, map[]))
          && (proc.temp.Some? ==> StateTempOk(lib, d, proc.temp.value, key, map[])))
  }

  // ------------------------------------------------- what processes hold

  predicate HoldsLock(s: State, a: Vault, p: Pid, name: bytes) {
    name in a && name in s.entries && name in s.locks && s.locks[name] == p
  }

  predicate IsIdOf(s: State, name: bytes, id: bytes) {
    name in s.entries && HasManifest(s.entries[name]) && ManifestIn(s.entries[name]).id == id
  }

  predicate OwnsRuntime(s: State, name: bytes, path: RuntimePath) {
    path in s.runtimes && path !in s.orphans && IsIdOf(s, name, path.id)
  }

  /** Locks, runtime directories and staging directories are really held. */
  ghost predicate Holds(s: State, a: Vault, p: Pid) {
    var proc := Of(s, p);
    && (HeldBy(proc).Some? ==> HoldsLock(s, a, p, HeldBy(proc).value))
    && (RuntimeOf(proc).Some? ==> OwnsRuntime(s, HeldBy(proc).value, RuntimeOf(proc).value))
    && (StageOf(proc).Some? ==> Hidden(StageOf(proc).value) && StageOf(proc).value in s.entries)
    && (proc.Waiting? ==> proc.name in a)
  }

  /** What a process has in memory fits the directory it works on, the profile it serves and the
      runtime tree it has open. */
  ghost predicate Knows(lib: Lib, proc: Proc, d: UserDir, profile: Option<Profile>, tree: Option<Tree>) {
    match proc
    case AddReady(user, password) => IsValidUsername(user) && |password| >= PASSWORD_MINIMUM
    case AddStaged(user, password, _, _, _) =>
      IsValidUsername(user) && |password| >= PASSWORD_MINIMUM && StagedOk(lib, d, proc)
    case Waiting(name, user, job) => name == UserDirectory(user) && JobAllowed(job)
    case Locked(name, user, job) => name == UserDirectory(user) && JobAllowed(job)
    case Rotating(name, m, password, temp) =>
      && HasManifest(d) && ManifestIn(d).id == m.id
      && profile.Some? && ManifestOk(lib, name, m, password, profile.value.key)
      && (temp.Some? ==>
            temp.value in d.temps && d.temps[temp.value] in {ManifestTemp(Partial), ManifestTemp(Whole(m))})
    case Keyed(_, key, id) => profile.Some? && key == profile.value.key && HasManifest(d) && ManifestIn(d).id == id
    case Extracting(_, key, _) => profile.Some? && key == profile.value.key
    case Session(_, key, _) => profile.Some? && key == profile.value.key && tree.Some? && WellFormedTree(tree.value)
    case Sealing(_, key, _, temp, sealing) =>
      && profile.Some? && key == profile.value.key && WellFormedTree(sealing)
      && (temp.Some? ==> StateTempOk(lib, d, temp.value, key, Restorable(sealing)))
    case _ => true
  }

  function DirAt(s: State, proc: Proc): UserDir {
    if HeldBy(proc).Some? && HeldBy(proc).value in s.entries then s.entries[HeldBy(proc).value]
    else if StageOf(proc).Some? && StageOf(proc).value in s.entries then s.entries[StageOf(proc).value]
    else EMPTY_DIR
  }

  function ProfileAt(a: Vault, proc: Proc): Option<Profile> {
    if HeldBy(proc).Some? && HeldBy(proc).value in a then Some(a[HeldBy(proc).value]) else None
  }

  function TreeAt(s: State, proc: Proc): Option<Tree> {
    if RuntimeOf(proc).Some? && RuntimeOf(proc).value in s.runtimes then Some(s.runtimes[RuntimeOf(proc).value])
        else None
  }

  ghost predicate ProcOk(lib: Lib, s: State, a: Vault, p: Pid) {
    Holds(s, a, p) && Knows(lib, Of(s, p), DirAt(s, Of(s, p)), ProfileAt(a, Of(s, p)), TreeAt(s, Of(s, p)))
  }

  // ------------------------------------------------------- the invariant

  /** The visible directories are exactly the profiles of the vault, and each is complete. */
  ghost predicate VaultOk(lib: Lib, s: State, a: Vault) {
    && (forall n :: n in s.entries && !Hidden(n) ==> n in a)
    && (forall n :: n in a ==> n in s.entries && !Hidden(n) && ProfileOk(lib, n, s.entries[n], a[n]))
  }

  ghost predicate ProcsOk(lib: Lib, s: State, a: Vault) {
    forall p :: ProcOk(lib, s, a, p)
  }

  ghost predicate LocksOk(s: State) {
    forall n :: n in s.locks ==> HeldBy(Of(s, s.locks[n])) == Some(n)
  }

  ghost predicate Owned(s: State, path: RuntimePath) {
    exists p :: RuntimeOf(Of(s, p)) == Some(path)
  }

  ghost predicate RuntimesOk(s: State) {
    && s.orphans <= s.runtimes.Keys
    && forall path :: path in s.runtimes && path !in s.orphans ==> Owned(s, path)
  }

  ghost predicate IdsOk(s: State) {
    forall m, n, id :: IsIdOf(s, m, id) && IsIdOf(s, n, id) ==> m == n
  }

  ghost predicate StagesOk(s: State) {
    forall p, q :: StageOf(Of(s, p)).Some? && StageOf(Of(s, p)) == StageOf(Of(s, q)) ==> p == q
  }

  ghost predicate Inv(lib: Lib, s: State, a: Vault) {
    VaultOk(lib, s, a) && ProcsOk(lib, s, a) && LocksOk(s) && RuntimesOk(s) && IdsOk(s) && StagesOk(s)
  }

  // -------------------------------------------------------------- framing

  /** Process `p` may touch these entries: the one it locks and the one it stages. */
  predicate Mine(s: State, p: Pid, n: bytes) {
    HeldBy(Of(s, p)) == Some(n) || StageOf(Of(s, p)) == Some(n)
  }

  /** A step of `p` that leaves alone whatever belongs to others. */
  ghost predicate Local(s: State, a: Vault, s2: State, a2: Vault, p: Pid) {
    && (forall q :: q != p ==> Of(s2, q) == Of(s, q))
    && (forall n :: n in s.entries && !Mine(s, p, n) ==> n in s2.entries && s2.entries[n] == s.entries[n])
    && (forall n :: n in a ==> n in a2)
    && (forall n :: n in a && !Mine(s, p, n) ==> a2[n] == a[n])
    && (forall n :: n in s.locks && s.locks[n] != p ==> n in s2.locks && s2.locks[n] == s.locks[n])
    && (forall path :: path in s.runtimes && path !in s.orphans && RuntimeOf(Of(s, p)) != Some(path) ==>
          path in s2.runtimes && path !in s2.orphans && s2.runtimes[path] == s.runtimes[path])
  }

  /** What one process holds, no other holds. */
  lemma NothingIsShared(lib: Lib, s: State, a: Vault, p: Pid, q: Pid)
    requires Inv(lib, s, a) && p != q
    ensures HeldBy(Of(s, p)).Some? ==> HeldBy(Of(s, p)) != HeldBy(Of(s, q))
    ensures StageOf(Of(s, p)).Some? ==> StageOf(Of(s, p)) != StageOf(Of(s, q))
    ensures RuntimeOf(Of(s, p)).Some? ==> RuntimeOf(Of(s, p)) != RuntimeOf(Of(s, q))
    ensures HeldBy(Of(s, p)).Some? ==> HeldBy(Of(s, p)) != StageOf(Of(s, q))
  {
    hide Knows, ProfileOk, LocksOk, RuntimesOk, DirAt, ProfileAt, TreeAt;
    assert ProcOk(lib, s, a, p) && ProcOk(lib, s, a, q);
  }

  /** A local step keeps every other process in order. */
  lemma OtherIsKept(lib: Lib, s: State, a: Vault, s2: State, a2: Vault, p: Pid, q: Pid)
    requires Inv(lib, s, a) && Local(s, a, s2, a2, p) && q != p
    ensures ProcOk(lib, s2, a2, q)
  {
    hide Knows, VaultOk, LocksOk, RuntimesOk, IdsOk, StagesOk, Hidden, HasManifest, ManifestIn;
    NothingIsShared(lib, s, a, q, p);
    NothingIsShared(lib, s, a, p, q);
    assert ProcOk(lib, s, a, q);
  }
}
