/** The profile store as a transition system. Any number of processes add users, rotate passwords and
    unlock profiles; one event is one file-system action of one process, and events of different
    processes interleave freely. A process may fail or die between any two of its actions. */
module StoreModel {
  import opened Wrappers
  import opened Bytes
  import opened Cipher
  import opened Libraries
  import opened Trees
  import opened Manifest
  import opened KeyWrap
  import opened Archive

  // ------------------------------------------------------- what is on disk

  /** A file being written, or a complete one. */
  datatype Content<T> = Partial | Whole(value: T)

  datatype Temp = ManifestTemp(manifest: Content<UserManifest>) | StateTemp(state: Content<bytes>)

  /** A directory below the users root: manifest.json, state.cvlt and temporaries by name. */
  datatype UserDir = UserDir(
    manifest: Option<Content<UserManifest>>,
    state: Option<Content<bytes>>,
    temps: map<bytes, Temp>)

  const EMPTY_DIR := UserDir(None, None, map[])

  /** A runtime directory is named by its root and the canonical text of the profile's UUID. */
  datatype RuntimePath = RuntimePath(root: bytes, id: bytes)

  type Pid = nat

  datatype Job =
    | Unlock(password: bytes)
    | ChangePassword(currentPassword: bytes, rotation: Rotation)

  /** Where a process stands in its current operation, and what it holds in memory. */
  datatype Proc =
    | Idle
    | AddReady(user: bytes, password: bytes)
    | AddStaged(user: bytes, password: bytes, stage: bytes, dataKey: Option<Key>, temp: Option<bytes>)
    | Waiting(name: bytes, user: bytes, job: Job)
    | Locked(name: bytes, user: bytes, job: Job)
    | Rotating(name: bytes, manifest: UserManifest, newPassword: bytes, temp: Option<bytes>)
    | Keyed(name: bytes, key: Key, id: bytes)
    | Extracting(name: bytes, key: Key, path: RuntimePath)
    | Session(name: bytes, key: Key, path: RuntimePath)
    | Sealing(name: bytes, key: Key, path: RuntimePath, temp: Option<bytes>, tree: Tree)
    | Cleaning(name: bytes, path: RuntimePath)
    | Releasing(name: bytes)

  /** `orphans` records the runtime directories no live process will remove: left by a crash or a failed
      cleanup, or put there from outside. No process consults it. */
  datatype State = State(
    entries: map<bytes, UserDir>,
    locks: map<bytes, Pid>,
    runtimes: map<RuntimePath, Tree>,
    orphans: set<RuntimePath>,
    procs: map<Pid, Proc>)

  const INIT := State(map[], map[], map[], {}, map[])

  function Of(s: State, p: Pid): Proc {
    if p in s.procs then s.procs[p] else Idle
  }

  function Become(s: State, p: Pid, proc: Proc): State {
    s.(procs := s.procs[p := proc])
  }

  function Put(s: State, name: bytes, d: UserDir): State {
    s.(entries := s.entries[name := d])
  }

  function WithTemp(d: UserDir, temp: bytes, t: Temp): UserDir {
    d.(temps := d.temps[temp := t])
  }

  predicate HasStateTemp(d: UserDir, temp: Option<bytes>) {
    temp.Some? && temp.value in d.temps && d.temps[temp.value].StateTemp? && d.temps[temp.value].state.Whole?
  }

  predicate HasManifestTemp(d: UserDir, temp: Option<bytes>) {
    temp.Some? && temp.value in d.temps && d.temps[temp.value].ManifestTemp? && d.temps[temp.value].manifest.Whole?
  }

  /** Renaming a complete temporary over state.cvlt, or over manifest.json. */
  function StateRenamed(d: UserDir, temp: bytes): UserDir
    requires HasStateTemp(d, Some(temp))
  {
    d.(state := Some(d.temps[temp].state), temps := d.temps - {temp})
  }

  function ManifestRenamed(d: UserDir, temp: bytes): UserDir
    requires HasManifestTemp(d, Some(temp))
  {
    d.(manifest := Some(d.temps[temp].manifest), temps := d.temps - {temp})
  }

  function Staged(proc: Proc, dataKey: Option<Key>, temp: Option<bytes>): Proc
    requires proc.AddStaged?
  {
    AddStaged(proc.user, proc.password, proc.stage, dataKey, temp)
  }

  /** The lock a process holds, the runtime directory it must remove, the directory it is staging. */
  function HeldBy(proc: Proc): Option<bytes> {
    if proc.Idle? || proc.AddReady? || proc.AddStaged? || proc.Waiting? then None else Some(proc.name)
  }

  function RuntimeOf(proc: Proc): Option<RuntimePath> {
    if proc.Extracting? || proc.Session? || proc.Sealing? || proc.Cleaning? then Some(proc.path) else None
  }

  function StageOf(proc: Proc): Option<bytes> {
    if proc.AddStaged? then Some(proc.stage) else None
  }

  // -------------------------------------------------------------- manifests

  predicate Validates(lib: Lib, m: UserManifest) {
    && m.version == MANIFEST_VERSION
    && lib.parseUuid(m.id).Some?
    && IsValidUsername(m.username)
    && m.createdAt != 0
    && m.vaultFormat == VAULT_FORMAT
    && m.wrappedDataKey.algorithm == WRAP_ALGORITHM
  }

  function NewHeader(lib: Lib, user: bytes, id: bytes, createdAt: u64, salt: Salt): UserManifest {
    UserManifest(MANIFEST_VERSION, id, user, createdAt, DefaultKdf(lib, salt),
                 WrappedKey(WRAP_ALGORITHM, [], [], []), VAULT_FORMAT)
  }

  predicate HasManifest(d: UserDir) {
    d.manifest.Some? && d.manifest.value.Whole?
  }

  function ManifestIn(d: UserDir): UserManifest
    requires HasManifest(d)
  {
    d.manifest.value.value
  }

  predicate HasState(d: UserDir) {
    d.state.Some? && d.state.value.Whole?
  }

  function StateIn(d: UserDir): bytes
    requires HasState(d)
  {
    d.state.value.value
  }

  const PASSWORD_MINIMUM := 12

  const STAGING_PREFIX := Ascii(".creating-")

  predicate Hidden(name: bytes) {
    name != [] && name[0] == DOT
  }

  /** The names `list_users` reports: readable manifests in directories that are not hidden. */
  function ListUsers(lib: Lib, s: State): set<bytes> {
    set n | n in s.entries && !Hidden(n) && HasManifest(s.entries[n]) && Validates(lib, ManifestIn(s.entries[n]))
      :: ManifestIn(s.entries[n]).username
  }

  // ----------------------------------------------------------------- events

  /** What a process does in one step. Random draws and clock readings appear as parameters. */
  datatype Action =
    // add_user
    | StartAdd(user: bytes, password: bytes)
    | Stage(uuid: bytes)
    | BeginManifest
    | FinishManifest(newKey: Key, salt: Salt, iv: Nonce, id: bytes, createdAt: u64)
    | BeginState(temp: bytes)
    | FinishState(seed: Nonce, listing: seq<Entry>)
    | PlaceState
    | Publish
    | AbandonAdd(left: Option<UserDir>)
    // unlock and rotate_password
    | Ask(user: bytes, job: Job)
    | TakeLock
    | Refused
    | Authenticated
    // rotate_password
    | BeginRotation(temp: bytes)
    | FinishRotation
    | ReplaceManifest
    // unlock
    | MakeRuntime(root: bytes)
    | ExtractPart(part: Tree)
    | Opened
    // the session and close
    | Edit(edited: Tree)
    | StartClose
    | BeginSeal(temp: bytes)
    | FinishSeal(seed: Nonce, listing: seq<Entry>)
    | ReplaceState
    // errors, cleanup and death
    | GiveUp(tempRemoved: bool)
    | CleanUp(removed: bool, rest: Tree)
    | Release
    | Crash

  /** A process acts, or somebody outside puts a directory into a runtime root or clears one away. */
  datatype Event =
    | By(p: Pid, act: Action)
    | Plant(path: RuntimePath, planted: Tree)
    | Sweep(path: RuntimePath)

  // ------------------------------------------------------------- add_user

  /** The random draws of a creation, and its clock reading. */
  datatype Draws = Draws(
    uuid: bytes, newKey: Key, salt: Salt, iv: Nonce, id: bytes, createdAt: u64, temp: bytes, seed: Nonce)

  predicate FreshId(s: State, id: bytes) {
    forall n :: n in s.entries && HasManifest(s.entries[n]) ==> ManifestIn(s.entries[n]).id != id
  }

  /** What a possibly incomplete removal of a directory may leave. */
  predicate Remains(left: UserDir, d: UserDir) {
    && (left.manifest == d.manifest || left.manifest.None?)
    && (left.state == d.state || left.state.None?)
    && left.temps.Keys <= d.temps.Keys
  }

  function NextAdd(s: State, p: Pid, act: Action): Option<State> {
    match act
    case StartAdd(user, password) =>
      if Of(s, p).Idle? && IsValidUsername(user) && |password| >= PASSWORD_MINIMUM && UserDirectory(user) !in s.entries
      then Some(Become(s, p, AddReady(user, password))) else None
    case Stage(uuid) =>
      var proc, stage := Of(s, p), STAGING_PREFIX + uuid;
      if proc.AddReady? && stage !in s.entries
      then Some(Put(Become(s, p, AddStaged(proc.user, proc.password, stage, None, None)), stage, EMPTY_DIR))
      else None
    case AbandonAdd(left) =>
      var proc := Of(s, p);
      if proc.AddReady? && left.None? then Some(Become(s, p, Idle))
      else if proc.AddStaged? && proc.stage in s.entries && (left.Some? ==> Remains(left.value, s.entries[proc.stage]))
      then Some(Become(s, p, Idle).(entries :=
                  if left.Some? then s.entries[proc.stage := left.value] else s.entries - {proc.stage}))
      else None
    case _ => None
  }

  predicate IsStaged(act: Action) {
    act.BeginManifest? || act.FinishManifest? || act.BeginState? || act.FinishState? || act.PlaceState? || act.Publish?
  }

  function NextStaged(lib: Lib, s: State, p: Pid, act: Action): Option<State>
    requires IsStaged(act)
  {
    var proc := Of(s, p);
    if !proc.AddStaged? || proc.stage !in s.entries then None else
    var d := s.entries[proc.stage];
    match act
    case BeginManifest =>
      if d.manifest.None?
      then Some(Put(s, proc.stage, d.(manifest := Some(Partial)))) else None
    case FinishManifest(newKey, salt, iv, id, createdAt) =>
      if d.manifest == Some(Partial) && proc.dataKey.None? && lib.parseUuid(id) == Some(id) && FreshId(s, id) then
        var m :- Rewrap(lib, NewHeader(lib, proc.user, id, createdAt, salt), newKey, proc.password, salt, iv);
        Some(Put(Become(s, p, Staged(proc, Some(newKey), None)), proc.stage, d.(manifest := Some(Whole(m)))))
      else None
    case BeginState(temp) =>
      if proc.dataKey.Some? && proc.temp.None? && d.state.None? && temp !in d.temps
      then Some(Put(Become(s, p, Staged(proc, proc.dataKey, Some(temp))), proc.stage,
          WithTemp(d, temp, StateTemp(Partial))))
      else None
    case FinishState(seed, listing) =>
      if proc.dataKey.Some? && proc.temp.Some? && Lists(listing, map[]) && CanSeal(lib, seed, listing) then
        var file := SealedFile(lib, proc.dataKey.value, seed, listing);
        Some(Put(s, proc.stage, WithTemp(d, proc.temp.value, StateTemp(Whole(file)))))
      else None
    case PlaceState =>
      if HasStateTemp(d, proc.temp)
      then Some(Put(Become(s, p, Staged(proc, proc.dataKey, None)), proc.stage, StateRenamed(d, proc.temp.value)))
      else None
    case Publish =>
      var target := UserDirectory(proc.user);
      if d.state.Some? && (target in s.entries ==> s.entries[target] == EMPTY_DIR)
      then Some(Become(s, p, Idle).(entries := (s.entries - {proc.stage})[target := d]))
      else None
  }

  // --------------------------------------------- lock, authenticate, rotate

  predicate JobAllowed(job: Job) {
    job.ChangePassword? ==> |job.rotation.newPassword| >= PASSWORD_MINIMUM
  }

  function JobPassword(job: Job): bytes {
    if job.Unlock? then job.password else job.currentPassword
  }

  function NextLock(lib: Lib, s: State, p: Pid, act: Action): Option<State> {
    match act
    case Ask(user, job) =>
      if Of(s, p).Idle? && IsValidUsername(user) && JobAllowed(job) && UserDirectory(user) in s.entries
      then Some(Become(s, p, Waiting(UserDirectory(user), user, job))) else None
    case TakeLock =>
      var proc := Of(s, p);
      if proc.Waiting? && proc.name !in s.locks
      then Some(Become(s, p, Locked(proc.name, proc.user, proc.job)).(locks := s.locks[proc.name := p])) else None
    case Refused =>
      if Of(s, p).Waiting? then Some(Become(s, p, Idle)) else None
    case Authenticated =>
      var proc := Of(s, p);
      if !proc.Locked? || proc.name !in s.entries || !HasManifest(s.entries[proc.name]) then None else
      var m := ManifestIn(s.entries[proc.name]);
      if !Validates(lib, m) || !EqualUpToCase(m.username, proc.user) then None else
      match proc.job {
        case Unlock(password) =>
          var key :- Authenticate(lib, m, password);
          Some(Become(s, p, Keyed(proc.name, key, lib.parseUuid(m.id).value)))
        case ChangePassword(currentPassword, rotation) =>
          var renewed :- Rotate(lib, m, currentPassword, rotation);
          Some(Become(s, p, Rotating(proc.name, renewed, rotation.newPassword, None)))
      }
    case _ => None
  }

  function NextRotate(s: State, p: Pid, act: Action): Option<State>
    requires act.BeginRotation? || act.FinishRotation? || act.ReplaceManifest?
  {
    var proc := Of(s, p);
    if !proc.Rotating? || proc.name !in s.entries then None else
    var d := s.entries[proc.name];
    match act
    case BeginRotation(temp) =>
      if proc.temp.None? && temp !in d.temps
      then Some(Put(Become(s, p, Rotating(proc.name, proc.manifest, proc.newPassword, Some(temp))), proc.name,
          WithTemp(d, temp, ManifestTemp(Partial))))
      else None
    case FinishRotation =>
      if proc.temp.Some?
      then Some(Put(s, proc.name, WithTemp(d, proc.temp.value, ManifestTemp(Whole(proc.manifest)))))
      else None
    case ReplaceManifest =>
      if HasManifestTemp(d, proc.temp)
      then Some(Put(Become(s, p, Releasing(proc.name)), proc.name, ManifestRenamed(d, proc.temp.value)))
      else None
  }

  // ---------------------------------------------------- unlock, session, close

  function NextSession(lib: Lib, s: State, p: Pid, act: Action): Option<State> {
    match act
    case MakeRuntime(root) =>
      var proc := Of(s, p);
      if !proc.Keyed? then None else
      var path := RuntimePath(root, proc.id);
      if path in s.runtimes then None
      else Some(Become(s, p, Extracting(proc.name, proc.key, path)).(runtimes := s.runtimes[path := map[]]))
    case ExtractPart(part) =>
      var proc := Of(s, p);
      if proc.Extracting? && Removable(part) then Some(s.(runtimes := s.runtimes[proc.path := part])) else None
    case Opened =>
      var proc := Of(s, p);
      if !proc.Extracting? || proc.name !in s.entries || !HasState(s.entries[proc.name]) then None else
      var tree :- Unseal(lib, proc.key, StateIn(s.entries[proc.name]));
      Some(Become(s, p, Session(proc.name, proc.key, proc.path)).(runtimes := s.runtimes[proc.path := tree]))
    case Edit(edited) =>
      var proc := Of(s, p);
      if proc.Session? && WellFormedTree(edited) then Some(s.(runtimes := s.runtimes[proc.path := edited])) else None
    case StartClose =>
      var proc := Of(s, p);
      if proc.Session? && proc.path in s.runtimes
      then Some(Become(s, p, Sealing(proc.name, proc.key, proc.path, None, s.runtimes[proc.path]))) else None
    case _ => None
  }

  function NextSeal(lib: Lib, s: State, p: Pid, act: Action): Option<State>
    requires act.BeginSeal? || act.FinishSeal? || act.ReplaceState?
  {
    var proc := Of(s, p);
    if !proc.Sealing? || proc.name !in s.entries then None else
    var d := s.entries[proc.name];
    match act
    case BeginSeal(temp) =>
      if proc.temp.None? && temp !in d.temps
      then Some(Put(Become(s, p, Sealing(proc.name, proc.key, proc.path, Some(temp), proc.tree)), proc.name,
          WithTemp(d, temp, StateTemp(Partial))))
      else None
    case FinishSeal(seed, listing) =>
      if proc.temp.Some? && Lists(listing, proc.tree) && CanSeal(lib, seed, listing) then
        var file := SealedFile(lib, proc.key, seed, listing);
        Some(Put(s, proc.name, WithTemp(d, proc.temp.value, StateTemp(Whole(file)))))
      else None
    case ReplaceState =>
      if HasStateTemp(d, proc.temp)
      then Some(Put(Become(s, p, Cleaning(proc.name, proc.path)), proc.name, StateRenamed(d, proc.temp.value)))
      else None
  }

  // ------------------------------------------- errors, cleanup and the world

  /** Removes a temporary if asked to; the removal itself may fail, as the code ignores its result. */
  function WithoutTemp(s: State, name: bytes, temp: Option<bytes>, removed: bool): State {
    if temp.Some? && removed && name in s.entries
    then Put(s, name, s.entries[name].(temps := s.entries[name].temps - {temp.value}))
    else s
  }

  /** The runtime directory of a process, if it has one, is there and can be removed with all it holds. */
  predicate CanClear(s: State, p: Pid) {
    RuntimeOf(Of(s, p)).Some? ==>
      var path := RuntimeOf(Of(s, p)).value; path in s.runtimes && Removable(s.runtimes[path])
  }

  function NextCleanup(s: State, p: Pid, act: Action): Option<State> {
    match act
    case GiveUp(tempRemoved) =>
      var proc := Of(s, p);
      if proc.Locked? || proc.Keyed? then Some(Become(s, p, Releasing(proc.name)))
      else if proc.Rotating?
          then Some(Become(WithoutTemp(s, proc.name, proc.temp, tempRemoved), p, Releasing(proc.name)))
      else if proc.Extracting? || proc.Session? then Some(Become(s, p, Cleaning(proc.name, proc.path)))
      else if proc.Sealing?
          then Some(Become(WithoutTemp(s, proc.name, proc.temp, tempRemoved), p, Cleaning(proc.name, proc.path)))
      else None
    case CleanUp(removed, rest) =>
      var proc := Of(s, p);
      if !proc.Cleaning? then None
      else if removed then
        if !CanClear(s, p) then None
        else Some(Become(s, p, Releasing(proc.name)).(runtimes := s.runtimes - {proc.path}))
      else Some(Become(s, p, Releasing(proc.name)).(
                  runtimes := s.runtimes[proc.path := rest], orphans := s.orphans + {proc.path}))
    case Release =>
      var proc := Of(s, p);
      if proc.Releasing? then Some(Become(s, p, Idle).(locks := s.locks - {proc.name})) else None
    case Crash =>
      var proc := Of(s, p);
      Some(Become(s, p, Idle).(
             locks := if HeldBy(proc).Some? then s.locks - {HeldBy(proc).value} else s.locks,
             orphans := if RuntimeOf(proc).Some? then s.orphans + {RuntimeOf(proc).value} else s.orphans))
    case _ => None
  }

  /** The state after an event, if the event can happen. */
  function Next(lib: Lib, s: State, e: Event): Option<State> {
    match e
    case By(p, act) =>
      if act.StartAdd? || act.Stage? || act.AbandonAdd? then NextAdd(s, p, act)
      else if IsStaged(act) then NextStaged(lib, s, p, act)
      else if act.Ask? || act.TakeLock? || act.Refused? || act.Authenticated? then NextLock(lib, s, p, act)
      else if act.BeginRotation? || act.FinishRotation? || act.ReplaceManifest? then NextRotate(s, p, act)
      else if act.MakeRuntime? || act.ExtractPart? || act.Opened? || act.Edit? || act.StartClose?
          then NextSession(lib, s, p, act)
      else if act.BeginSeal? || act.FinishSeal? || act.ReplaceState? then NextSeal(lib, s, p, act)
      else NextCleanup(s, p, act)
    case Plant(path, planted) =>
      if path in s.runtimes then None
      else Some(s.(runtimes := s.runtimes[path := planted], orphans := s.orphans + {path}))
    case Sweep(path) =>
      if path in s.orphans then Some(s.(runtimes := s.runtimes - {path}, orphans := s.orphans - {path})) else None
  }

  // ----------------------------------------------------- the abstract vault

  /** What the store is for: a map from user directory to password, data key and file tree. */
  datatype Profile = Profile(password: bytes, key: Key, tree: Tree)

  type Vault = map<bytes, Profile>

  /** Only three events count: publishing a profile, replacing its manifest, replacing its state. */
  function Record(s: State, a: Vault, e: Event): Vault {
    if !e.By? then a else
    var proc := Of(s, e.p);
    if e.act.Publish? && proc.AddStaged? && proc.dataKey.Some? then
      a[UserDirectory(proc.user) := Profile(proc.password, proc.dataKey.value, map[])]
    else if e.act.ReplaceManifest? && proc.Rotating? && proc.name in a then
      a[proc.name := a[proc.name].(password := proc.newPassword)]
    else if e.act.ReplaceState? && proc.Sealing? && proc.name in a then
      a[proc.name := a[proc.name].(tree := Restorable(proc.tree))]
    else a
  }

  /** A password that gets through derives the wrapping key of the current one. The invariant rests on
      this; it follows from the assumption that no wrapped key is forged. */
  ghost predicate Genuine(s: State, a: Vault, lib: Lib, e: Event) {
    e.By? && e.act.Authenticated? && Of(s, e.p).Locked? ==>
      var proc := Of(s, e.p);
      proc.name in a && proc.name in s.entries && HasManifest(s.entries[proc.name]) ==>
        var kdf := ManifestIn(s.entries[proc.name]).kdf;
        DeriveKey(lib, JobPassword(proc.job), kdf) == DeriveKey(lib, a[proc.name].password, kdf)
  }
}
