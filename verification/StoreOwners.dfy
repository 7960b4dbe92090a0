/** What the owner of a profile can do: lock it, open it, close it again, and change its password. Each
    result adds the events of the operation to a run and says what they lead to. */
module StoreOwners {
  import opened Wrappers
  import opened Bytes
  import opened Cipher
  import opened Libraries
  import opened Trees
  import opened Manifest
  import opened KeyWrap
  import opened Archive
  import opened StoreModel
  import opened StoreInvariant
  import opened StoreRenames
  import opened StoreWraps
  import opened StoreTheorems
  import opened StoreAccess
  import opened StoreProgress

  /** The leftovers and the places of all other processes are as they were. */
  ghost predicate Aside(s0: State, s: State, p: Pid) {
    s.orphans == s0.orphans && forall q :: q != p ==> Of(s, q) == Of(s0, q)
  }

  // ------------------------------------------------------- the single steps

  lemma CanLock(lib: Lib, s: State, p: Pid, user: bytes, job: Job) returns (asked: State, locked: State)
    requires Of(s, p).Idle? && IsValidUsername(user) && JobAllowed(job)
    requires UserDirectory(user) in s.entries && UserDirectory(user) !in s.locks
    ensures Next(lib, s, By(p, Ask(user, job))) == Some(asked)
    ensures Next(lib, asked, By(p, TakeLock)) == Some(locked)
    ensures Of(locked, p) == Locked(UserDirectory(user), user, job)
    ensures locked.entries == s.entries && locked.locks == s.locks[UserDirectory(user) := p]
    ensures locked.runtimes == s.runtimes && Aside(s, locked, p)
  {
    hide UserDirectory, IsValidUsername;
    asked := Become(s, p, Waiting(UserDirectory(user), user, job));
    var name := UserDirectory(user);
    locked := Become(asked, p, Locked(name, user, job)).(locks := s.locks[name := p]);
  }

  lemma AuthenticatingChangesPlace(lib: Lib, s: State, p: Pid)
    requires Next(lib, s, By(p, Authenticated)).Some?
    ensures var s2 := Next(lib, s, By(p, Authenticated)).value; s2.entries == s.entries && Elsewhere(s, s2, p)
  {
    hide Authenticate, Rotate, Validates, EqualUpToCase;
  }

  lemma CanRelease(lib: Lib, s: State, p: Pid) returns (released: State)
    requires Of(s, p).Releasing?
    ensures Next(lib, s, By(p, Release)) == Some(released) && Of(released, p).Idle?
    ensures released.entries == s.entries && released.locks == s.locks - {Of(s, p).name}
    ensures released.runtimes == s.runtimes && Aside(s, released, p)
  {
    released := Next(lib, s, By(p, Release)).value;
  }

  /** Process `p` works on directory `name`, now `d`; everything else in `s` is as in `s0`. */
  ghost predicate Working(s0: State, s: State, p: Pid, proc: Proc, name: bytes, d: UserDir) {
    Of(s, p) == proc && HeldBy(proc) == Some(name) && s.entries == s0.entries[name := d] && Elsewhere(s0, s, p)
  }

  lemma CanBeginRotation(lib: Lib, s0: State, s: State, p: Pid, proc: Proc, d: UserDir, temp: bytes)
    returns (s2: State, d2: UserDir)
    requires proc.Rotating? && Working(s0, s, p, proc, proc.name, d) && proc.temp.None? && temp !in d.temps
    ensures Next(lib, s, By(p, BeginRotation(temp))) == Some(s2)
    ensures Working(s0, s2, p, Rotating(proc.name, proc.manifest, proc.newPassword, Some(temp)), proc.name, d2)
    ensures d2.state == d.state
  {
    d2 := WithTemp(d, temp, ManifestTemp(Partial));
    s2 := Put(Become(s, p, Rotating(proc.name, proc.manifest, proc.newPassword, Some(temp))), proc.name, d2);
  }

  lemma CanFinishRotation(lib: Lib, s0: State, s: State, p: Pid, proc: Proc, d: UserDir)
    returns (s2: State, d2: UserDir)
    requires proc.Rotating? && Working(s0, s, p, proc, proc.name, d) && proc.temp.Some?
    ensures Next(lib, s, By(p, FinishRotation)) == Some(s2)
    ensures Working(s0, s2, p, proc, proc.name, d2) && d2.state == d.state
    ensures HasManifestTemp(d2, proc.temp) && d2.temps[proc.temp.value].manifest.value == proc.manifest
  {
    d2 := WithTemp(d, proc.temp.value, ManifestTemp(Whole(proc.manifest)));
    s2 := Put(s, proc.name, d2);
  }

  lemma CanReplaceManifest(lib: Lib, s0: State, s: State, p: Pid, proc: Proc, d: UserDir)
    returns (s2: State, d2: UserDir)
    requires proc.Rotating? && Working(s0, s, p, proc, proc.name, d) && HasManifestTemp(d, proc.temp)
    ensures Next(lib, s, By(p, ReplaceManifest)) == Some(s2)
    ensures Working(s0, s2, p, Releasing(proc.name), proc.name, d2)
    ensures d2.manifest == Some(d.temps[proc.temp.value].manifest) && d2.state == d.state
  {
    d2 := ManifestRenamed(d, proc.temp.value);
    s2 := Put(Become(s, p, Releasing(proc.name)), proc.name, d2);
  }

  lemma CanBeginSeal(lib: Lib, s0: State, s: State, p: Pid, proc: Proc, d: UserDir, temp: bytes)
    returns (s2: State, d2: UserDir)
    requires proc.Sealing? && Working(s0, s, p, proc, proc.name, d) && proc.temp.None? && temp !in d.temps
    ensures Next(lib, s, By(p, BeginSeal(temp))) == Some(s2)
    ensures Working(s0, s2, p, Sealing(proc.name, proc.key, proc.path, Some(temp), proc.tree), proc.name, d2)
    ensures d2.manifest == d.manifest
  {
    d2 := WithTemp(d, temp, StateTemp(Partial));
    s2 := Put(Become(s, p, Sealing(proc.name, proc.key, proc.path, Some(temp), proc.tree)), proc.name, d2);
  }

  lemma CanFinishSeal(lib: Lib, s0: State, s: State, p: Pid, proc: Proc, d: UserDir, seed: Nonce, listing: seq<Entry>)
    returns (s2: State, d2: UserDir)
    requires proc.Sealing? && Working(s0, s, p, proc, proc.name, d) && proc.temp.Some?
    requires Lists(listing, proc.tree) && CanSeal(lib, seed, listing)
    ensures Next(lib, s, By(p, FinishSeal(seed, listing))) == Some(s2)
    ensures Working(s0, s2, p, proc, proc.name, d2) && d2.manifest == d.manifest && HasStateTemp(d2, proc.temp)
  {
    hide SealedFile, CanSeal, Lists;
    d2 := WithTemp(d, proc.temp.value, StateTemp(Whole(SealedFile(lib, proc.key, seed, listing))));
    s2 := Put(s, proc.name, d2);
  }

  lemma CanReplaceState(lib: Lib, s0: State, s: State, p: Pid, proc: Proc, d: UserDir) returns (s2: State, d2: UserDir)
    requires proc.Sealing? && Working(s0, s, p, proc, proc.name, d) && HasStateTemp(d, proc.temp)
    ensures Next(lib, s, By(p, ReplaceState)) == Some(s2)
    ensures Working(s0, s2, p, Cleaning(proc.name, proc.path), proc.name, d2) && d2.manifest == d.manifest
  {
    d2 := StateRenamed(d, proc.temp.value);
    s2 := Put(Become(s, p, Cleaning(proc.name, proc.path)), proc.name, d2);
  }

  /** The runtime directory of `p` is gone, or `rest` of it is left over. */
  ghost predicate Cleared(s: State, s2: State, p: Pid, path: RuntimePath, removed: bool, rest: Tree) {
    && s2.entries == s.entries && (forall q :: q != p ==> Of(s2, q) == Of(s, q))
    && s2.runtimes == (if removed then s.runtimes - {path} else s.runtimes[path := rest])
    && s2.orphans == if removed then s.orphans else s.orphans + {path}
  }

  /** A removal may always fail, and it may succeed only if what the directory holds lets it. */
  lemma CanCleanUp(lib: Lib, s: State, p: Pid, removed: bool, rest: Tree) returns (cleaned: State)
    requires Of(s, p).Cleaning? && (removed ==> CanClear(s, p))
    ensures Next(lib, s, By(p, CleanUp(removed, rest))) == Some(cleaned) && Of(cleaned, p) == Releasing(Of(s, p).name)
    ensures Cleared(s, cleaned, p, Of(s, p).path, removed, rest) && cleaned.locks == s.locks
  {
    hide Removable;
    cleaned := Next(lib, s, By(p, CleanUp(removed, rest))).value;
  }

  lemma CanStartClose(lib: Lib, s: State, p: Pid) returns (s2: State)
    requires Of(s, p).Session? && Of(s, p).path in s.runtimes && Of(s, p).name in s.entries
    ensures Next(lib, s, By(p, StartClose)) == Some(s2)
    ensures var here := Of(s, p);
            Working(s, s2, p, Sealing(here.name, here.key, here.path, None, s.runtimes[here.path]), here.name,
                    s.entries[here.name])
  {
    var here := Of(s, p);
    s2 := Become(s, p, Sealing(here.name, here.key, here.path, None, s.runtimes[here.path]));
  }

  // ------------------------------------------------------------- whole runs

  function Locking(p: Pid, user: bytes, job: Job): seq<Event> {
    [By(p, Ask(user, job)), By(p, TakeLock)]
  }

  function Opening(p: Pid, root: bytes): seq<Event> {
    [By(p, MakeRuntime(root)), By(p, Opened)]
  }

  function Closing(p: Pid, temp: bytes, seed: Nonce, listing: seq<Entry>): seq<Event> {
    [By(p, StartClose), By(p, BeginSeal(temp)), By(p, FinishSeal(seed, listing)), By(p, ReplaceState)]
  }

  function Leaving(p: Pid, removed: bool, rest: Tree): seq<Event> {
    [By(p, CleanUp(removed, rest)), By(p, Release)]
  }

  function Replacing(p: Pid, temp: bytes): seq<Event> {
    [By(p, BeginRotation(temp)), By(p, FinishRotation), By(p, ReplaceManifest), By(p, Release)]
  }

  lemma ProfileCanBeLocked(lib: Lib, es: seq<Event>, s: State, a: Vault, w: seq<HonestWrap>, p: Pid, user: bytes,
      job: Job)
    returns (locked: State)
    requires Reaches(lib, es, s, a, w) && Of(s, p).Idle? && IsValidUsername(user) && JobAllowed(job)
    requires UserDirectory(user) in s.entries && UserDirectory(user) !in s.locks
    ensures Reaches(lib, es + Locking(p, user, job), locked, a, w)
    ensures Of(locked, p) == Locked(UserDirectory(user), user, job)
    ensures locked.entries == s.entries && locked.locks == s.locks[UserDirectory(user) := p]
    ensures locked.runtimes == s.runtimes && Aside(s, locked, p)
  {
    hide Reaches, Next, UserDirectory, IsValidUsername, Aside;
    var asked;
    asked, locked := CanLock(lib, s, p, user, job);
    QuietEvent(lib, es, s, a, w, p, Ask(user, job), asked);
    QuietEvent(lib, es + [By(p, Ask(user, job))], asked, a, w, p, TakeLock, locked);
    assert es + [By(p, Ask(user, job))] + [By(p, TakeLock)] == es + Locking(p, user, job);
  }

  lemma ReachedIsCoupled(lib: Lib, es: seq<Event>, s: State, a: Vault, w: seq<HonestWrap>)
    requires Reaches(lib, es, s, a, w)
    ensures Inv(lib, s, a) && Run(lib, es) && lib.Lawful()
    ensures StoreAfter(lib, es) == s && VaultAfter(lib, es) == a && Wraps(lib, es) == w
  {
    EveryRunKeepsInv(lib, es);
    hide Inv;
  }

  /** The owner gets through the password check. */
  lemma OwnerCanEnter(lib: Lib, es: seq<Event>, s: State, a: Vault, w: seq<HonestWrap>, p: Pid) returns (keyed: State)
    requires Reaches(lib, es, s, a, w) && Of(s, p).Locked? && Of(s, p).job.Unlock? && Of(s, p).name in a
    requires Of(s, p).job.password == a[Of(s, p).name].password && ManifestAt(s, Of(s, p)).Some?
    requires ManifestAt(s, Of(s, p)).value.createdAt != 0
    ensures Reaches(lib, es + [By(p, Authenticated)], keyed, a, w)
    ensures Of(keyed, p).Keyed? && Of(keyed, p).name == Of(s, p).name
    ensures Of(keyed, p).id == ManifestAt(s, Of(s, p)).value.id
    ensures keyed.entries == s.entries && Elsewhere(s, keyed, p)
  {
    hide Reaches, Next, Run, StoreAfter, VaultAfter, Wraps, Inv, Fair, Logged, Record, DeriveKey, Elsewhere;
    ReachedIsCoupled(lib, es, s, a, w);
    OwnerIsFair(lib, es, p);
    PasswordUnlocksIff(lib, es, p);
    EnteredWithId(lib, s, a, p);
    AuthenticatingChangesPlace(lib, s, p);
    keyed := Next(lib, s, By(p, Authenticated)).value;
    OneMoreStep(lib, es, s, a, w, p, Authenticated, keyed);
  }

  lemma CanMakeRuntime(lib: Lib, s: State, p: Pid, root: bytes) returns (made: State)
    requires Of(s, p).Keyed? && RuntimePath(root, Of(s, p).id) !in s.runtimes
    ensures Next(lib, s, By(p, MakeRuntime(root))) == Some(made)
    ensures Of(made, p) == Extracting(Of(s, p).name, Of(s, p).key, RuntimePath(root, Of(s, p).id))
    ensures made.entries == s.entries && made.runtimes == s.runtimes[RuntimePath(root, Of(s, p).id) := map[]]
    ensures made.locks == s.locks && Aside(s, made, p)
  {
    made := Next(lib, s, By(p, MakeRuntime(root))).value;
  }

  lemma OpeningEffect(lib: Lib, s: State, p: Pid)
    requires Next(lib, s, By(p, Opened)).Some?
    ensures var s2 := Next(lib, s, By(p, Opened)).value;
            && Of(s, p).Extracting? && Of(s, p).path in s2.runtimes && s2.entries == s.entries
            && s2.runtimes == s.runtimes[Of(s, p).path := s2.runtimes[Of(s, p).path]]
            && s2.locks == s.locks && Aside(s, s2, p)
  {
    hide Unseal;
  }

  /** With the key, a free runtime path and a tree that can be extracted, the session opens. */
  lemma OwnerCanOpen(lib: Lib, es: seq<Event>, s: State, a: Vault, w: seq<HonestWrap>, p: Pid, root: bytes)
    returns (opening: State, session: State)
    requires Reaches(lib, es, s, a, w) && Of(s, p).Keyed? && Of(s, p).name in a
    requires RuntimePath(root, Of(s, p).id) !in s.runtimes && Refillable(a[Of(s, p).name].tree)
    ensures var path := RuntimePath(root, Of(s, p).id);
            && Reaches(lib, es + [By(p, MakeRuntime(root))], opening, a, w)
            && Reaches(lib, es + Opening(p, root), session, a, w)
            && Of(opening, p) == Extracting(Of(s, p).name, Of(s, p).key, path)
            && opening.entries == s.entries && opening.locks == s.locks && Aside(s, opening, p)
            && Of(session, p) == Session(Of(s, p).name, Of(s, p).key, path)
            && session.entries == s.entries && path in session.runtimes
            && session.runtimes == s.runtimes[path := a[Of(s, p).name].tree]
            && session.locks == s.locks && Aside(s, session, p)
  {
    hide Reaches, Next, Run, StoreAfter, VaultAfter, Wraps, Inv, Refillable;
    var making := By(p, MakeRuntime(root));
    opening := CanMakeRuntime(lib, s, p, root);
    QuietEvent(lib, es, s, a, w, p, MakeRuntime(root), opening);
    ReachedIsCoupled(lib, es + [making], opening, a, w);
    StateIsOpened(lib, opening, a, p);
    OpeningEffect(lib, opening, p);
    session := Next(lib, opening, By(p, Opened)).value;
    QuietEvent(lib, es + [making], opening, a, w, p, Opened, session);
    assert es + [making] + [By(p, Opened)] == es + Opening(p, root);
  }

  lemma SessionCanBeEdited(lib: Lib, es: seq<Event>, s: State, a: Vault, w: seq<HonestWrap>, p: Pid, t: Tree)
    returns (edited: State)
    requires Reaches(lib, es, s, a, w) && Of(s, p).Session? && WellFormedTree(t)
    ensures Reaches(lib, es + [By(p, Edit(t))], edited, a, w) && Of(edited, p) == Of(s, p)
    ensures edited.entries == s.entries && edited.runtimes == s.runtimes[Of(s, p).path := t]
    ensures edited.locks == s.locks && Aside(s, edited, p)
  {
    edited := s.(runtimes := s.runtimes[Of(s, p).path := t]);
    hide Reaches, WellFormedTree;
    assert Next(lib, s, By(p, Edit(t))) == Some(edited);
    QuietEvent(lib, es, s, a, w, p, Edit(t), edited);
  }

  /** A session can be resealed, given a listing the archive writer takes, a seed that leaves room for it
      and a fresh temporary name; then the profile's tree is what can be restored of the session's. */
  lemma SessionCanBeSealed(lib: Lib, es: seq<Event>, s: State, a: Vault, w: seq<HonestWrap>, p: Pid, temp: bytes,
                           seed: Nonce, listing: seq<Entry>)
    returns (sealed: State, d: UserDir)
    requires Reaches(lib, es, s, a, w) && Of(s, p).Session? && Of(s, p).path in s.runtimes && Of(s, p).name in s.entries
    requires temp !in s.entries[Of(s, p).name].temps
    requires Lists(listing, s.runtimes[Of(s, p).path]) && CanSeal(lib, seed, listing)
    ensures var here := Of(s, p);
            && here.name in a
            && Reaches(lib, es + Closing(p, temp, seed, listing), sealed,
                 a[here.name := a[here.name].(tree := Restorable(s.runtimes[here.path]))], w)
            && Working(s, sealed, p, Cleaning(here.name, here.path), here.name, d)
            && d.manifest == s.entries[here.name].manifest
  {
    hide Reaches, Next, Run, StoreAfter, VaultAfter, Wraps, Inv, Working, CanSeal, Lists, Restorable, Record;
    var here, e1 := Of(s, p), es + [By(p, StartClose)];
    var s1 := CanStartClose(lib, s, p);
    QuietEvent(lib, es, s, a, w, p, StartClose, s1);
    var proc := Sealing(here.name, here.key, here.path, None, s.runtimes[here.path]);
    var s2, d2 := CanBeginSeal(lib, s, s1, p, proc, s.entries[here.name], temp);
    QuietEvent(lib, e1, s1, a, w, p, BeginSeal(temp), s2);
    var begun := Sealing(here.name, here.key, here.path, Some(temp), s.runtimes[here.path]);
    var s3, d3 := CanFinishSeal(lib, s, s2, p, begun, d2, seed, listing);
    var e2 := e1 + [By(p, BeginSeal(temp))];
    QuietEvent(lib, e2, s2, a, w, p, FinishSeal(seed, listing), s3);
    var e3 := e2 + [By(p, FinishSeal(seed, listing))];
    sealed, d := CanReplaceState(lib, s, s3, p, begun, d3);
    ReachedIsCoupled(lib, e3, s3, a, w);
    WorkingPlace(s, s3, p, begun, here.name, d3);
    RecordsClose(lib, s3, a, p);
    RenamingWrapsNothing(lib, w, s3, p, ReplaceState);
    OneMoreStep(lib, e3, s3, a, w, p, ReplaceState, sealed);
    assert e3 + [By(p, ReplaceState)] == es + Closing(p, temp, seed, listing);
  }

  lemma WorkingPlace(s0: State, s: State, p: Pid, proc: Proc, name: bytes, d: UserDir)
    requires Working(s0, s, p, proc, name, d)
    ensures Of(s, p) == proc
  {
  }

  lemma RenamingWrapsNothing(lib: Lib, w: seq<HonestWrap>, s: State, p: Pid, act: Action)
    requires act.ReplaceState? || act.ReplaceManifest?
    ensures Logged(lib, w, s, By(p, act)) == w
  {
  }

  /** And then the process can clean up, as far as the directory lets it, and leave. */
  lemma SessionCanBeLeft(lib: Lib, es: seq<Event>, s: State, a: Vault, w: seq<HonestWrap>, p: Pid, removed: bool,
                         rest: Tree)
    returns (left: State)
    requires Reaches(lib, es, s, a, w) && Of(s, p).Cleaning? && (removed ==> CanClear(s, p))
    ensures Reaches(lib, es + Leaving(p, removed, rest), left, a, w) && Of(left, p).Idle?
    ensures Cleared(s, left, p, Of(s, p).path, removed, rest) && left.locks == s.locks - {Of(s, p).name}
  {
    hide Reaches, Next, CanClear;
    var act := CleanUp(removed, rest);
    var cleaned := CanCleanUp(lib, s, p, removed, rest);
    QuietEvent(lib, es, s, a, w, p, act, cleaned);
    left := CanRelease(lib, cleaned, p);
    QuietEvent(lib, es + [By(p, act)], cleaned, a, w, p, Release, left);
    assert es + [By(p, act)] + [By(p, Release)] == es + Leaving(p, removed, rest);
  }

  lemma RotationIsFair(lib: Lib, wraps: seq<HonestWrap>, s: State, p: Pid)
    requires lib.Lawful() && Of(s, p).Locked? && Of(s, p).job.ChangePassword? && ManifestAt(s, Of(s, p)).Some?
    requires Unforged(lib, wraps, ManifestAt(s, Of(s, p)).value, Of(s, p).job.currentPassword)
    requires FreshSalt(wraps, lib.base64(Of(s, p).job.rotation.salt))
    ensures Fair(lib, wraps, s, By(p, Authenticated))
  {
    hide Unforged, Rewrap, Authenticate;
    var m, job := ManifestAt(s, Of(s, p)).value, Of(s, p).job;
    if WrapMade(lib, s, By(p, Authenticated)).Some? {
      var key := Authenticate(lib, m, job.currentPassword).value;
      RewrapIsHonest(lib, m, key, job.rotation.newPassword, job.rotation.salt, job.rotation.iv);
    }
  }

  lemma RotatingKeepsIdentity(lib: Lib, s: State, p: Pid)
    requires lib.Lawful() && Next(lib, s, By(p, Authenticated)).Some? && Of(s, p).Locked?
             && Of(s, p).job.ChangePassword?
    ensures var to := Of(Next(lib, s, By(p, Authenticated)).value, p);
            && to.Rotating? && to.name == Of(s, p).name && to.newPassword == Of(s, p).job.rotation.newPassword
            && to.temp.None? && ManifestAt(s, Of(s, p)).Some?
                && SameIdentity(ManifestAt(s, Of(s, p)).value, to.manifest)
  {
    hide Authenticate, Validates, EqualUpToCase, Rewrap;
    var m, job := ManifestAt(s, Of(s, p)).value, Of(s, p).job;
    var key := Authenticate(lib, m, job.currentPassword).value;
    RewrapAuthenticates(lib, m, key, job.rotation.newPassword, job.rotation.salt, job.rotation.iv);
  }

  /** The owner gets a rotation past the password check, given a fresh salt and a password Argon2id takes. */
  lemma OwnerCanStartRotation(lib: Lib, es: seq<Event>, s: State, a: Vault, w: seq<HonestWrap>, p: Pid)
    returns (rotating: State, w2: seq<HonestWrap>)
    requires Reaches(lib, es, s, a, w) && Of(s, p).Locked? && Of(s, p).job.ChangePassword? && Of(s, p).name in a
    requires Of(s, p).job.currentPassword == a[Of(s, p).name].password && ManifestAt(s, Of(s, p)).Some?
    requires ManifestAt(s, Of(s, p)).value.createdAt != 0 && FreshSalt(w, lib.base64(Of(s, p).job.rotation.salt))
    requires lib.argon2(Of(s, p).job.rotation.newPassword, Of(s, p).job.rotation.salt, 64 * 1024, 3, 1).Some?
    requires |lib.base64(Of(s, p).job.rotation.salt)| <= U32_MAX
    ensures Reaches(lib, es + [By(p, Authenticated)], rotating, a, w2)
    ensures var to := Of(rotating, p);
            && to.Rotating? && to.name == Of(s, p).name && to.newPassword == Of(s, p).job.rotation.newPassword
            && to.temp.None? && SameIdentity(ManifestAt(s, Of(s, p)).value, to.manifest)
    ensures rotating.entries == s.entries && Elsewhere(s, rotating, p)
  {
    hide Reaches, Next, Run, StoreAfter, VaultAfter, Wraps, Inv, Fair, Logged, Record, DeriveKey, Elsewhere, FreshSalt,
         Unforged, SameIdentity;
    ReachedIsCoupled(lib, es, s, a, w);
    SameKeyIsUnforged(lib, es, p);
    RotationIsFair(lib, w, s, p);
    RotationStartsIff(lib, es, p);
    RotatingKeepsIdentity(lib, s, p);
    AuthenticatingChangesPlace(lib, s, p);
    AuthenticatingRecordsNothing(s, a, p);
    rotating, w2 := Next(lib, s, By(p, Authenticated)).value, Logged(lib, w, s, By(p, Authenticated));
    OneMoreStep(lib, es, s, a, w, p, Authenticated, rotating);
  }

  lemma AuthenticatingRecordsNothing(s: State, a: Vault, p: Pid)
    ensures Record(s, a, By(p, Authenticated)) == a
  {
  }

  /** Once a rotation is past the password check it can be carried through, given a fresh temporary name;
      then the profile has the new password. */
  lemma RotationCanBeFinished(lib: Lib, es: seq<Event>, s: State, a: Vault, w: seq<HonestWrap>, p: Pid, temp: bytes)
    returns (replaced: State)
    requires Reaches(lib, es, s, a, w) && Of(s, p).Rotating? && Of(s, p).temp.None? && Of(s, p).name in s.entries
    requires temp !in s.entries[Of(s, p).name].temps
    ensures var here := Of(s, p);
            && here.name in a
            && Reaches(lib, es + Replacing(p, temp), replaced,
                 a[here.name := a[here.name].(password := here.newPassword)], w)
            && Of(replaced, p).Idle? && replaced.entries.Keys == s.entries.Keys
            && replaced.entries[here.name].manifest == Some(Whole(here.manifest))
            && replaced.locks == s.locks - {here.name} && replaced.runtimes == s.runtimes && Aside(s, replaced, p)
  {
    hide Reaches, Next, Run, StoreAfter, VaultAfter, Wraps, Inv, Record;
    var here := Of(s, p);
    assert Working(s, s, p, here, here.name, s.entries[here.name]);
    var s1, d1 := CanBeginRotation(lib, s, s, p, here, s.entries[here.name], temp);
    QuietEvent(lib, es, s, a, w, p, BeginRotation(temp), s1);
    var e1 := es + [By(p, BeginRotation(temp))];
    var begun := Rotating(here.name, here.manifest, here.newPassword, Some(temp));
    var s2, d2 := CanFinishRotation(lib, s, s1, p, begun, d1);
    QuietEvent(lib, e1, s1, a, w, p, FinishRotation, s2);
    var e2 := e1 + [By(p, FinishRotation)];
    var s3, d3 := CanReplaceManifest(lib, s, s2, p, begun, d2);
    ReachedIsCoupled(lib, e2, s2, a, w);
    RecordsRotation(lib, s2, a, p);
    RenamingWrapsNothing(lib, w, s2, p, ReplaceManifest);
    OneMoreStep(lib, e2, s2, a, w, p, ReplaceManifest, s3);
    var e3 := e2 + [By(p, ReplaceManifest)];
    replaced := CanRelease(lib, s3, p);
    var a2 := a[here.name := a[here.name].(password := here.newPassword)];
    QuietEvent(lib, e3, s3, a2, w, p, Release, replaced);
    assert e3 + [By(p, Release)] == es + Replacing(p, temp);
  }
}
