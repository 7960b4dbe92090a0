/** Every event keeps the invariant, with the abstract vault recording what the event published. */
module StoreSteps {
  import opened Wrappers
  import opened Bytes
  import opened Cipher
  import opened Libraries
  import opened Trees
  import opened Manifest
  import opened KeyWrap
  import opened Archive
  import opened StoreModel
  import opened StoreInvariant
  import opened StoreFrames

  lemma SameProc(s: State, p: Pid)
    requires !Of(s, p).Idle?
    ensures Become(s, p, Of(s, p)) == s
  {
  }

  // --------------------------------------------------------------- add_user

  lemma KeepsStartAdd(lib: Lib, s: State, a: Vault, p: Pid, act: Action)
    requires Inv(lib, s, a) && act.StartAdd? && NextAdd(s, p, act).Some?
    ensures Inv(lib, NextAdd(s, p, act).value, a)
  {
    hide Inv;
    QuietStep(lib, s, a, p, AddReady(act.user, act.password));
  }

  lemma KeepsStage(lib: Lib, s: State, a: Vault, p: Pid, act: Action)
    requires Inv(lib, s, a) && act.Stage? && NextAdd(s, p, act).Some?
    ensures Inv(lib, NextAdd(s, p, act).value, a)
  {
    hide Inv;
    var proc, stage := Of(s, p), STAGING_PREFIX + act.uuid;
    Extract(lib, s, a, p);
    assert stage[0] == DOT;
    StagingStep(lib, s, a, p, AddStaged(proc.user, proc.password, stage, None, None), stage, EMPTY_DIR);
  }

  lemma KeepsAbandonAdd(lib: Lib, s: State, a: Vault, p: Pid, act: Action)
    requires Inv(lib, s, a) && act.AbandonAdd? && NextAdd(s, p, act).Some?
    ensures Inv(lib, NextAdd(s, p, act).value, a)
  {
    hide Inv, StagedOk;
    var proc := Of(s, p);
    Extract(lib, s, a, p);
    if proc.AddReady? {
      QuietStep(lib, s, a, p, Idle);
    } else if act.left.Some? {
      StagingStep(lib, s, a, p, Idle, proc.stage, act.left.value);
    } else {
      var s2 := NextAdd(s, p, act).value;
      StagingRemoved(lib, s, a, s2, p, proc.stage);
      hide VaultOk, IdsOk, StagesOk, Knows;
      CreatorLeaves(lib, s, a, p, s2.entries, a);
    }
  }

  lemma KeepsBeginManifest(lib: Lib, s: State, a: Vault, p: Pid, act: Action)
    requires Inv(lib, s, a) && act.BeginManifest? && NextStaged(lib, s, p, act).Some?
    ensures Inv(lib, NextStaged(lib, s, p, act).value, a)
  {
    hide Inv;
    var proc := Of(s, p);
    Extract(lib, s, a, p);
    SameProc(s, p);
    StagingStep(lib, s, a, p, proc, proc.stage, s.entries[proc.stage].(manifest := Some(Partial)));
  }

  /** The manifest of a new profile holds the new data key under the new password. */
  lemma NewManifestOk(lib: Lib, user: bytes, password: bytes, key: Key, salt: Salt, iv: Nonce, id: bytes,
      createdAt: u64)
    requires lib.Lawful() && IsValidUsername(user) && lib.parseUuid(id) == Some(id) && |password| >= PASSWORD_MINIMUM
    requires Rewrap(lib, NewHeader(lib, user, id, createdAt, salt), key, password, salt, iv).Some?
    ensures var m := Rewrap(lib, NewHeader(lib, user, id, createdAt, salt), key, password, salt, iv).value;
            ManifestOk(lib, UserDirectory(user), m, password, key) && m.id == id
  {
    RewrapAuthenticates(lib, NewHeader(lib, user, id, createdAt, salt), key, password, salt, iv);
    hide Rewrap, Authenticate, IsValidUsername;
  }

  lemma KeepsFinishManifest(lib: Lib, s: State, a: Vault, p: Pid, act: Action)
    requires lib.Lawful() && Inv(lib, s, a) && act.FinishManifest? && NextStaged(lib, s, p, act).Some?
    ensures Inv(lib, NextStaged(lib, s, p, act).value, a)
  {
    hide Inv, ManifestOk, Rewrap, FreshId, StateOk;
    var proc := Of(s, p);
    Extract(lib, s, a, p);
    NewManifestOk(lib, proc.user, proc.password, act.newKey, act.salt, act.iv, act.id, act.createdAt);
    var m := Rewrap(lib, NewHeader(lib, proc.user, act.id, act.createdAt, act.salt), act.newKey, proc.password,
        act.salt, act.iv).value;
    var d := s.entries[proc.stage].(manifest := Some(Whole(m)));
    StagingStep(lib, s, a, p, Staged(proc, Some(act.newKey), None), proc.stage, d);
  }

  lemma KeepsBeginState(lib: Lib, s: State, a: Vault, p: Pid, act: Action)
    requires Inv(lib, s, a) && act.BeginState? && NextStaged(lib, s, p, act).Some?
    ensures Inv(lib, NextStaged(lib, s, p, act).value, a)
  {
    hide Inv, ManifestOk, StateOk;
    var proc := Of(s, p);
    Extract(lib, s, a, p);
    var d := WithTemp(s.entries[proc.stage], act.temp, StateTemp(Partial));
    StagingStep(lib, s, a, p, Staged(proc, proc.dataKey, Some(act.temp)), proc.stage, d);
  }

  lemma KeepsFinishState(lib: Lib, s: State, a: Vault, p: Pid, act: Action)
    requires lib.Lawful() && Inv(lib, s, a) && act.FinishState? && NextStaged(lib, s, p, act).Some?
    ensures Inv(lib, NextStaged(lib, s, p, act).value, a)
  {
    hide Inv, ManifestOk, StateOk, Lists, CanSeal, SealedFile, IsValidUsername;
    var proc := Of(s, p);
    Extract(lib, s, a, p);
    SameProc(s, p);
    SealedStateOk(lib, proc.dataKey.value, act.seed, act.listing, map[]);
    var file := SealedFile(lib, proc.dataKey.value, act.seed, act.listing);
    StagingStep(lib, s, a, p, proc, proc.stage,
        WithTemp(s.entries[proc.stage], proc.temp.value, StateTemp(Whole(file))));
  }

  /** A freshly sealed state file opens to the restorable part of the tree it was sealed from. */
  lemma SealedStateOk(lib: Lib, key: Key, seed: Nonce, listing: seq<Entry>, t: Tree)
    requires lib.Lawful() && WellFormedTree(t) && Lists(listing, t) && CanSeal(lib, seed, listing)
    ensures StateOk(lib, SealedFile(lib, key, seed, listing), key, Restorable(t))
    ensures t == map[] ==> Restorable(t) == map[]
  {
    SealThenUnseal(lib, key, seed, listing, t);
    RestorableIsFixpoint(t);
  }

  lemma KeepsPlaceState(lib: Lib, s: State, a: Vault, p: Pid, act: Action)
    requires Inv(lib, s, a) && act.PlaceState? && NextStaged(lib, s, p, act).Some?
    ensures Inv(lib, NextStaged(lib, s, p, act).value, a)
  {
    hide Inv, ManifestOk, StateOk;
    var proc := Of(s, p);
    Extract(lib, s, a, p);
    StagingStep(lib, s, a, p, Staged(proc, proc.dataKey, None), proc.stage,
        StateRenamed(s.entries[proc.stage], proc.temp.value));
  }

  /** A rename over an existing profile is refused, so publishing only ever adds a name. */
  lemma PublishAddsName(lib: Lib, s: State, a: Vault, p: Pid, act: Action)
    requires Inv(lib, s, a) && act.Publish? && NextStaged(lib, s, p, act).Some?
    ensures var proc := Of(s, p);
            && UserDirectory(proc.user) !in s.entries && UserDirectory(proc.user) !in a
            && proc.dataKey.Some? && IsValidUsername(proc.user) && !Hidden(UserDirectory(proc.user))
            && ProfileOk(lib, UserDirectory(proc.user), s.entries[proc.stage],
                Profile(proc.password, proc.dataKey.value, map[]))
  {
    hide ManifestOk, StateOk;
    assert ProcOk(lib, s, a, p);
    DirectoryIsPlain(Of(s, p).user);
  }

  lemma KeepsPublish(lib: Lib, s: State, a: Vault, p: Pid, act: Action)
    requires Inv(lib, s, a) && act.Publish? && NextStaged(lib, s, p, act).Some?
    ensures Inv(lib, NextStaged(lib, s, p, act).value, Record(s, a, By(p, act)))
  {
    hide Inv, VaultOk, IdsOk, StagesOk, Knows, ProfileOk, Hidden;
    var proc, s2, a2 := Of(s, p), NextStaged(lib, s, p, act).value, Record(s, a, By(p, act));
    Extract(lib, s, a, p);
    PublishAddsName(lib, s, a, p, act);
    PublishedEntries(lib, s, a, s2, a2, p, proc.stage, UserDirectory(proc.user));
    CreatorLeaves(lib, s, a, p, s2.entries, a2);
  }

  lemma PublishedEntries(lib: Lib, s: State, a: Vault, s2: State, a2: Vault, p: Pid, stage: bytes, target: bytes)
    requires Inv(lib, s, a) && stage in s.entries && Hidden(stage) && target !in s.entries && !Hidden(target)
    requires s2.entries == (s.entries - {stage})[target := s.entries[stage]]
    requires target in a2 && a2 == a[target := a2[target]] && ProfileOk(lib, target, s.entries[stage], a2[target])
    requires forall q :: q != p ==> Of(s2, q) == Of(s, q)
    requires StageOf(Of(s2, p)).None?
    ensures VaultOk(lib, s2, a2) && IdsOk(s2) && StagesOk(s2)
  {
    hide ProcOk, ProfileOk, LocksOk, RuntimesOk, Hidden;
    forall m, n, id | IsIdOf(s2, m, id) && IsIdOf(s2, n, id)
      ensures m == n
    {
      assert IsIdOf(s, if m == target then stage else m, id);
      assert IsIdOf(s, if n == target then stage else n, id);
    }
  }

  // --------------------------------------------------- lock, authenticate

  lemma VisibleNames(lib: Lib, s: State, a: Vault)
    requires Inv(lib, s, a)
    ensures forall n :: n in a <==> n in s.entries && !Hidden(n)
  {
  }

  lemma KeepsAsk(lib: Lib, s: State, a: Vault, p: Pid, act: Action)
    requires Inv(lib, s, a) && act.Ask? && NextLock(lib, s, p, act).Some?
    ensures Inv(lib, NextLock(lib, s, p, act).value, a)
  {
    hide Inv;
    DirectoryIsPlain(act.user);
    VisibleNames(lib, s, a);
    hide IsValidUsername, UserDirectory;
    QuietStep(lib, s, a, p, Waiting(UserDirectory(act.user), act.user, act.job));
  }

  lemma KnowsLocked(lib: Lib, s: State, a: Vault, s2: State, p: Pid)
    requires ProcOk(lib, s, a, p) && Of(s, p).Waiting?
             && Of(s2, p) == Locked(Of(s, p).name, Of(s, p).user, Of(s, p).job)
    ensures Knows(lib, Of(s2, p), DirAt(s2, Of(s2, p)), ProfileAt(a, Of(s2, p)), TreeAt(s2, Of(s2, p)))
  {
    hide UserDirectory;
  }

  /** Taking a free lock takes nothing from anybody. */
  lemma LockIsTaken(lib: Lib, s: State, a: Vault, s2: State, p: Pid)
    requires Holds(s, a, p) && Of(s, p).Waiting? && Of(s, p).name in s.entries && Of(s, p).name !in s.locks
    requires s.orphans <= s.runtimes.Keys && forall n :: n in s.locks ==> s.locks[n] != p
    requires var to := Locked(Of(s, p).name, Of(s, p).user, Of(s, p).job);
             s2 == Become(s, p, to).(locks := s.locks[Of(s, p).name := p])
    ensures Local(s, a, s2, a, p) && Accounted(s, s2, p) && Holds(s2, a, p)
  {
    hide Hidden;
  }

  lemma KeepsTakeLock(lib: Lib, s: State, a: Vault, p: Pid, act: Action)
    requires Inv(lib, s, a) && act.TakeLock? && NextLock(lib, s, p, act).Some?
    ensures Inv(lib, NextLock(lib, s, p, act).value, a)
  {
    hide Inv, ProfileOk, Knows, Hidden, Local, Accounted;
    var s2 := NextLock(lib, s, p, act).value;
    Extract(lib, s, a, p);
    VisibleNames(lib, s, a);
    KnowsLocked(lib, s, a, s2, p);
    LockIsTaken(lib, s, a, s2, p);
    hide Holds;
    HoldingsStep(lib, s, a, s2, p);
  }

  lemma KeepsRefused(lib: Lib, s: State, a: Vault, p: Pid, act: Action)
    requires Inv(lib, s, a) && act.Refused? && NextLock(lib, s, p, act).Some?
    ensures Inv(lib, NextLock(lib, s, p, act).value, a)
  {
    hide Inv;
    QuietStep(lib, s, a, p, Idle);
  }

  /** A password that gets through finds the profile's data key, and a rotation to a new password leaves
      a manifest that holds the same key for the same user. */
  lemma AuthenticatedFinds(lib: Lib, name: bytes, m: UserManifest, profile: Profile, job: Job)
    requires lib.Lawful() && ManifestOk(lib, name, m, profile.password, profile.key) && Validates(lib, m)
             && JobAllowed(job)
    requires DeriveKey(lib, JobPassword(job), m.kdf) == DeriveKey(lib, profile.password, m.kdf)
    ensures Authenticate(lib, m, JobPassword(job)) == Some(profile.key)
    ensures job.ChangePassword? && Rotate(lib, m, job.currentPassword, job.rotation).Some? ==>
              var n := Rotate(lib, m, job.currentPassword, job.rotation).value;
              ManifestOk(lib, name, n, job.rotation.newPassword, profile.key) && n.id == m.id
  {
    SameWrappingKeySameDataKey(lib, m, JobPassword(job), profile.password);
    hide Authenticate, IsValidUsername;
    if job.ChangePassword? && Rotate(lib, m, job.currentPassword, job.rotation).Some? {
      var r := job.rotation;
      RewrapAuthenticates(lib, m, profile.key, r.newPassword, r.salt, r.iv);
    }
  }

  lemma KeepsAuthenticated(lib: Lib, s: State, a: Vault, p: Pid, act: Action)
    requires lib.Lawful() && Inv(lib, s, a) && act.Authenticated? && NextLock(lib, s, p, act).Some?
             && Genuine(s, a, lib, By(p, act))
    ensures Inv(lib, NextLock(lib, s, p, act).value, a)
  {
    hide Inv, Rotate, Authenticate;
    var proc := Of(s, p);
    Extract(lib, s, a, p);
    var d, profile := s.entries[proc.name], a[proc.name];
    var m := ManifestIn(d);
    AuthenticatedFinds(lib, proc.name, m, profile, proc.job);
    assert lib.parseUuid(m.id) == Some(m.id);
    hide ManifestOk, Validates, StateOk;
    if proc.job.Unlock? {
      QuietStep(lib, s, a, p, Keyed(proc.name, profile.key, m.id));
    } else {
      var renewed := Rotate(lib, m, proc.job.currentPassword, proc.job.rotation).value;
      QuietStep(lib, s, a, p, Rotating(proc.name, renewed, proc.job.rotation.newPassword, None));
    }
  }

  // ---------------------------------------------------------------- rotate

  lemma KeepsRotation(lib: Lib, s: State, a: Vault, p: Pid, act: Action)
    requires Inv(lib, s, a) && (act.BeginRotation? || act.FinishRotation?) && NextRotate(s, p, act).Some?
    ensures Inv(lib, NextRotate(s, p, act).value, a)
  {
    hide Inv, ManifestOk, StateOk;
    var proc := Of(s, p);
    Extract(lib, s, a, p);
    var d := s.entries[proc.name];
    if act.BeginRotation? {
      DirectoryStep(lib, s, a, p, Rotating(proc.name, proc.manifest, proc.newPassword, Some(act.temp)), proc.name,
                    WithTemp(d, act.temp, ManifestTemp(Partial)), a);
    } else {
      SameProc(s, p);
      DirectoryStep(lib, s, a, p, proc, proc.name, WithTemp(d, proc.temp.value, ManifestTemp(Whole(proc.manifest))), a);
    }
  }

  /** The rename replaces one complete manifest by another, and the profile's password with it. */
  lemma KeepsReplaceManifest(lib: Lib, s: State, a: Vault, p: Pid, act: Action)
    requires Inv(lib, s, a) && act.ReplaceManifest? && NextRotate(s, p, act).Some?
    ensures Inv(lib, NextRotate(s, p, act).value, Record(s, a, By(p, act)))
  {
    hide Inv, ManifestOk, StateOk;
    var proc := Of(s, p);
    Extract(lib, s, a, p);
    DirectoryStep(lib, s, a, p, Releasing(proc.name), proc.name,
        ManifestRenamed(s.entries[proc.name], proc.temp.value), Record(s, a, By(p, act)));
  }

  // ------------------------------------------------- unlock, session, close

  lemma KeepsMakeRuntime(lib: Lib, s: State, a: Vault, p: Pid, act: Action)
    requires Inv(lib, s, a) && act.MakeRuntime? && NextSession(lib, s, p, act).Some?
    ensures Inv(lib, NextSession(lib, s, p, act).value, a)
  {
    hide Inv, ProfileOk;
    Extract(lib, s, a, p);
    HoldingsStep(lib, s, a, NextSession(lib, s, p, act).value, p);
  }

  lemma KeepsExtractPart(lib: Lib, s: State, a: Vault, p: Pid, act: Action)
    requires Inv(lib, s, a) && act.ExtractPart? && NextSession(lib, s, p, act).Some?
    ensures Inv(lib, NextSession(lib, s, p, act).value, a)
  {
    hide Inv, ProfileOk;
    var proc := Of(s, p);
    Extract(lib, s, a, p);
    SameProc(s, p);
    RuntimeStep(lib, s, a, p, proc, proc.path, act.part);
  }

  lemma KeepsOpened(lib: Lib, s: State, a: Vault, p: Pid, act: Action)
    requires Inv(lib, s, a) && act.Opened? && NextSession(lib, s, p, act).Some?
    ensures Inv(lib, NextSession(lib, s, p, act).value, a)
  {
    hide Inv, ManifestOk;
    var proc := Of(s, p);
    Extract(lib, s, a, p);
    var tree := Unseal(lib, proc.key, StateIn(s.entries[proc.name])).value;
    assert WellFormedTree(tree);
    hide StateOk, Unseal;
    RuntimeStep(lib, s, a, p, Session(proc.name, proc.key, proc.path), proc.path, tree);
  }

  lemma KeepsEdit(lib: Lib, s: State, a: Vault, p: Pid, act: Action)
    requires Inv(lib, s, a) && act.Edit? && NextSession(lib, s, p, act).Some?
    ensures Inv(lib, NextSession(lib, s, p, act).value, a)
  {
    hide Inv, ProfileOk, WellFormedTree;
    var proc := Of(s, p);
    Extract(lib, s, a, p);
    SameProc(s, p);
    RuntimeStep(lib, s, a, p, proc, proc.path, act.edited);
  }

  lemma KeepsStartClose(lib: Lib, s: State, a: Vault, p: Pid, act: Action)
    requires Inv(lib, s, a) && act.StartClose? && NextSession(lib, s, p, act).Some?
    ensures Inv(lib, NextSession(lib, s, p, act).value, a)
  {
    hide Inv, ProfileOk, WellFormedTree;
    var proc := Of(s, p);
    Extract(lib, s, a, p);
    QuietStep(lib, s, a, p, Sealing(proc.name, proc.key, proc.path, None, s.runtimes[proc.path]));
  }

  lemma KeepsBeginSeal(lib: Lib, s: State, a: Vault, p: Pid, act: Action)
    requires Inv(lib, s, a) && act.BeginSeal? && NextSeal(lib, s, p, act).Some?
    ensures Inv(lib, NextSeal(lib, s, p, act).value, a)
  {
    hide Inv, ManifestOk, StateOk, WellFormedTree, Restorable;
    var proc := Of(s, p);
    Extract(lib, s, a, p);
    DirectoryStep(lib, s, a, p, Sealing(proc.name, proc.key, proc.path, Some(act.temp), proc.tree), proc.name,
                  WithTemp(s.entries[proc.name], act.temp, StateTemp(Partial)), a);
  }

  lemma KeepsFinishSeal(lib: Lib, s: State, a: Vault, p: Pid, act: Action)
    requires lib.Lawful() && Inv(lib, s, a) && act.FinishSeal? && NextSeal(lib, s, p, act).Some?
    ensures Inv(lib, NextSeal(lib, s, p, act).value, a)
  {
    hide Inv, ManifestOk, StateOk, WellFormedTree, Restorable, Lists, SealedFile;
    var proc := Of(s, p);
    Extract(lib, s, a, p);
    SameProc(s, p);
    SealedStateOk(lib, proc.key, act.seed, act.listing, proc.tree);
    var file := SealedFile(lib, proc.key, act.seed, act.listing);
    DirectoryStep(lib, s, a, p, proc, proc.name,
        WithTemp(s.entries[proc.name], proc.temp.value, StateTemp(Whole(file))), a);
  }

  /** The rename replaces one complete state file by another, and the profile's tree with it. */
  lemma KeepsReplaceState(lib: Lib, s: State, a: Vault, p: Pid, act: Action)
    requires Inv(lib, s, a) && act.ReplaceState? && NextSeal(lib, s, p, act).Some?
    ensures Inv(lib, NextSeal(lib, s, p, act).value, Record(s, a, By(p, act)))
  {
    hide Inv, ManifestOk, StateOk, WellFormedTree, Restorable;
    var proc := Of(s, p);
    Extract(lib, s, a, p);
    DirectoryStep(lib, s, a, p, Cleaning(proc.name, proc.path), proc.name,
        StateRenamed(s.entries[proc.name], proc.temp.value), Record(s, a, By(p, act)));
  }

  // ------------------------------------------- errors, cleanup and the world

  lemma KeepsGiveUp(lib: Lib, s: State, a: Vault, p: Pid, act: Action)
    requires Inv(lib, s, a) && act.GiveUp? && NextCleanup(s, p, act).Some?
    ensures Inv(lib, NextCleanup(s, p, act).value, a)
  {
    hide Inv, ManifestOk, StateOk, WellFormedTree, Restorable, StateTempOk;
    var proc := Of(s, p);
    Extract(lib, s, a, p);
    var next := if RuntimeOf(proc).Some? then Cleaning(proc.name, proc.path) else Releasing(proc.name);
    if (proc.Rotating? || proc.Sealing?) && proc.temp.Some? && act.tempRemoved {
      var d := s.entries[proc.name];
      DirectoryStep(lib, s, a, p, next, proc.name, d.(temps := d.temps - {proc.temp.value}), a);
    } else {
      QuietStep(lib, s, a, p, next);
    }
  }

  lemma KeepsCleanUp(lib: Lib, s: State, a: Vault, p: Pid, act: Action)
    requires Inv(lib, s, a) && act.CleanUp? && NextCleanup(s, p, act).Some?
    ensures Inv(lib, NextCleanup(s, p, act).value, a)
  {
    hide Inv, ProfileOk, Knows;
    Extract(lib, s, a, p);
    HoldingsStepBlank(lib, s, a, NextCleanup(s, p, act).value, p);
  }

  lemma KeepsRelease(lib: Lib, s: State, a: Vault, p: Pid, act: Action)
    requires Inv(lib, s, a) && act.Release? && NextCleanup(s, p, act).Some?
    ensures Inv(lib, NextCleanup(s, p, act).value, a)
  {
    hide Inv, ProfileOk, Knows;
    Extract(lib, s, a, p);
    HoldingsStepBlank(lib, s, a, NextCleanup(s, p, act).value, p);
  }

  lemma CrashIsLocal(lib: Lib, s: State, a: Vault, p: Pid)
    requires Inv(lib, s, a)
    ensures var s2 := NextCleanup(s, p, Crash).value;
            s2.entries == s.entries && Of(s2, p) == Idle && Local(s, a, s2, a, p) && Accounted(s, s2, p)
  {
    hide Inv, Knows, ProfileOk;
    Extract(lib, s, a, p);
  }

  lemma KeepsCrash(lib: Lib, s: State, a: Vault, p: Pid, act: Action)
    requires Inv(lib, s, a) && act.Crash? && NextCleanup(s, p, act).Some?
    ensures Inv(lib, NextCleanup(s, p, act).value, a)
  {
    CrashIsLocal(lib, s, a, p);
    hide Inv, Local, Accounted, NextCleanup;
    HoldingsStepBlank(lib, s, a, NextCleanup(s, p, act).value, p);
  }

  lemma InterferenceIsLocal(lib: Lib, s: State, a: Vault, e: Event, p: Pid)
    requires Inv(lib, s, a) && !e.By? && Next(lib, s, e).Some?
    ensures var s2 := Next(lib, s, e).value;
            && s2.entries == s.entries && s2.procs == s.procs
            && Local(s, a, s2, a, p) && Accounted(s, s2, p)
  {
    hide Inv, ProcOk, ProfileOk, NextAdd, NextStaged, NextLock, NextRotate, NextSession, NextSeal, NextCleanup;
    Extract(lib, s, a, p);
  }

  lemma InterferenceMissesOwned(lib: Lib, s: State, a: Vault, e: Event, p: Pid)
    requires Inv(lib, s, a) && !e.By? && Next(lib, s, e).Some?
    ensures ProcOk(lib, Next(lib, s, e).value, a, p)
  {
    hide Inv, Knows, ProfileOk;
    Extract(lib, s, a, p);
    var s2, proc := Next(lib, s, e).value, Of(s, p);
    assert Of(s2, p) == proc && DirAt(s2, proc) == DirAt(s, proc) && TreeAt(s2, proc) == TreeAt(s, proc);
  }

  /** Directories put into or taken from a runtime root by others touch nobody's runtime. */
  lemma KeepsInterference(lib: Lib, s: State, a: Vault, e: Event)
    requires Inv(lib, s, a) && !e.By? && Next(lib, s, e).Some?
    ensures Inv(lib, Next(lib, s, e).value, a)
  {
    hide Inv, VaultOk, IdsOk, StagesOk, ProcOk, Local, Accounted, Next;
    var s2 := Next(lib, s, e).value;
    InterferenceIsLocal(lib, s, a, e, 0);
    InterferenceMissesOwned(lib, s, a, e, 0);
    SameEntries(lib, s, a, s2, 0);
    LocalStep(lib, s, a, s2, a, 0);
  }

  // ------------------------------------------------------------- every event

  lemma CreatorsKeepInv(lib: Lib, s: State, a: Vault, p: Pid, act: Action)
    requires lib.Lawful() && Inv(lib, s, a) && Next(lib, s, By(p, act)).Some?
    requires act.StartAdd? || act.Stage? || act.AbandonAdd? || IsStaged(act)
    ensures Inv(lib, Next(lib, s, By(p, act)).value, Record(s, a, By(p, act)))
  {
    hide Inv, NextAdd, NextStaged, NextLock, NextRotate, NextSession, NextSeal, NextCleanup;
    if act.StartAdd? {
      KeepsStartAdd(lib, s, a, p, act);
    } else if act.Stage? {
      KeepsStage(lib, s, a, p, act);
    } else if act.AbandonAdd? {
      KeepsAbandonAdd(lib, s, a, p, act);
    } else if act.BeginManifest? {
      KeepsBeginManifest(lib, s, a, p, act);
    } else if act.FinishManifest? {
      KeepsFinishManifest(lib, s, a, p, act);
    } else if act.BeginState? {
      KeepsBeginState(lib, s, a, p, act);
    } else if act.FinishState? {
      KeepsFinishState(lib, s, a, p, act);
    } else if act.PlaceState? {
      KeepsPlaceState(lib, s, a, p, act);
    } else {
      KeepsPublish(lib, s, a, p, act);
    }
  }

  predicate IsEntering(act: Action) {
    act.Ask? || act.TakeLock? || act.Refused? || act.Authenticated? || act.BeginRotation? || act.FinishRotation?
        || act.ReplaceManifest?
  }

  lemma LockersKeepInv(lib: Lib, s: State, a: Vault, p: Pid, act: Action)
    requires lib.Lawful() && Inv(lib, s, a) && Next(lib, s, By(p, act)).Some? && Genuine(s, a, lib, By(p, act))
             && IsEntering(act)
    ensures Inv(lib, Next(lib, s, By(p, act)).value, Record(s, a, By(p, act)))
  {
    hide Inv, NextAdd, NextStaged, NextLock, NextRotate, NextSession, NextSeal, NextCleanup, Genuine;
    if act.Ask? {
      KeepsAsk(lib, s, a, p, act);
    } else if act.TakeLock? {
      KeepsTakeLock(lib, s, a, p, act);
    } else if act.Refused? {
      KeepsRefused(lib, s, a, p, act);
    } else if act.Authenticated? {
      KeepsAuthenticated(lib, s, a, p, act);
    } else if act.BeginRotation? {
      KeepsRotation(lib, s, a, p, act);
    } else if act.FinishRotation? {
      KeepsRotation(lib, s, a, p, act);
    } else {
      KeepsReplaceManifest(lib, s, a, p, act);
    }
  }

  predicate IsSession(act: Action) {
    act.MakeRuntime? || act.ExtractPart? || act.Opened? || act.Edit? || act.StartClose? || act.BeginSeal?
        || act.FinishSeal? || act.ReplaceState?
  }

  lemma SessionsKeepInv(lib: Lib, s: State, a: Vault, p: Pid, act: Action)
    requires lib.Lawful() && Inv(lib, s, a) && Next(lib, s, By(p, act)).Some? && IsSession(act)
    ensures Inv(lib, Next(lib, s, By(p, act)).value, Record(s, a, By(p, act)))
  {
    hide Inv, NextAdd, NextStaged, NextLock, NextRotate, NextSession, NextSeal, NextCleanup;
    if act.MakeRuntime? {
      KeepsMakeRuntime(lib, s, a, p, act);
    } else if act.ExtractPart? {
      KeepsExtractPart(lib, s, a, p, act);
    } else if act.Opened? {
      KeepsOpened(lib, s, a, p, act);
    } else if act.Edit? {
      KeepsEdit(lib, s, a, p, act);
    } else if act.StartClose? {
      KeepsStartClose(lib, s, a, p, act);
    } else if act.BeginSeal? {
      KeepsBeginSeal(lib, s, a, p, act);
    } else if act.FinishSeal? {
      KeepsFinishSeal(lib, s, a, p, act);
    } else {
      KeepsReplaceState(lib, s, a, p, act);
    }
  }

  /** Every event that can happen keeps the store coupled to the vault it records. */
  lemma EveryEventKeepsInv(lib: Lib, s: State, a: Vault, e: Event)
    requires lib.Lawful() && Inv(lib, s, a) && Next(lib, s, e).Some? && Genuine(s, a, lib, e)
    ensures Inv(lib, Next(lib, s, e).value, Record(s, a, e))
  {
    hide Inv, NextAdd, NextStaged, NextLock, NextRotate, NextSession, NextSeal, NextCleanup, Genuine;
    if !e.By? {
      KeepsInterference(lib, s, a, e);
    } else {
      var p, act := e.p, e.act;
      if act.StartAdd? || act.Stage? || act.AbandonAdd? || IsStaged(act) {
        CreatorsKeepInv(lib, s, a, p, act);
      } else if IsEntering(act) {
        LockersKeepInv(lib, s, a, p, act);
      } else if IsSession(act) {
        SessionsKeepInv(lib, s, a, p, act);
      } else if act.GiveUp? {
        KeepsGiveUp(lib, s, a, p, act);
      } else if act.CleanUp? {
        KeepsCleanUp(lib, s, a, p, act);
      } else if act.Release? {
        KeepsRelease(lib, s, a, p, act);
      } else {
        KeepsCrash(lib, s, a, p, act);
      }
    }
  }
}
