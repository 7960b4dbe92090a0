/** The store lets its users do what it is for: in any reachable state in which a name is free, a profile
    can be created under it. */
module StoreProgress {
  import opened Wrappers
  import opened Bytes
  import opened Cipher
  import opened Libraries
  import opened Trees
  import opened Manifest
  import opened KeyWrap
  import opened Archive
  import opened StoreModel
  import opened StoreWraps
  import opened StoreTheorems

  /** But for the user directories and the place of `p`, nothing has changed. */
  ghost predicate Elsewhere(s0: State, s: State, p: Pid) {
    && s.locks == s0.locks && s.runtimes == s0.runtimes && s.orphans == s0.orphans
    && forall q :: q != p ==> Of(s, q) == Of(s0, q)
  }

  /** Process `p` stages directory `d`; everything else in `s` is as in `s0`. */
  ghost predicate Staging(s0: State, s: State, p: Pid, proc: Proc, d: UserDir) {
    && Of(s, p) == proc && proc.AddStaged? && proc.stage !in s0.entries
    && s.entries == s0.entries[proc.stage := d] && Elsewhere(s0, s, p)
  }

  // ------------------------------------------------------- the single steps

  lemma CanStage(lib: Lib, s: State, p: Pid, user: bytes, password: bytes, uuid: bytes)
    returns (ready: State, staged: State)
    requires Of(s, p).Idle? && IsValidUsername(user) && |password| >= PASSWORD_MINIMUM
    requires UserDirectory(user) !in s.entries && STAGING_PREFIX + uuid !in s.entries
    ensures Next(lib, s, By(p, StartAdd(user, password))) == Some(ready)
    ensures Next(lib, ready, By(p, Stage(uuid))) == Some(staged)
    ensures Staging(s, staged, p, AddStaged(user, password, STAGING_PREFIX + uuid, None, None), EMPTY_DIR)
  {
    ready := Become(s, p, AddReady(user, password));
    staged := Put(Become(ready, p, AddStaged(user, password, STAGING_PREFIX + uuid, None, None)),
        STAGING_PREFIX + uuid, EMPTY_DIR);
  }

  lemma CanBeginManifest(lib: Lib, s0: State, s: State, p: Pid, proc: Proc) returns (begun: State)
    requires Staging(s0, s, p, proc, EMPTY_DIR) && proc.dataKey.None? && proc.temp.None?
    ensures Next(lib, s, By(p, BeginManifest)) == Some(begun) && Of(begun, p) == proc
    ensures Staging(s0, begun, p, proc, EMPTY_DIR.(manifest := Some(Partial)))
  {
    begun := Put(s, proc.stage, EMPTY_DIR.(manifest := Some(Partial)));
  }

  lemma CanFinishManifest(lib: Lib, s0: State, s: State, p: Pid, proc: Proc, act: Action, m: UserManifest)
    returns (done: State)
    requires Staging(s0, s, p, proc, EMPTY_DIR.(manifest := Some(Partial)))
    requires proc.dataKey.None? && proc.temp.None? && act.FinishManifest?
    requires lib.parseUuid(act.id) == Some(act.id) && FreshId(s0, act.id)
    requires Some(m) == Rewrap(lib, NewHeader(lib, proc.user, act.id, act.createdAt, act.salt), act.newKey,
             proc.password, act.salt, act.iv)
    ensures Next(lib, s, By(p, act)) == Some(done)
    ensures Staging(s0, done, p, Staged(proc, Some(act.newKey), None), EMPTY_DIR.(manifest := Some(Whole(m))))
  {
    hide Rewrap, NewHeader;
    assert FreshId(s, act.id);
    done := Put(Become(s, p, Staged(proc, Some(act.newKey), None)), proc.stage, EMPTY_DIR.(manifest := Some(Whole(m))));
  }

  lemma CreatedAtIsKept(lib: Lib, user: bytes, password: bytes, r: Draws)
    requires lib.Lawful()
    requires Rewrap(lib, NewHeader(lib, user, r.id, r.createdAt, r.salt), r.newKey, password, r.salt, r.iv).Some?
    ensures Rewrap(lib, NewHeader(lib, user, r.id, r.createdAt, r.salt), r.newKey, password, r.salt,
            r.iv).value.createdAt == r.createdAt
  {
    hide Rewrap, Authenticate;
    RewrapAuthenticates(lib, NewHeader(lib, user, r.id, r.createdAt, r.salt), r.newKey, password, r.salt, r.iv);
  }

  lemma CanBeginState(lib: Lib, s0: State, s: State, p: Pid, proc: Proc, d: UserDir, temp: bytes)
    returns (begun: State, partial: UserDir)
    requires Staging(s0, s, p, proc, d) && proc.dataKey.Some? && proc.temp.None? && d.state.None? && d.temps == map[]
    ensures Next(lib, s, By(p, BeginState(temp))) == Some(begun)
    ensures Staging(s0, begun, p, Staged(proc, proc.dataKey, Some(temp)), partial) && partial.manifest == d.manifest
    ensures partial.temps.Keys == {temp}
  {
    partial := WithTemp(d, temp, StateTemp(Partial));
    begun := Put(Become(s, p, Staged(proc, proc.dataKey, Some(temp))), proc.stage, partial);
  }

  lemma RootListsNothing()
    ensures Lists(ROOT_ONLY, map[])
  {
  }

  lemma CanFinishState(lib: Lib, s0: State, s: State, p: Pid, proc: Proc, d: UserDir, seed: Nonce)
    returns (done: State, sealed: UserDir)
    requires Staging(s0, s, p, proc, d) && proc.dataKey.Some? && proc.temp.Some?
    requires Lists(ROOT_ONLY, map[]) && CanSeal(lib, seed, ROOT_ONLY)
    ensures Next(lib, s, By(p, FinishState(seed, ROOT_ONLY))) == Some(done)
    ensures Staging(s0, done, p, proc, sealed) && HasStateTemp(sealed, proc.temp) && sealed.manifest == d.manifest
    ensures sealed.temps.Keys == d.temps.Keys + {proc.temp.value}
  {
    hide SealedFile, CanSeal, Lists;
    sealed := WithTemp(d, proc.temp.value, StateTemp(Whole(SealedFile(lib, proc.dataKey.value, seed, ROOT_ONLY))));
    done := Put(s, proc.stage, sealed);
  }

  lemma CanPlaceState(lib: Lib, s0: State, s: State, p: Pid, proc: Proc, d: UserDir)
    returns (placed: State, complete: UserDir)
    requires Staging(s0, s, p, proc, d) && HasStateTemp(d, proc.temp)
    ensures Next(lib, s, By(p, PlaceState)) == Some(placed)
    ensures Staging(s0, placed, p, Staged(proc, proc.dataKey, None), complete)
    ensures complete.state.Some? && complete.manifest == d.manifest
            && complete.temps.Keys == d.temps.Keys - {proc.temp.value}
  {
    complete := StateRenamed(d, proc.temp.value);
    placed := Put(Become(s, p, Staged(proc, proc.dataKey, None)), proc.stage, complete);
  }

  lemma CanPublish(lib: Lib, s0: State, s: State, p: Pid, proc: Proc, d: UserDir) returns (published: State)
    requires Staging(s0, s, p, proc, d) && d.state.Some?
    requires UserDirectory(proc.user) !in s0.entries && UserDirectory(proc.user) != proc.stage
    ensures Next(lib, s, By(p, Publish)) == Some(published)
    ensures published.entries.Keys == s0.entries.Keys + {UserDirectory(proc.user)}
    ensures published.entries[UserDirectory(proc.user)] == d
    ensures Elsewhere(s0, published, p) && Of(published, p).Idle?
  {
    published := Next(lib, s, By(p, Publish)).value;
  }

  // ------------------------------------------------------------- whole runs

  lemma OneMoreStep(lib: Lib, es: seq<Event>, s: State, a: Vault, w: seq<HonestWrap>, p: Pid, act: Action, s2: State)
    requires Reaches(lib, es, s, a, w) && Next(lib, s, By(p, act)) == Some(s2)
    requires act.FinishManifest? || act.Authenticated? ==> Fair(lib, w, s, By(p, act))
    ensures Reaches(lib, es + [By(p, act)], s2, Record(s, a, By(p, act)), Logged(lib, w, s, By(p, act)))
  {
    if !act.FinishManifest? && !act.Authenticated? {
      QuietIsFair(lib, w, s, p, act);
    }
    hide Run, StoreAfter, VaultAfter, Wraps, Next, Record, Fair, Logged;
    OneMore(lib, es, By(p, act));
  }

  predicate IsQuiet(act: Action) {
    !act.FinishManifest? && !act.Authenticated? && !act.Publish? && !act.ReplaceManifest? && !act.ReplaceState?
  }

  lemma QuietEvent(lib: Lib, es: seq<Event>, s: State, a: Vault, w: seq<HonestWrap>, p: Pid, act: Action, s2: State)
    requires Reaches(lib, es, s, a, w) && Next(lib, s, By(p, act)) == Some(s2) && IsQuiet(act)
    ensures Reaches(lib, es + [By(p, act)], s2, a, w)
  {
    hide Reaches, Next;
    OneMoreStep(lib, es, s, a, w, p, act, s2);
  }

  /** The draws of a creation are as they should be: names, id and salt are new, Argon2id takes the
      password, and the seed leaves room for an empty archive. */
  ghost predicate GoodDraws(lib: Lib, s: State, w: seq<HonestWrap>, user: bytes, password: bytes, r: Draws) {
    && STAGING_PREFIX + r.uuid !in s.entries
    && lib.parseUuid(r.id) == Some(r.id) && FreshId(s, r.id) && FreshSalt(w, lib.base64(r.salt))
    && Rewrap(lib, NewHeader(lib, user, r.id, r.createdAt, r.salt), r.newKey, password, r.salt, r.iv).Some?
    && CanSeal(lib, r.seed, ROOT_ONLY)
  }

  function Writing(r: Draws): Action {
    FinishManifest(r.newKey, r.salt, r.iv, r.id, r.createdAt)
  }

  function WritingManifest(p: Pid, user: bytes, password: bytes, r: Draws): seq<Event> {
    [By(p, StartAdd(user, password)), By(p, Stage(r.uuid)), By(p, BeginManifest), By(p, Writing(r))]
  }

  function WritingState(p: Pid, r: Draws): seq<Event> {
    [By(p, BeginState(r.temp)), By(p, FinishState(r.seed, ROOT_ONLY)), By(p, PlaceState), By(p, Publish)]
  }

  function Creation(p: Pid, user: bytes, password: bytes, r: Draws): seq<Event> {
    WritingManifest(p, user, password, r) + WritingState(p, r)
  }

  /** Only `salt` has been drawn. */
  ghost predicate SaltsFrom(w: seq<HonestWrap>, w2: seq<HonestWrap>, salt: bytes) {
    forall z :: FreshSalt(w, z) && z != salt ==> FreshSalt(w2, z)
  }

  lemma WritingDrawsItsSalt(lib: Lib, w: seq<HonestWrap>, s: State, p: Pid, r: Draws)
    requires lib.Lawful()
    ensures SaltsFrom(w, Logged(lib, w, s, By(p, Writing(r))), lib.base64(r.salt))
  {
    hide Rewrap;
    var proc := Of(s, p);
    if proc.AddStaged? && WrapMade(lib, s, By(p, Writing(r))).Some? {
      RewrapIsHonest(lib, NewHeader(lib, proc.user, r.id, r.createdAt, r.salt), r.newKey, proc.password, r.salt, r.iv);
    }
  }

  lemma WritingIsFair(lib: Lib, w: seq<HonestWrap>, s: State, p: Pid, r: Draws)
    requires lib.Lawful() && Of(s, p).AddStaged? && FreshSalt(w, lib.base64(r.salt))
    requires var proc := Of(s, p);
             Rewrap(lib, NewHeader(lib, proc.user, r.id, r.createdAt, r.salt), r.newKey, proc.password, r.salt,
                 r.iv).Some?
    ensures Fair(lib, w, s, By(p, Writing(r)))
  {
    hide Rewrap;
    var proc := Of(s, p);
    RewrapIsHonest(lib, NewHeader(lib, proc.user, r.id, r.createdAt, r.salt), r.newKey, proc.password, r.salt, r.iv);
  }

  lemma ManifestCanBeStaged(lib: Lib, es: seq<Event>, s: State, a: Vault, w: seq<HonestWrap>, p: Pid,
                            user: bytes, password: bytes, r: Draws)
    returns (s2: State, w2: seq<HonestWrap>, d: UserDir)
    requires lib.Lawful() && Reaches(lib, es, s, a, w) && Of(s, p).Idle? && GoodDraws(lib, s, w, user, password, r)
    requires IsValidUsername(user) && |password| >= PASSWORD_MINIMUM && UserDirectory(user) !in s.entries
    ensures Reaches(lib, es + WritingManifest(p, user, password, r), s2, a, w2)
    ensures Staging(s, s2, p, AddStaged(user, password, STAGING_PREFIX + r.uuid, Some(r.newKey), None), d)
    ensures d.state.None? && d.temps == map[] && HasManifest(d) && ManifestIn(d).createdAt == r.createdAt
    ensures SaltsFrom(w, w2, lib.base64(r.salt))
  {
    hide SaltsFrom, Reaches, Staging, Elsewhere, Next, Rewrap, NewHeader, FreshId, FreshSalt, CanSeal, UserDirectory,
         IsValidUsername,
         Logged, Fair;
    var proc := AddStaged(user, password, STAGING_PREFIX + r.uuid, None, None);
    var ready, staged := CanStage(lib, s, p, user, password, r.uuid);
    QuietEvent(lib, es, s, a, w, p, StartAdd(user, password), ready);
    var e1 := es + [By(p, StartAdd(user, password))];
    QuietEvent(lib, e1, ready, a, w, p, Stage(r.uuid), staged);
    var e2 := e1 + [By(p, Stage(r.uuid))];
    var begun := CanBeginManifest(lib, s, staged, p, proc);
    CreatedAtIsKept(lib, user, password, r);
    var m := Rewrap(lib, NewHeader(lib, user, r.id, r.createdAt, r.salt), r.newKey, password, r.salt, r.iv).value;
    d := EMPTY_DIR.(manifest := Some(Whole(m)));
    s2 := CanFinishManifest(lib, s, begun, p, proc, Writing(r), m);
    QuietEvent(lib, e2, staged, a, w, p, BeginManifest, begun);
    var e3 := e2 + [By(p, BeginManifest)];
    WritingIsFair(lib, w, begun, p, r);
    OneMoreStep(lib, e3, begun, a, w, p, Writing(r), s2);
    w2 := Logged(lib, w, begun, By(p, Writing(r)));
    WritingDrawsItsSalt(lib, w, begun, p, r);
    assert e3 + [By(p, Writing(r))] == es + WritingManifest(p, user, password, r);
  }

  lemma StagedCanBePublished(lib: Lib, s0: State, es: seq<Event>, s: State, a: Vault, w: seq<HonestWrap>, p: Pid,
                             proc: Proc, d: UserDir, r: Draws)
    returns (published: State)
    requires Reaches(lib, es, s, a, w) && Staging(s0, s, p, proc, d)
    requires proc.AddStaged? && proc.dataKey.Some? && proc.temp.None? && d.state.None? && d.temps == map[]
    requires UserDirectory(proc.user) !in s0.entries && UserDirectory(proc.user) != proc.stage
    requires CanSeal(lib, r.seed, ROOT_ONLY)
    ensures var target := UserDirectory(proc.user);
            && Reaches(lib, es + WritingState(p, r), published,
                a[target := Profile(proc.password, proc.dataKey.value, map[])], w)
            && published.entries.Keys == s0.entries.Keys + {target}
            && published.entries[target].manifest == d.manifest && published.entries[target].temps == map[]
            && Elsewhere(s0, published, p) && Of(published, p).Idle?
  {
    hide Reaches, Staging, Next, CanSeal, UserDirectory, HasStateTemp, Lists, Elsewhere;
    RootListsNothing();
    var mid := Staged(proc, proc.dataKey, Some(r.temp));
    var begun, partial := CanBeginState(lib, s0, s, p, proc, d, r.temp);
    var done, sealed := CanFinishState(lib, s0, begun, p, mid, partial, r.seed);
    QuietEvent(lib, es, s, a, w, p, BeginState(r.temp), begun);
    var e1 := es + [By(p, BeginState(r.temp))];
    QuietEvent(lib, e1, begun, a, w, p, FinishState(r.seed, ROOT_ONLY), done);
    var e2 := e1 + [By(p, FinishState(r.seed, ROOT_ONLY))];
    var placed, complete := CanPlaceState(lib, s0, done, p, mid, sealed);
    published := CanPublish(lib, s0, placed, p, Staged(mid, mid.dataKey, None), complete);
    QuietEvent(lib, e2, done, a, w, p, PlaceState, placed);
    var e3 := e2 + [By(p, PlaceState)];
    StagingPlace(s0, placed, p, Staged(mid, mid.dataKey, None), complete);
    PublishingWrapsNothing(lib, w, placed, a, p);
    OneMoreStep(lib, e3, placed, a, w, p, Publish, published);
    assert e3 + [By(p, Publish)] == es + WritingState(p, r);
  }

  lemma StagingPlace(s0: State, s: State, p: Pid, proc: Proc, d: UserDir)
    requires Staging(s0, s, p, proc, d)
    ensures Of(s, p) == proc && proc.AddStaged?
  {
  }

  lemma PublishingWrapsNothing(lib: Lib, w: seq<HonestWrap>, s: State, a: Vault, p: Pid)
    requires Of(s, p).AddStaged? && Of(s, p).dataKey.Some?
    ensures Logged(lib, w, s, By(p, Publish)) == w
    ensures Record(s, a, By(p, Publish))
            == a[UserDirectory(Of(s, p).user) := Profile(Of(s, p).password, Of(s, p).dataKey.value, map[])]
  {
    hide UserDirectory;
  }

  /** From any reachable state in which the name is free, an idle process with good draws can create the
      profile: it then has the given password and an empty tree, and nothing else has changed. */
  lemma ProfileCanBeCreated(lib: Lib, es: seq<Event>, p: Pid, user: bytes, password: bytes, r: Draws)
    requires Run(lib, es) && Of(StoreAfter(lib, es), p).Idle?
    requires IsValidUsername(user) && |password| >= PASSWORD_MINIMUM
    requires UserDirectory(user) !in StoreAfter(lib, es).entries
    requires GoodDraws(lib, StoreAfter(lib, es), Wraps(lib, es), user, password, r)
    ensures var all, target := es + Creation(p, user, password, r), UserDirectory(user);
            && Run(lib, all)
            && VaultAfter(lib, all) == VaultAfter(lib, es)[target := Profile(password, r.newKey, map[])]
            && StoreAfter(lib, all).entries.Keys == StoreAfter(lib, es).entries.Keys + {target}
            && HasManifest(StoreAfter(lib, all).entries[target])
            && ManifestIn(StoreAfter(lib, all).entries[target]).createdAt == r.createdAt
            && StoreAfter(lib, all).entries[target].temps == map[]
            && SaltsFrom(Wraps(lib, es), Wraps(lib, all), lib.base64(r.salt))
            && Elsewhere(StoreAfter(lib, es), StoreAfter(lib, all), p) && Of(StoreAfter(lib, all), p).Idle?
  {
    hide Run, StoreAfter, VaultAfter, Wraps, Rewrap, NewHeader, FreshId, FreshSalt, CanSeal, UserDirectory,
         IsValidUsername, Staging;
    hide WritingManifest, WritingState, Elsewhere, SaltsFrom;
    StageIsNoUserDirectory(user, r.uuid);
    assert lib.Lawful() by { RunIsLawful(lib, es); }
    var s, a, w, mid := StoreAfter(lib, es), VaultAfter(lib, es), Wraps(lib, es),
        es + WritingManifest(p, user, password, r);
    var s2, w2, d := ManifestCanBeStaged(lib, es, s, a, w, p, user, password, r);
    var proc := AddStaged(user, password, STAGING_PREFIX + r.uuid, Some(r.newKey), None);
    var published := StagedCanBePublished(lib, s, mid, s2, a, w2, p, proc, d, r);
    assert mid + WritingState(p, r) == es + Creation(p, user, password, r);
  }

  lemma StageIsNoUserDirectory(user: bytes, uuid: bytes)
    requires IsValidUsername(user)
    ensures UserDirectory(user) != STAGING_PREFIX + uuid
  {
    DirectoryIsPlain(user);
    assert (STAGING_PREFIX + uuid)[0] == DOT;
  }
}
