/** Runs that show what is not promised: an unlisted profile, a lock that is free and of no use, an old
    password that still opens, and a profile whose close fails after its state was replaced and which
    cannot be opened again. */
module StoreWitnesses {
  import opened Wrappers
  import opened Bytes
  import opened Cipher
  import opened Libraries
  import opened Trees
  import opened Manifest
  import opened KeyWrap
  import opened VaultFormat
  import opened Archive
  import opened StoreModel
  import opened StoreInvariant
  import opened StoreWraps
  import opened StoreTheorems
  import opened StoreAccess
  import opened StoreProgress
  import opened StoreReopening
  import opened StoreOwners
  import LibraryLaws

  /** Nobody dies, and nobody outside touches a runtime root. */
  ghost predicate Calm(es: seq<Event>) {
    forall i :: 0 <= i < |es| ==> es[i].By? && !es[i].act.Crash?
  }

  lemma CalmTogether(es: seq<Event>, more: seq<Event>)
    requires Calm(es) && Calm(more)
    ensures Calm(es + more)
  {
  }

  // ---------------------------------------------------------- a first profile

  function Repeat(b: byte, n: nat): bytes { seq(n, i => b) }

  const USER: bytes := [97]
  const SEED: Nonce := BigEndian(0, NONCE_LENGTH)
  const FIRST_PASSWORD := Repeat(97, PASSWORD_MINIMUM)
  const SECOND_PASSWORD := Repeat(98, PASSWORD_MINIMUM)
  const FIRST_SALT: Salt := Repeat(0, SALT_LENGTH)
  const SECOND_SALT: Salt := Repeat(1, SALT_LENGTH)

  /** A library in which everything goes through: Argon2id maps all passwords to one key. */
  ghost predicate Lenient(lib: Lib) {
    && lib.Lawful()
    && (forall p, s, m, t, l :: lib.argon2(p, s, m, t, l) == Some(LibraryLaws.SomeKey()))
    && (forall b: bytes :: lib.parseUuid(b) == Some(b) && lib.base64(b) == b)
    && (forall es: seq<Entry> :: lib.tarPack(es) == Some(LibraryLaws.ArchiveCode(es)))
  }

  function FirstDraws(createdAt: u64): Draws {
    Draws([], LibraryLaws.SomeKey(), FIRST_SALT, SEED, [], createdAt, [], SEED)
  }

  lemma SmallArchiveFits(lib: Lib, es: seq<Entry>)
    requires Lenient(lib) && |LibraryLaws.ArchiveCode(es)| <= CHUNK_SIZE
    ensures CanSeal(lib, SEED, es)
  {
    Pow256Constants();
    ValueOfBigEndian(0, NONCE_LENGTH);
    hide LibraryLaws.ArchiveCode, Value, BigEndian;
  }

  lemma RootFits(lib: Lib)
    requires Lenient(lib)
    ensures CanSeal(lib, SEED, ROOT_ONLY)
  {
    var root := ROOT_ONLY[0];
    assert LibraryLaws.EntryCode(root) == [1, 1, 0, 0];
    assert ROOT_ONLY[1..] == [];
    assert LibraryLaws.ArchiveCode(ROOT_ONLY) == [1] + LibraryLaws.EntryCode(root) + [0];
    SmallArchiveFits(lib, ROOT_ONLY);
  }

  lemma FirstDrawsAreGood(lib: Lib, createdAt: u64)
    requires Lenient(lib) && CanSeal(lib, SEED, ROOT_ONLY)
    ensures GoodDraws(lib, INIT, [], USER, FIRST_PASSWORD, FirstDraws(createdAt))
  {
    var r := FirstDraws(createdAt);
    hide CanSeal, LibraryLaws.ArchiveCode;
    RewrapSucceedsIff(lib, NewHeader(lib, USER, r.id, r.createdAt, r.salt), r.newKey, FIRST_PASSWORD, r.salt, r.iv);
    hide Rewrap;
  }

  lemma StartIsARun(lib: Lib)
    requires lib.Lawful()
    ensures Run(lib, []) && StoreAfter(lib, []) == INIT && VaultAfter(lib, []) == map[] && Wraps(lib, []) == []
  {
  }

  /** There is one profile, nobody is at work, and no lock is taken. */
  ghost predicate AtRest(s: State) {
    s.locks == map[] && (forall p :: Of(s, p).Idle?) && USER in s.entries && HasManifest(s.entries[USER])
  }

  lemma UserIsPlain()
    ensures IsValidUsername(USER) && UserDirectory(USER) == USER
  {
  }

  /** A first profile is created while the clock reads `createdAt`. */
  lemma FirstProfile(createdAt: u64) returns (lib: Lib, es: seq<Event>, s: State, a: Vault, w: seq<HonestWrap>)
    ensures Lenient(lib) && Reaches(lib, es, s, a, w) && AtRest(s) && s.runtimes == map[] && s.orphans == {}
    ensures Calm(es)
    ensures s.entries[USER].temps == map[]
    ensures a == map[USER := Profile(FIRST_PASSWORD, LibraryLaws.SomeKey(), map[])]
    ensures ManifestIn(s.entries[USER]).createdAt == createdAt && FreshSalt(w, SECOND_SALT)
  {
    lib := LibraryLaws.LibrariesHaveAModel();
    assert Lenient(lib);
    var r := FirstDraws(createdAt);
    RootFits(lib);
    FirstDrawsAreGood(lib, createdAt);
    UserIsPlain();
    StartIsARun(lib);
    hide Calm, Lenient, Run, StoreAfter, VaultAfter, Wraps, GoodDraws, Creation, CanSeal, IsValidUsername;
    hide UserDirectory, SaltsFrom, FreshSalt, LibraryLaws.SomeKey, BigEndian, Repeat;
    ProfileCanBeCreated(lib, [], 0, USER, FIRST_PASSWORD, r);
    es := [] + Creation(0, USER, FIRST_PASSWORD, r);
    CreationIsCalm(0, USER, FIRST_PASSWORD, r);
    s, a, w := StoreAfter(lib, es), VaultAfter(lib, es), Wraps(lib, es);
    SecondSaltIsFresh(lib, w, r);
  }

  lemma CreationIsCalm(p: Pid, user: bytes, password: bytes, r: Draws)
    ensures Calm([] + Creation(p, user, password, r))
  {
  }

  lemma SecondSaltIsFresh(lib: Lib, w: seq<HonestWrap>, r: Draws)
    requires Lenient(lib) && r.salt == FIRST_SALT && SaltsFrom([], w, lib.base64(r.salt))
    ensures FreshSalt(w, SECOND_SALT)
  {
    assert r.salt[0] == 0 && SECOND_SALT[0] == 1;
    assert FreshSalt([], SECOND_SALT);
  }

  // ------------------------------------------------ a profile of second zero

  /** A profile created while the clock reads zero is published and not listed. */
  lemma UnlistedProfileExists()
    ensures exists lib: Lib, es, name ::
              && Run(lib, es) && name in VaultAfter(lib, es)
              && forall u :: u in ListUsers(lib, StoreAfter(lib, es)) ==> UserDirectory(u) != name
  {
    var lib, es, s, a, w := FirstProfile(0);
    ReachedIsCoupled(lib, es, s, a, w);
    hide Run, StoreAfter, VaultAfter, Wraps, ListUsers, Inv, Lenient, Reaches, UserDirectory;
    ListedUsersArePublished(lib, es, USER);
  }

  // ------------------------------------------------- a leftover in the way

  /** The owner of the first profile locks it. */
  lemma FirstProfileLocked(lib: Lib, es: seq<Event>, s: State, a: Vault, w: seq<HonestWrap>, p: Pid, job: Job)
    returns (es2: seq<Event>, locked: State)
    requires Reaches(lib, es, s, a, w) && AtRest(s) && JobAllowed(job)
    ensures es2 == es + Locking(p, USER, job) && Reaches(lib, es2, locked, a, w)
    ensures Of(locked, p) == Locked(USER, USER, job)
            && ManifestAt(locked, Of(locked, p)) == Some(ManifestIn(s.entries[USER]))
    ensures locked.entries == s.entries && locked.locks == map[USER := p]
    ensures locked.runtimes == s.runtimes && Aside(s, locked, p)
  {
    UserIsPlain();
    hide Reaches, IsValidUsername, UserDirectory;
    locked := ProfileCanBeLocked(lib, es, s, a, w, p, USER, job);
    es2 := es + Locking(p, USER, job);
  }

  function Entering(p: Pid, password: bytes): seq<Event> {
    Locking(p, USER, Unlock(password)) + [By(p, Authenticated)]
  }

  /** The owner of the first profile gets to its key. */
  lemma FirstProfileKeyed(lib: Lib, es: seq<Event>, s: State, a: Vault, w: seq<HonestWrap>, p: Pid, password: bytes)
    returns (es2: seq<Event>, keyed: State)
    requires Reaches(lib, es, s, a, w) && AtRest(s) && ManifestIn(s.entries[USER]).createdAt != 0
    requires USER in a && a[USER].password == password
    ensures es2 == es + Entering(p, password) && Reaches(lib, es2, keyed, a, w)
    ensures Of(keyed, p).Keyed? && Of(keyed, p).name == USER && Of(keyed, p).id == ManifestIn(s.entries[USER]).id
    ensures keyed.entries == s.entries && keyed.locks == map[USER := p]
    ensures keyed.runtimes == s.runtimes && Aside(s, keyed, p)
  {
    hide Reaches;
    var es1, locked := FirstProfileLocked(lib, es, s, a, w, p, Unlock(password));
    keyed := OwnerCanEnter(lib, es1, locked, a, w, p);
    es2 := es1 + [By(p, Authenticated)];
    assert es2 == es + Entering(p, password);
  }

  /** And to its tree. */
  lemma FirstProfileOpened(lib: Lib, es: seq<Event>, s: State, a: Vault, w: seq<HonestWrap>, p: Pid)
    returns (es2: seq<Event>, open: State)
    requires Reaches(lib, es, s, a, w) && AtRest(s) && s.runtimes == map[] && s.orphans == {}
    requires ManifestIn(s.entries[USER]).createdAt != 0
    requires USER in a && a[USER].password == FIRST_PASSWORD && a[USER].tree == map[]
    ensures es2 == es + (Entering(p, FIRST_PASSWORD) + Opening(p, [])) && Reaches(lib, es2, open, a, w)
    ensures Of(open, p).Session? && Of(open, p).name == USER
    ensures Of(open, p).path == RuntimePath([], ManifestIn(s.entries[USER]).id)
    ensures open.entries == s.entries && open.locks == map[USER := p] && open.runtimes.Keys == {Of(open, p).path}
    ensures Aside(s, open, p)
  {
    EmptyIsRefillable();
    hide Reaches, Refillable, Entering;
    var e1, s1 := FirstProfileKeyed(lib, es, s, a, w, p, FIRST_PASSWORD);
    var opening;
    opening, open := OwnerCanOpen(lib, e1, s1, a, w, p, []);
    es2 := e1 + Opening(p, []);
    assert es + Entering(p, FIRST_PASSWORD) + Opening(p, []) == es + (Entering(p, FIRST_PASSWORD) + Opening(p, []));
  }

  lemma EnteringAndOpeningAreCalm(p: Pid, root: bytes)
    ensures Calm(Entering(p, FIRST_PASSWORD)) && Calm(Entering(p, FIRST_PASSWORD) + Opening(p, root))
  {
  }

  lemma CrashEffect(lib: Lib, s: State, p: Pid)
    requires Of(s, p).Session?
    ensures Next(lib, s, By(p, Crash)).Some?
    ensures var s2, proc := Next(lib, s, By(p, Crash)).value, Of(s, p);
            && Of(s2, p).Idle? && (forall q :: q != p ==> Of(s2, q) == Of(s, q))
            && s2.entries == s.entries && s2.locks == s.locks - {proc.name} && s2.orphans == s.orphans + {proc.path}
  {
  }

  /** A session's process dies, and nothing else goes wrong; the lock is free, the password right, and the
      profile is not to be opened. */
  lemma FreeLockMayBeOfNoUse()
    ensures exists lib: Lib, before, after, q: Pid, p: Pid, root ::
              && Calm(before) && Run(lib, before) && Of(StoreAfter(lib, before), q).Session? && Calm(after)
              && var es := before + [By(q, Crash)] + after;
              && Run(lib, es) && Of(StoreAfter(lib, es), p).Keyed?
              && Of(StoreAfter(lib, es), p).name == Of(StoreAfter(lib, before), q).name
              && Next(lib, StoreAfter(lib, es), By(p, MakeRuntime(root))).None?
  {
    hide Reaches, Lenient, Next, Run, StoreAfter, VaultAfter, Wraps, Inv, Entering, Calm;
    var lib, e0, s0, a, w := FirstProfile(1);
    EnteringAndOpeningAreCalm(0, []);
    EnteringAndOpeningAreCalm(1, []);
    var e1, s1 := FirstProfileOpened(lib, e0, s0, a, w, 0);
    CalmTogether(e0, Entering(0, FIRST_PASSWORD) + Opening(0, []));
    CrashEffect(lib, s1, 0);
    var s2 := Next(lib, s1, By(0, Crash)).value;
    QuietEvent(lib, e1, s1, a, w, 0, Crash, s2);
    var e2 := e1 + [By(0, Crash)];
    var e3, s3 := FirstProfileKeyed(lib, e2, s2, a, w, 1, FIRST_PASSWORD);
    ReachedIsCoupled(lib, e1, s1, a, w);
    ReachedIsCoupled(lib, e3, s3, a, w);
    RuntimeIsFreeIff(lib, e3, 1, []);
    assert e3 == e1 + [By(0, Crash)] + Entering(1, FIRST_PASSWORD);
  }

  // ---------------------------------------------- an old password that opens

  lemma LenientMeansOneKey(lib: Lib, password: bytes, other: bytes, k: KdfParameters)
    requires Lenient(lib)
    ensures DeriveKey(lib, password, k) == DeriveKey(lib, other, k)
  {
  }

  lemma SecondRotationIsTaken(lib: Lib)
    requires Lenient(lib)
    ensures lib.argon2(SECOND_PASSWORD, SECOND_SALT, 64 * 1024, 3, 1).Some? && lib.base64(SECOND_SALT) == SECOND_SALT
    ensures |SECOND_SALT| <= U32_MAX && |SECOND_PASSWORD| >= PASSWORD_MINIMUM && FIRST_PASSWORD != SECOND_PASSWORD
  {
    assert FIRST_PASSWORD[0] != SECOND_PASSWORD[0];
  }

  /** The first profile's password is changed. */
  lemma FirstProfileRotated() returns (lib: Lib, e0: seq<Event>, es: seq<Event>, s: State, a: Vault, w: seq<HonestWrap>)
    ensures Lenient(lib) && Reaches(lib, es, s, a, w) && AtRest(s) && ManifestIn(s.entries[USER]).createdAt != 0
    ensures USER in a && a[USER].password == SECOND_PASSWORD
    ensures e0 <= es && Run(lib, e0) && USER in VaultAfter(lib, e0)
            && VaultAfter(lib, e0)[USER].password == FIRST_PASSWORD
  {
    hide Reaches, Lenient, Next, Run, StoreAfter, VaultAfter, Wraps, Inv, FreshSalt, Calm, Entering;
    var s0, a0, w0;
    lib, e0, s0, a0, w0 := FirstProfile(1);
    SecondRotationIsTaken(lib);
    ReachedIsCoupled(lib, e0, s0, a0, w0);
    var job := ChangePassword(FIRST_PASSWORD, Rotation(SECOND_PASSWORD, SECOND_SALT, SEED));
    var e1, s1 := FirstProfileLocked(lib, e0, s0, a0, w0, 0, job);
    var s2;
    s2, w := OwnerCanStartRotation(lib, e1, s1, a0, w0, 0);
    var e2 := e1 + [By(0, Authenticated)];
    s := RotationCanBeFinished(lib, e2, s2, a0, w, 0, []);
    es, a := e2 + Replacing(0, []), a0[USER := a0[USER].(password := SECOND_PASSWORD)];
  }

  /** A rotation replaces a password, and the old one still opens the profile: here Argon2id maps the two
      to one key. */
  lemma OldPasswordMayOpen()
    ensures exists lib: Lib, e0, es, p: Pid, user, password ::
              && e0 <= es && Run(lib, e0) && USER in VaultAfter(lib, e0)
                  && VaultAfter(lib, e0)[USER].password == password
              && Run(lib, es) && USER in VaultAfter(lib, es) && VaultAfter(lib, es)[USER].password != password
              && Of(StoreAfter(lib, es), p) == Locked(USER, user, Unlock(password))
              && Run(lib, es + [By(p, Authenticated)])
  {
    hide Reaches, Lenient, Next, Run, StoreAfter, VaultAfter, Wraps, Inv, Fair, Logged, DeriveKey, Unforged, After;
    var lib, e0, e1, s1, a, w := FirstProfileRotated();
    var e2, s2 := FirstProfileLocked(lib, e1, s1, a, w, 1, Unlock(FIRST_PASSWORD));
    ReachedIsCoupled(lib, e2, s2, a, w);
    LenientMeansOneKey(lib, FIRST_PASSWORD, SECOND_PASSWORD, ManifestIn(s2.entries[USER]).kdf);
    SameKeyIsUnforged(lib, e2, 1);
    UnforgedUnlockIsFair(lib, w, s2, 1);
    PasswordUnlocksIff(lib, e2, 1);
    OneMoreIff(lib, e2, By(1, Authenticated));
    SecondRotationIsTaken(lib);
  }

  // --------------------------------------- a tree that cannot be opened again

  const FOLDER: Path := [[100]]
  const INSIDE: Path := [[100], [102]]
  const CLOSED_FOLDER: Tree := map[FOLDER := Dir(false), INSIDE := File([])]
  const CLOSED_LISTING: seq<Entry> :=
    [Entry([], Directory, [], true), Entry(FOLDER, Directory, [], false), Entry(INSIDE, Regular, [], true)]

  lemma ClosedFolderIsATree()
    ensures WellFormedTree(CLOSED_FOLDER) && Restorable(CLOSED_FOLDER) == CLOSED_FOLDER && !Refillable(CLOSED_FOLDER)
  {
    assert Parent(INSIDE) == FOLDER && Parent(FOLDER) == [];
    assert INSIDE in Restorable(CLOSED_FOLDER) && !CanHold(CLOSED_FOLDER, Parent(INSIDE));
  }

  lemma ClosedFolderIsListed()
    ensures Lists(CLOSED_LISTING, CLOSED_FOLDER)
  {
    assert Parent(INSIDE) == FOLDER && Parent(FOLDER) == [];
    assert CLOSED_LISTING[..2][1].path == FOLDER;
    assert CLOSED_LISTING[1].path == FOLDER && CLOSED_LISTING[2].path == INSIDE;
  }

  lemma OneMoreListed<T>(code: T -> bytes, x: T, xs: seq<T>)
    ensures |LibraryLaws.ListCode(code, [x] + xs)| == 1 + |code(x)| + |LibraryLaws.ListCode(code, xs)|
  {
    assert ([x] + xs)[1..] == xs;
  }

  lemma ClosedFolderFits(lib: Lib)
    requires Lenient(lib)
    ensures CanSeal(lib, SEED, CLOSED_LISTING)
  {
    var l := CLOSED_LISTING;
    OneMoreListed(LibraryLaws.EntryCode, l[2], []);
    OneMoreListed(LibraryLaws.EntryCode, l[1], [l[2]]);
    OneMoreListed(LibraryLaws.EntryCode, l[0], [l[1], l[2]]);
    assert [l[1]] + [l[2]] == [l[1], l[2]] && [l[0]] + [l[1], l[2]] == l && [l[2]] + [] == [l[2]];
    OneMoreListed(LibraryLaws.TextCode, [100], []);
    OneMoreListed(LibraryLaws.TextCode, [102], []);
    OneMoreListed(LibraryLaws.TextCode, [100], [[102]]);
    OneMoreListed(LibraryLaws.ByteCode, 100, []);
    OneMoreListed(LibraryLaws.ByteCode, 102, []);
    SmallArchiveFits(lib, l);
  }

  /** The session whose folder does not let go of the file inside: its state is replaced, the removal of its
      runtime directory fails, and so does `close`. */
  lemma FirstProfileFailsToClose(lib: Lib, e0: seq<Event>, s0: State, a: Vault, w: seq<HonestWrap>)
    returns (es: seq<Event>, s: State, a2: Vault)
    requires Reaches(lib, e0, s0, a, w) && AtRest(s0) && s0.runtimes == map[] && s0.orphans == {}
    requires s0.entries[USER].temps == map[] && ManifestIn(s0.entries[USER]).createdAt != 0
    requires USER in a && a[USER].password == FIRST_PASSWORD && a[USER].tree == map[]
    requires WellFormedTree(CLOSED_FOLDER) && Lists(CLOSED_LISTING, CLOSED_FOLDER) && CanSeal(lib, SEED, CLOSED_LISTING)
    ensures Reaches(lib, es, s, a2, w) && AtRest(s) && s.entries.Keys == s0.entries.Keys
    ensures s.orphans == {RuntimePath([], ManifestIn(s0.entries[USER]).id)}
    ensures ManifestIn(s.entries[USER]) == ManifestIn(s0.entries[USER])
    ensures USER in a2 && a2[USER] == a[USER].(tree := Restorable(CLOSED_FOLDER))
    ensures es == e0 + FailingSession(0)
  {
    hide Reaches, Lists, WellFormedTree, CanSeal, Refillable, Restorable, CanClear, Entering;
    var e1, s1 := FirstProfileOpened(lib, e0, s0, a, w, 0);
    var s2 := SessionCanBeEdited(lib, e1, s1, a, w, 0, CLOSED_FOLDER);
    var e2 := e1 + [By(0, Edit(CLOSED_FOLDER))];
    var s3, d := SessionCanBeSealed(lib, e2, s2, a, w, 0, [], SEED, CLOSED_LISTING);
    a2 := a[USER := a[USER].(tree := Restorable(CLOSED_FOLDER))];
    var e3 := e2 + Closing(0, [], SEED, CLOSED_LISTING);
    s := SessionCanBeLeft(lib, e3, s3, a2, w, 0, false, CLOSED_FOLDER);
    es := e3 + Leaving(0, false, CLOSED_FOLDER);
    assert es == e0 + FailingSession(0);
  }

  function FailingSession(p: Pid): seq<Event> {
    Entering(p, FIRST_PASSWORD) + Opening(p, []) + [By(p, Edit(CLOSED_FOLDER))]
    + Closing(p, [], SEED, CLOSED_LISTING) + Leaving(p, false, CLOSED_FOLDER)
  }

  lemma FailingSessionIsCalm(p: Pid)
    ensures Calm(FailingSession(p))
  {
    EnteringAndOpeningAreCalm(p, []);
    var closing := [By(p, Edit(CLOSED_FOLDER))] + Closing(p, [], SEED, CLOSED_LISTING);
    var opening, leaving := Entering(p, FIRST_PASSWORD) + Opening(p, []), Leaving(p, false, CLOSED_FOLDER);
    assert Calm(closing) && Calm(leaving);
    CalmTogether(opening, closing);
    CalmTogether(opening + closing, leaving);
    assert FailingSession(p) == opening + closing + leaving;
  }

  /** The close of a session replaces the profile's state and then fails to remove the runtime directory,
      although nobody dies and nobody interferes. The next owner, with the lock, the password and a free
      runtime path, cannot open the profile. */
  lemma ResealedProfileMayNotReopen()
    ensures exists lib: Lib, es, p: Pid, root ::
              && Run(lib, es) && Calm(es) && Of(StoreAfter(lib, es), p).Keyed?
              && LastClose(lib, es, Of(StoreAfter(lib, es), p).name).Interrupted?
              && RuntimePath(root, Of(StoreAfter(lib, es), p).id) !in StoreAfter(lib, es).orphans
              && After(lib, es + [By(p, MakeRuntime(root))] + [By(p, Opened)]).None?
  {
    hide Reaches, Lenient, Next, Run, StoreAfter, VaultAfter, Wraps, Inv, After, Refillable, Lists, WellFormedTree,
         CanSeal, LastClose, Calm, Entering, FailingSession, Restorable;
    ClosedFolderIsATree();
    ClosedFolderIsListed();
    var lib, e0, s0, a, w := FirstProfile(1);
    ClosedFolderFits(lib);
    var e1, s1, a1 := FirstProfileFailsToClose(lib, e0, s0, a, w);
    var e2, s2 := FirstProfileKeyed(lib, e1, s1, a1, w, 1, FIRST_PASSWORD);
    FailingSessionIsCalm(0);
    EnteringAndOpeningAreCalm(1, []);
    CalmTogether(e0, FailingSession(0));
    CalmTogether(e1, Entering(1, FIRST_PASSWORD));
    ReachedIsCoupled(lib, e2, s2, a1, w);
    KeyedGetsInIff(lib, e2, 1, [1]);
    LastCloseTells(lib, e2, USER);
  }
}
