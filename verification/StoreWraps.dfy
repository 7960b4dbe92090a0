/** Who gets through: the wraps the processes make, the assumption that nobody forges one, and why then a
    password that gets through derives the current wrapping key. */
module StoreWraps {
  import opened Wrappers
  import opened Bytes
  import opened Libraries
  import opened Manifest
  import opened KeyWrap
  import opened Trees
  import opened Archive
  import opened StoreModel
  import opened StoreInvariant
  import opened StoreFrames
  import opened StoreRenames
  import opened StoreIsolation

  // -------------------------------------------------- wraps and assumption

  /** The manifest in the directory a process has locked. */
  function ManifestAt(s: State, proc: Proc): Option<UserManifest> {
    if proc.Locked? && proc.name in s.entries && HasManifest(s.entries[proc.name])
    then Some(ManifestIn(s.entries[proc.name])) else None
  }

  /** The wrap an event makes, if it makes one: creations and rotations do. */
  function WrapMade(lib: Lib, s: State, e: Event): Option<HonestWrap> {
    if !e.By? then None else
    var proc := Of(s, e.p);
    match e.act
    case FinishManifest(newKey, salt, iv, id, createdAt) =>
      if !proc.AddStaged? then None else
      var m :- Rewrap(lib, NewHeader(lib, proc.user, id, createdAt, salt), newKey, proc.password, salt, iv);
      Some(HonestWrap(m, proc.password, newKey, iv))
    case Authenticated =>
      if !proc.Locked? || !proc.job.ChangePassword? then None else
      var m :- ManifestAt(s, proc);
      var key :- Authenticate(lib, m, proc.job.currentPassword);
      var r := proc.job.rotation;
      var renewed :- Rewrap(lib, m, key, r.newPassword, r.salt, r.iv);
      Some(HonestWrap(renewed, r.newPassword, key, r.iv))
    case _ => None
  }

  function Logged(lib: Lib, wraps: seq<HonestWrap>, s: State, e: Event): seq<HonestWrap> {
    if WrapMade(lib, s, e).Some? then wraps + [WrapMade(lib, s, e).value] else wraps
  }

  ghost predicate FreshSalt(wraps: seq<HonestWrap>, salt: bytes) {
    forall k :: 0 <= k < |wraps| ==> wraps[k].m.kdf.salt != salt
  }

  /** The assumption on one event of a run: a random salt has not been drawn before, and a password that
      opens a wrapped key opens one that was honestly wrapped, under the key it was wrapped with. */
  ghost predicate Fair(lib: Lib, wraps: seq<HonestWrap>, s: State, e: Event) {
    && (WrapMade(lib, s, e).Some? ==> FreshSalt(wraps, WrapMade(lib, s, e).value.m.kdf.salt))
    && (e.By? && e.act.Authenticated? && ManifestAt(s, Of(s, e.p)).Some? ==>
          Unforged(lib, wraps, ManifestAt(s, Of(s, e.p)).value, JobPassword(Of(s, e.p).job)))
  }

  ghost predicate Unforged(lib: Lib, wraps: seq<HonestWrap>, m: UserManifest, password: bytes) {
    Authenticate(lib, m, password).Some? ==> PresentsLogged(lib, password, wraps, m)
  }

  lemma QuietIsFair(lib: Lib, wraps: seq<HonestWrap>, s: State, p: Pid, act: Action)
    requires !act.FinishManifest? && !act.Authenticated?
    ensures Fair(lib, wraps, s, By(p, act))
  {
  }

  // ----------------------------------------------------- the second invariant

  ghost predicate Made(wraps: seq<HonestWrap>, m: UserManifest, password: bytes) {
    exists k :: 0 <= k < |wraps| && wraps[k].m == m && wraps[k].password == password
  }

  ghost predicate WrapsOk(lib: Lib, wraps: seq<HonestWrap>) {
    && (forall k :: 0 <= k < |wraps| ==> WrappedHonestly(lib, wraps[k]))
    && (forall j, k :: 0 <= j < k < |wraps| ==> wraps[j].m.kdf.salt != wraps[k].m.kdf.salt)
  }

  /** The manifest of a published profile was made for its current password. */
  ghost predicate PublishedMade(s: State, a: Vault, wraps: seq<HonestWrap>) {
    forall n :: n in a ==>
        n in s.entries && HasManifest(s.entries[n]) && Made(wraps, ManifestIn(s.entries[n]), a[n].password)
  }

  /** And so was one that is still staged, or waits to replace another. */
  ghost predicate PendingMade(s: State, p: Pid, wraps: seq<HonestWrap>) {
    var proc := Of(s, p);
    && (proc.AddStaged? && proc.dataKey.Some? && proc.stage in s.entries && HasManifest(s.entries[proc.stage]) ==>
          Made(wraps, ManifestIn(s.entries[proc.stage]), proc.password))
    && (proc.Rotating? ==> Made(wraps, proc.manifest, proc.newPassword))
  }

  ghost predicate AllMade(lib: Lib, s: State, a: Vault, wraps: seq<HonestWrap>) {
    WrapsOk(lib, wraps) && PublishedMade(s, a, wraps) && forall p :: PendingMade(s, p, wraps)
  }

  // ---------------------------------------------------- what it is good for

  /** Under the assumption, a password that gets through derives the current wrapping key. */
  lemma LoggedMeansCurrent(lib: Lib, wraps: seq<HonestWrap>, m: UserManifest, current: bytes, password: bytes)
    requires lib.CipherLaws() && WrapsOk(lib, wraps) && Made(wraps, m, current)
    requires Authenticate(lib, m, password).Some? && Unforged(lib, wraps, m, password)
    ensures DeriveKey(lib, password, m.kdf) == DeriveKey(lib, current, m.kdf)
  {
    hide DeriveKey, Authenticate, WrappedHonestly, PresentsLogged;
    WrappingBindsHeader(lib, wraps, m, password);
    var w :| w in wraps && Header(w.m) == Header(m)
        && DeriveKey(lib, w.password, m.kdf) == DeriveKey(lib, password, m.kdf);
    assert w.m.kdf == Header(w.m).kdf && m.kdf == Header(m).kdf;
    var j :| 0 <= j < |wraps| && wraps[j] == w;
    var k :| 0 <= k < |wraps| && wraps[k].m == m && wraps[k].password == current;
    assert j == k;
  }

  lemma SameKeyIsLogged(lib: Lib, wraps: seq<HonestWrap>, m: UserManifest, current: bytes, password: bytes)
    requires WrapsOk(lib, wraps) && Made(wraps, m, current)
    requires DeriveKey(lib, password, m.kdf) == DeriveKey(lib, current, m.kdf)
    ensures PresentsLogged(lib, password, wraps, m)
  {
    hide DeriveKey, Encoding;
    var k :| 0 <= k < |wraps| && wraps[k].m == m && wraps[k].password == current;
    assert WrappedHonestly(lib, wraps[k]);
    assert Presents(lib, password, wraps[k], m);
  }

  /** The exact condition: a password opens a profile's key if and only if it derives the same wrapping
      key as the current password, so after a rotation the old one is refused unless Argon2id maps the
      two to one key under the new salt. */
  lemma OpensIffSameKey(lib: Lib, wraps: seq<HonestWrap>, m: UserManifest, current: bytes, password: bytes)
    requires lib.CipherLaws() && WrapsOk(lib, wraps) && Made(wraps, m, current)
    requires Authenticate(lib, m, current).Some? && Unforged(lib, wraps, m, password)
    ensures Authenticate(lib, m, password).Some? <==> DeriveKey(lib, password, m.kdf) == DeriveKey(lib, current, m.kdf)
  {
    hide Unforged, WrapsOk, Made, DeriveKey;
    if Authenticate(lib, m, password).Some? {
      hide Authenticate;
      LoggedMeansCurrent(lib, wraps, m, current, password);
    } else {
      hide Authenticate;
      if DeriveKey(lib, password, m.kdf) == DeriveKey(lib, current, m.kdf) {
        SameWrappingKeySameDataKey(lib, m, password, current);
      }
    }
  }

  /** Whoever gets past the check had a manifest that authenticates. */
  lemma EnteringAuthenticates(lib: Lib, s: State, p: Pid)
    requires Next(lib, s, By(p, Authenticated)).Some?
    ensures Of(s, p).Locked? && ManifestAt(s, Of(s, p)).Some?
    ensures var m := ManifestAt(s, Of(s, p)).value;
            && Authenticate(lib, m, JobPassword(Of(s, p).job)).Some?
            && (Of(s, p).job.ChangePassword? ==> WrapMade(lib, s, By(p, Authenticated)).Some?)
  {
    hide DeriveKey, Encoding, Rewrap, Authenticate, Validates, UserDirectory, EqualUpToCase;
  }

  lemma FairIsGenuine(lib: Lib, s: State, a: Vault, wraps: seq<HonestWrap>, e: Event)
    requires lib.Lawful() && AllMade(lib, s, a, wraps) && Next(lib, s, e).Some? && Fair(lib, wraps, s, e)
    ensures Genuine(s, a, lib, e)
  {
    hide Next, WrapsOk, Made, DeriveKey, Unforged, Authenticate, WrapMade, Moves;
    if e.By? && e.act.Authenticated? && Of(s, e.p).Locked? && Of(s, e.p).name in a {
      EnteringAuthenticates(lib, s, e.p);
      var proc := Of(s, e.p);
      LoggedMeansCurrent(lib, wraps, ManifestAt(s, proc).value, a[proc.name].password, JobPassword(proc.job));
    }
  }

  // ------------------------------------------------------- its preservation

  lemma MadeStays(wraps: seq<HonestWrap>, w: HonestWrap, m: UserManifest, password: bytes)
    requires Made(wraps, m, password)
    ensures Made(wraps + [w], m, password)
  {
    var k :| 0 <= k < |wraps| && wraps[k].m == m && wraps[k].password == password;
    assert (wraps + [w])[k] == wraps[k];
  }

  lemma MadeNow(wraps: seq<HonestWrap>, w: HonestWrap)
    ensures Made(wraps + [w], w.m, w.password)
  {
    assert (wraps + [w])[|wraps|] == w;
  }

  /** Every wrap is made honestly. */
  lemma WrapIsHonest(lib: Lib, s: State, e: Event)
    requires lib.Lawful() && WrapMade(lib, s, e).Some?
    ensures WrappedHonestly(lib, WrapMade(lib, s, e).value)
  {
    var proc, act := Of(s, e.p), e.act;
    hide Rewrap, WrappedHonestly, Authenticate;
    if act.FinishManifest? {
      RewrapIsHonest(lib, NewHeader(lib, proc.user, act.id, act.createdAt, act.salt), act.newKey, proc.password,
          act.salt, act.iv);
    } else {
      var m, r := ManifestAt(s, proc).value, proc.job.rotation;
      RewrapIsHonest(lib, m, Authenticate(lib, m, proc.job.currentPassword).value, r.newPassword, r.salt, r.iv);
    }
  }

  lemma WrapsStayOk(lib: Lib, s: State, wraps: seq<HonestWrap>, e: Event)
    requires lib.Lawful() && WrapsOk(lib, wraps) && Fair(lib, wraps, s, e)
    ensures WrapsOk(lib, Logged(lib, wraps, s, e))
  {
    hide WrapMade, WrappedHonestly, Unforged;
    if WrapMade(lib, s, e).Some? {
      WrapIsHonest(lib, s, e);
    }
  }

  /** What a creation or a rotation leaves with the process is what it has just wrapped. */
  lemma WrapIsKept(lib: Lib, s: State, p: Pid, act: Action)
    requires Next(lib, s, By(p, act)).Some?
    ensures act.FinishManifest? ==>
              var to := Of(Next(lib, s, By(p, act)).value, p);
              var w, d := WrapMade(lib, s, By(p, act)), Next(lib, s, By(p, act)).value.entries;
              && w.Some? && to.AddStaged? && to.stage in d && d[to.stage].manifest == Some(Whole(w.value.m))
              && to.password == w.value.password
    ensures act.Authenticated? && Of(s, p).Locked? && Of(s, p).job.ChangePassword? ==>
              var to, w := Of(Next(lib, s, By(p, act)).value, p), WrapMade(lib, s, By(p, act));
              w.Some? && to.Rotating? && to.manifest == w.value.m && to.newPassword == w.value.password
  {
    hide Rewrap, Authenticate, Validates, UserDirectory, EqualUpToCase, NewHeader, FreshId;
  }

  /** Filling a staging directory leaves a manifest that is there as it is. */
  lemma FillingKeepsManifest(lib: Lib, s: State, p: Pid, act: Action)
    requires Next(lib, s, By(p, act)).Some?
    requires act.BeginManifest? || act.BeginState? || act.FinishState? || act.PlaceState?
    ensures var s2, stage := Next(lib, s, By(p, act)).value, Of(s, p).stage;
            && Of(s, p).AddStaged? && stage in s.entries && stage in s2.entries
            && (HasManifest(s2.entries[stage]) ==> s2.entries[stage].manifest == s.entries[stage].manifest)
  {
    hide Lists, CanSeal, SealedFile;
  }

  lemma OwnPendingStays(lib: Lib, s: State, wraps: seq<HonestWrap>, p: Pid, act: Action)
    requires PendingMade(s, p, wraps) && Next(lib, s, By(p, act)).Some?
    ensures PendingMade(Next(lib, s, By(p, act)).value, p, Logged(lib, wraps, s, By(p, act)))
  {
    hide Next, WrapMade, Made, UserDirectory;
    EveryStepMoves(lib, s, p, act);
    if act.FinishManifest? || act.Authenticated? {
      WrapIsKept(lib, s, p, act);
      if WrapMade(lib, s, By(p, act)).Some? {
        MadeNow(wraps, WrapMade(lib, s, By(p, act)).value);
      }
    } else {
      OthersWrapNothing(lib, s, p, act);
      if act.BeginManifest? || act.BeginState? || act.FinishState? || act.PlaceState? {
        FillingKeepsManifest(lib, s, p, act);
      }
    }
  }

  lemma OthersWrapNothing(lib: Lib, s: State, p: Pid, act: Action)
    requires !act.FinishManifest? && !act.Authenticated?
    ensures WrapMade(lib, s, By(p, act)).None?
  {
  }

  lemma OthersPendingStays(lib: Lib, s: State, a: Vault, wraps: seq<HonestWrap>, e: Event, p: Pid)
    requires Inv(lib, s, a) && PendingMade(s, p, wraps) && Next(lib, s, e).Some? && !IsBy(e, p)
    ensures PendingMade(Next(lib, s, e).value, p, Logged(lib, wraps, s, e))
  {
    var s2, proc := Next(lib, s, e).value, Of(s, p);
    if WrapMade(lib, s, e).Some? {
      LoggingForgetsNothing(s, p, wraps, WrapMade(lib, s, e).value);
    }
    hide Inv, Knows, ProfileOk, WrapMade, Made;
    Extract(lib, s, a, p);
    if e.By? {
      hide Next;
      EveryStepKeepsToItsOwn(lib, s, e.p, e.act);
      NothingIsShared(lib, s, a, e.p, p);
      if proc.AddStaged? {
        OnlyRenamesChangeFiles(lib, s, a, e.p, e.act, proc.stage);
      }
    }
  }

  lemma LoggingForgetsNothing(s: State, p: Pid, wraps: seq<HonestWrap>, w: HonestWrap)
    requires PendingMade(s, p, wraps)
    ensures PendingMade(s, p, wraps + [w])
  {
    var proc := Of(s, p);
    if proc.AddStaged? && proc.dataKey.Some? && proc.stage in s.entries && HasManifest(s.entries[proc.stage]) {
      MadeStays(wraps, w, ManifestIn(s.entries[proc.stage]), proc.password);
    }
    if proc.Rotating? {
      MadeStays(wraps, w, proc.manifest, proc.newPassword);
    }
  }

  /** A publication and a replaced manifest put what was pending in place. */
  lemma RenamePlacesPending(lib: Lib, s: State, a: Vault, wraps: seq<HonestWrap>, p: Pid, act: Action)
    requires Inv(lib, s, a) && PendingMade(s, p, wraps) && Next(lib, s, By(p, act)).Some?
    requires act.Publish? || act.ReplaceManifest?
    ensures var n := if act.Publish? then UserDirectory(Of(s, p).user) else Of(s, p).name;
            var s2, a2 := Next(lib, s, By(p, act)).value, Record(s, a, By(p, act));
            && n in a2 && n in s2.entries && HasManifest(s2.entries[n])
            && Made(wraps, ManifestIn(s2.entries[n]), a2[n].password)
  {
    hide Made, UserDirectory, ProfileOk, Inv, ManifestOk, StateOk;
    Extract(lib, s, a, p);
    RenamersAreReady(lib, s, a, p, act);
  }

  lemma PasswordChanges(s: State, a: Vault, e: Event, n: bytes)
    requires n in Record(s, a, e)
    requires e.By? && e.act.Publish? ==> Of(s, e.p).AddStaged? && UserDirectory(Of(s, e.p).user) != n
    requires e.By? && e.act.ReplaceManifest? ==> Of(s, e.p).Rotating? && Of(s, e.p).name != n
    ensures n in a && Record(s, a, e)[n].password == a[n].password
  {
    hide Restorable, UserDirectory;
  }

  lemma PublishedStays(lib: Lib, s: State, a: Vault, wraps: seq<HonestWrap>, e: Event, n: bytes)
    requires Inv(lib, s, a) && AllMade(lib, s, a, wraps) && Next(lib, s, e).Some? && n in Record(s, a, e)
    ensures var s2, a2 := Next(lib, s, e).value, Record(s, a, e);
            && n in s2.entries && HasManifest(s2.entries[n]) && Made(wraps, ManifestIn(s2.entries[n]), a2[n].password)
  {
    hide Inv, Made, UserDirectory, Record, WrapsOk, Moves;
    if e.By? {
      hide Next;
      EveryStepMoves(lib, s, e.p, e.act);
      MovesToRename(Of(s, e.p), e.act, Of(Next(lib, s, e).value, e.p));
      if (e.act.Publish? && UserDirectory(Of(s, e.p).user) == n) || (e.act.ReplaceManifest? && Of(s, e.p).name == n) {
        RenamePlacesPending(lib, s, a, wraps, e.p, e.act);
      } else {
        PasswordChanges(s, a, e, n);
        OnlyRenamesChangeProfiles(lib, s, a, e.p, e.act, n);
      }
    } else {
      PasswordChanges(s, a, e, n);
    }
  }

  lemma MovesToRename(proc: Proc, act: Action, to: Proc)
    requires Moves(proc, act, to)
    ensures act.Publish? ==> proc.AddStaged?
    ensures act.ReplaceManifest? ==> proc.Rotating?
  {
    hide UserDirectory;
  }

  lemma EveryPublishedStays(lib: Lib, s: State, a: Vault, wraps: seq<HonestWrap>, e: Event)
    requires Inv(lib, s, a) && AllMade(lib, s, a, wraps) && Next(lib, s, e).Some?
    ensures PublishedMade(Next(lib, s, e).value, Record(s, a, e), Logged(lib, wraps, s, e))
  {
    hide Inv, Next, Record, Made, AllMade, WrapMade;
    var s2, a2 := Next(lib, s, e).value, Record(s, a, e);
    forall n | n in a2
      ensures n in s2.entries && HasManifest(s2.entries[n])
      ensures Made(Logged(lib, wraps, s, e), ManifestIn(s2.entries[n]), a2[n].password)
    {
      PublishedStays(lib, s, a, wraps, e, n);
      if WrapMade(lib, s, e).Some? {
        MadeStays(wraps, WrapMade(lib, s, e).value, ManifestIn(s2.entries[n]), a2[n].password);
      }
    }
  }

  /** Every event keeps it: manifests on disk were made by the processes, for the recorded passwords. */
  lemma EveryEventKeepsMade(lib: Lib, s: State, a: Vault, wraps: seq<HonestWrap>, e: Event)
    requires lib.Lawful() && Inv(lib, s, a) && AllMade(lib, s, a, wraps)
    requires Next(lib, s, e).Some? && Fair(lib, wraps, s, e)
    ensures AllMade(lib, Next(lib, s, e).value, Record(s, a, e), Logged(lib, wraps, s, e))
  {
    hide Inv, Next, Record, PendingMade, PublishedMade, Logged, WrapsOk, Fair;
    WrapsStayOk(lib, s, wraps, e);
    EveryPublishedStays(lib, s, a, wraps, e);
    forall p
      ensures PendingMade(Next(lib, s, e).value, p, Logged(lib, wraps, s, e))
    {
      if IsBy(e, p) {
        OwnPendingStays(lib, s, wraps, p, e.act);
      } else {
        OthersPendingStays(lib, s, a, wraps, e, p);
      }
    }
  }
}
