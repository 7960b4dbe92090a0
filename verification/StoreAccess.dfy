/** Who gets into a profile and who does not: leftover runtime directories, and passwords. */
module StoreAccess {
  import opened Wrappers
  import opened Bytes
  import opened Libraries
  import opened Trees
  import opened Manifest
  import opened KeyWrap
  import opened Archive
  import opened StoreModel
  import opened StoreInvariant
  import opened StoreFrames
  import opened StoreWraps
  import opened StoreTheorems

  // ---------------------------------------------------- leftover directories

  /** A crash, a failed cleanup, or a directory put into a runtime root from outside. */
  predicate Trouble(e: Event) {
    e.Plant? || (e.By? && (e.act.Crash? || (e.act.CleanUp? && !e.act.removed)))
  }

  /** No crash, no failed cleanup, nothing put into the runtime root from outside. */
  ghost predicate TroubleFree(es: seq<Event>) {
    forall i :: 0 <= i < |es| ==> !Trouble(es[i])
  }

  lemma {:induction false} NoOrphans(lib: Lib, es: seq<Event>)
    requires Run(lib, es) && TroubleFree(es)
    ensures StoreAfter(lib, es).orphans == {}
    decreases |es|
  {
    if es != [] {
      var before, e := es[..|es| - 1], es[|es| - 1];
      Shorter(lib, es);
      hide Run, StoreAfter, VaultAfter, Record, Next, Genuine;
      NoOrphans(lib, before);
      OrphansOnlyFromTrouble(lib, StoreAfter(lib, before), e);
    }
  }

  lemma CreatingOrphansNothing(lib: Lib, s: State, p: Pid, act: Action)
    ensures NextAdd(s, p, act).Some? ==> NextAdd(s, p, act).value.orphans == s.orphans
    ensures IsStaged(act) && NextStaged(lib, s, p, act).Some? ==> NextStaged(lib, s, p, act).value.orphans == s.orphans
  {
    hide Rewrap, NewHeader, Lists, CanSeal, SealedFile, UserDirectory, FreshId;
  }

  lemma EnteringOrphansNothing(lib: Lib, s: State, p: Pid, act: Action)
    ensures NextLock(lib, s, p, act).Some? ==> NextLock(lib, s, p, act).value.orphans == s.orphans
    ensures act.BeginRotation? || act.FinishRotation? || act.ReplaceManifest? ==>
              NextRotate(s, p, act).Some? ==> NextRotate(s, p, act).value.orphans == s.orphans
  {
    hide Authenticate, Rotate, Validates, UserDirectory, EqualUpToCase;
  }

  lemma SessionsOrphanNothing(lib: Lib, s: State, p: Pid, act: Action)
    ensures NextSession(lib, s, p, act).Some? ==> NextSession(lib, s, p, act).value.orphans == s.orphans
    ensures act.BeginSeal? || act.FinishSeal? || act.ReplaceState? ==>
              NextSeal(lib, s, p, act).Some? ==> NextSeal(lib, s, p, act).value.orphans == s.orphans
  {
    hide Unseal, Lists, CanSeal, SealedFile, WellFormedTree;
  }

  lemma OrphansOnlyFromTrouble(lib: Lib, s: State, e: Event)
    requires Next(lib, s, e).Some? && !Trouble(e)
    ensures Next(lib, s, e).value.orphans <= s.orphans
  {
    hide NextAdd, NextStaged, NextLock, NextRotate, NextSession, NextSeal;
    if e.By? {
      CreatingOrphansNothing(lib, s, e.p, e.act);
      EnteringOrphansNothing(lib, s, e.p, e.act);
      SessionsOrphanNothing(lib, s, e.p, e.act);
    }
  }

  lemma KeyedKnowsId(lib: Lib, s: State, a: Vault, p: Pid)
    requires ProcOk(lib, s, a, p) && Of(s, p).Keyed?
    ensures IsIdOf(s, Of(s, p).name, Of(s, p).id)
  {
  }

  lemma OnlyOrphansAreInTheWay(lib: Lib, s: State, a: Vault, p: Pid, root: bytes)
    requires Inv(lib, s, a) && Of(s, p).Keyed?
    ensures var path := RuntimePath(root, Of(s, p).id); path in s.runtimes <==> path in s.orphans
  {
    hide ProfileOk, Knows;
    var path := RuntimePath(root, Of(s, p).id);
    assert ProcOk(lib, s, a, p);
    assert IsIdOf(s, Of(s, p).name, path.id) by {
      KeyedKnowsId(lib, s, a, p);
    }
    if path !in s.orphans {
      forall q
        ensures RuntimeOf(Of(s, q)) != Some(path)
      {
        assert ProcOk(lib, s, a, q);
      }
    }
  }

  /** The exact condition, in any run: a process with the lock and the key can create its runtime
      directory if and only if nothing is left over under that runtime root. */
  lemma RuntimeIsFreeIff(lib: Lib, es: seq<Event>, p: Pid, root: bytes)
    requires Run(lib, es) && Of(StoreAfter(lib, es), p).Keyed?
    ensures var s := StoreAfter(lib, es);
            Next(lib, s, By(p, MakeRuntime(root))).Some? <==> RuntimePath(root, Of(s, p).id) !in s.orphans
  {
    EveryRunKeepsInv(lib, es);
    hide Run, StoreAfter, VaultAfter, Inv;
    OnlyOrphansAreInTheWay(lib, StoreAfter(lib, es), VaultAfter(lib, es), p, root);
  }

  /** In particular it never meets a leftover in a run without trouble, whatever runtime root it uses. */
  lemma NoLeftoverRuntime(lib: Lib, es: seq<Event>, p: Pid, root: bytes)
    requires Run(lib, es) && TroubleFree(es) && Of(StoreAfter(lib, es), p).Keyed?
    ensures Next(lib, StoreAfter(lib, es), By(p, MakeRuntime(root))).Some?
  {
    hide Run, StoreAfter, Next;
    NoOrphans(lib, es);
    RuntimeIsFreeIff(lib, es, p, root);
  }

  /** A process that dies with a runtime directory gives its lock back but leaves the directory over. */
  lemma DeathLeavesRuntime(lib: Lib, es: seq<Event>, p: Pid)
    requires Run(lib, es) && RuntimeOf(Of(StoreAfter(lib, es), p)).Some?
    ensures var dead, proc := es + [By(p, Crash)], Of(StoreAfter(lib, es), p);
            && Run(lib, dead)
            && (proc.Extracting? || proc.Session? || proc.Sealing? || proc.Cleaning?)
            && proc.name !in StoreAfter(lib, dead).locks
            && proc.path in StoreAfter(lib, dead).orphans && proc.path in StoreAfter(lib, dead).runtimes
  {
    hide Run, StoreAfter, VaultAfter, Wraps, Inv, Next, Fair, RuntimeOf;
    EveryRunKeepsInv(lib, es);
    CrashLeavesRuntime(lib, StoreAfter(lib, es), VaultAfter(lib, es), p);
    QuietIsFair(lib, Wraps(lib, es), StoreAfter(lib, es), p, Crash);
    OneMore(lib, es, By(p, Crash));
  }

  lemma CrashLeavesRuntime(lib: Lib, s: State, a: Vault, p: Pid)
    requires Inv(lib, s, a) && RuntimeOf(Of(s, p)).Some?
    ensures Next(lib, s, By(p, Crash)).Some?
    ensures var s2, proc := Next(lib, s, By(p, Crash)).value, Of(s, p);
            && (proc.Extracting? || proc.Session? || proc.Sealing? || proc.Cleaning?)
            && proc.name !in s2.locks && proc.path in s2.orphans && proc.path in s2.runtimes
  {
    hide Inv, Knows, ProfileOk;
    Extract(lib, s, a, p);
  }

  /** From then on the profile cannot be unlocked under that runtime root, by anybody and with any
      password, until somebody clears the leftover away. */
  lemma {:induction false} LeftoverStays(lib: Lib, es: seq<Event>, i: nat, path: RuntimePath)
    requires Run(lib, es) && i <= |es| && Run(lib, es[..i]) && path in StoreAfter(lib, es[..i]).orphans
    requires forall k :: i <= k < |es| ==> es[k] != Sweep(path)
    ensures path in StoreAfter(lib, es).orphans
    decreases |es|
  {
    if i == |es| {
      assert es[..i] == es;
    } else {
      var before, e := es[..|es| - 1], es[|es| - 1];
      assert before[..i] == es[..i];
      Shorter(lib, es);
      hide Run, StoreAfter, VaultAfter, Record, Next, Fair;
      assert forall k :: i <= k < |before| ==> before[k] == es[k];
      LeftoverStays(lib, before, i, path);
      OnlySweepingClears(lib, StoreAfter(lib, before), e, path);
    }
  }

  lemma OnlySweepingClears(lib: Lib, s: State, e: Event, path: RuntimePath)
    requires Next(lib, s, e).Some? && path in s.orphans && e != Sweep(path)
    ensures path in Next(lib, s, e).value.orphans
  {
    hide NextAdd, NextStaged, NextLock, NextRotate, NextSession, NextSeal;
    if e.By? {
      CreatingOrphansNothing(lib, s, e.p, e.act);
      EnteringOrphansNothing(lib, s, e.p, e.act);
      SessionsOrphanNothing(lib, s, e.p, e.act);
    }
  }

  lemma LeftoverRefusesUnlock(lib: Lib, es: seq<Event>, i: nat, p: Pid, root: bytes)
    requires Run(lib, es) && i <= |es| && Run(lib, es[..i]) && Of(StoreAfter(lib, es), p).Keyed?
    requires RuntimePath(root, Of(StoreAfter(lib, es), p).id) in StoreAfter(lib, es[..i]).orphans
    requires forall k :: i <= k < |es| ==> es[k] != Sweep(RuntimePath(root, Of(StoreAfter(lib, es), p).id))
    ensures Next(lib, StoreAfter(lib, es), By(p, MakeRuntime(root))).None?
  {
    hide Run, StoreAfter, Next;
    LeftoverStays(lib, es, i, RuntimePath(root, Of(StoreAfter(lib, es), p).id));
    RuntimeIsFreeIff(lib, es, p, root);
  }

  // --------------------------------------------------------------- passwords

  /** The manifest a process has locked is its profile's. */
  lemma LockedManifest(lib: Lib, s: State, a: Vault, p: Pid)
    requires Inv(lib, s, a) && Of(s, p).Locked?
    ensures var proc := Of(s, p);
            && proc.name in a && proc.name in s.entries && HasManifest(s.entries[proc.name])
            && ManifestAt(s, proc) == Some(ManifestIn(s.entries[proc.name]))
            && EqualUpToCase(ManifestIn(s.entries[proc.name]).username, proc.user)
            && ManifestOk(lib, proc.name, ManifestIn(s.entries[proc.name]), a[proc.name].password, a[proc.name].key)
  {
    hide Inv, Authenticate, StateOk, Validates;
    var proc := Of(s, p);
    Extract(lib, s, a, p);
    SharedDirectory(ManifestIn(s.entries[proc.name]).username, proc.user);
  }

  lemma UnlockChecks(lib: Lib, s: State, p: Pid)
    requires Of(s, p).Locked? && Of(s, p).job.Unlock? && ManifestAt(s, Of(s, p)).Some?
    requires EqualUpToCase(ManifestAt(s, Of(s, p)).value.username, Of(s, p).user)
    ensures var m := ManifestAt(s, Of(s, p)).value;
            Next(lib, s, By(p, Authenticated)).Some?
            <==> Validates(lib, m) && Authenticate(lib, m, Of(s, p).job.password).Some?
  {
    hide Authenticate, Validates, EqualUpToCase;
  }

  /** The exact condition: with the lock in hand, a password unlocks a profile if and only if the profile
      was not created at second 0 and the password derives the same wrapping key as the current one.
      After a rotation the old password is therefore refused, unless Argon2id maps the two passwords to
      one key under the new salt. */
  lemma PasswordUnlocksIff(lib: Lib, es: seq<Event>, p: Pid)
    requires Run(lib, es) && Of(StoreAfter(lib, es), p).Locked? && Of(StoreAfter(lib, es), p).job.Unlock?
    requires Fair(lib, Wraps(lib, es), StoreAfter(lib, es), By(p, Authenticated))
    ensures var s, a := StoreAfter(lib, es), VaultAfter(lib, es);
            var proc := Of(s, p);
            && proc.name in a && proc.name in s.entries && HasManifest(s.entries[proc.name])
            && var m := ManifestIn(s.entries[proc.name]);
            Next(lib, s, By(p, Authenticated)).Some?
            <==> && m.createdAt != 0
                 && DeriveKey(lib, proc.job.password, m.kdf) == DeriveKey(lib, a[proc.name].password, m.kdf)
  {
    hide Run, StoreAfter, VaultAfter, Wraps, Inv, Next, DeriveKey, Authenticate, Validates, EqualUpToCase, WrapMade,
         WrapsOk, Made;
    hide Unforged;
    RunIsLawful(lib, es);
    EveryRunIsSound(lib, es);
    var s, a := StoreAfter(lib, es), VaultAfter(lib, es);
    var proc := Of(s, p);
    LockedManifest(lib, s, a, p);
    var m := ManifestIn(s.entries[proc.name]);
    UnlockChecks(lib, s, p);
    OpensIffSameKey(lib, Wraps(lib, es), m, a[proc.name].password, proc.job.password);
  }

  /** A password that derives the current wrapping key forges nothing. */
  lemma SameKeyIsUnforged(lib: Lib, es: seq<Event>, p: Pid)
    requires Run(lib, es) && Of(StoreAfter(lib, es), p).Locked?
    requires ManifestAt(StoreAfter(lib, es), Of(StoreAfter(lib, es), p)).Some?
    requires Of(StoreAfter(lib, es), p).name in VaultAfter(lib, es)
    requires var s, a := StoreAfter(lib, es), VaultAfter(lib, es);
             var proc, m := Of(s, p), ManifestAt(s, Of(s, p)).value;
             DeriveKey(lib, JobPassword(proc.job), m.kdf) == DeriveKey(lib, a[proc.name].password, m.kdf)
    ensures var s := StoreAfter(lib, es);
            Unforged(lib, Wraps(lib, es), ManifestAt(s, Of(s, p)).value, JobPassword(Of(s, p).job))
  {
    hide Run, StoreAfter, VaultAfter, Wraps, Inv, WrapsOk, Made, PresentsLogged, Authenticate, DeriveKey;
    EveryRunIsSound(lib, es);
    var s, a := StoreAfter(lib, es), VaultAfter(lib, es);
    var m := ManifestIn(s.entries[Of(s, p).name]);
    SameKeyIsLogged(lib, Wraps(lib, es), m, a[Of(s, p).name].password, JobPassword(Of(s, p).job));
  }

  lemma UnforgedUnlockIsFair(lib: Lib, wraps: seq<HonestWrap>, s: State, p: Pid)
    requires Of(s, p).Locked? && Of(s, p).job.Unlock? && ManifestAt(s, Of(s, p)).Some?
    requires Unforged(lib, wraps, ManifestAt(s, Of(s, p)).value, Of(s, p).job.password)
    ensures Fair(lib, wraps, s, By(p, Authenticated)) && Logged(lib, wraps, s, By(p, Authenticated)) == wraps
  {
    hide Unforged;
  }

  /** Presenting the current password is always fair. */
  lemma OwnerIsFair(lib: Lib, es: seq<Event>, p: Pid)
    requires Run(lib, es) && Of(StoreAfter(lib, es), p).Locked? && Of(StoreAfter(lib, es), p).job.Unlock?
    requires Of(StoreAfter(lib, es), p).name in VaultAfter(lib, es)
    requires Of(StoreAfter(lib, es), p).job.password == VaultAfter(lib, es)[Of(StoreAfter(lib, es), p).name].password
    ensures Fair(lib, Wraps(lib, es), StoreAfter(lib, es), By(p, Authenticated))
    ensures Logged(lib, Wraps(lib, es), StoreAfter(lib, es), By(p, Authenticated)) == Wraps(lib, es)
  {
    hide Run, StoreAfter, VaultAfter, Wraps, Inv, Unforged, DeriveKey, Fair, Logged;
    EveryRunKeepsInv(lib, es);
    LockedManifest(lib, StoreAfter(lib, es), VaultAfter(lib, es), p);
    SameKeyIsUnforged(lib, es, p);
    UnforgedUnlockIsFair(lib, Wraps(lib, es), StoreAfter(lib, es), p);
  }

  lemma RotationChecks(lib: Lib, s: State, p: Pid)
    requires Of(s, p).Locked? && Of(s, p).job.ChangePassword? && ManifestAt(s, Of(s, p)).Some?
    requires EqualUpToCase(ManifestAt(s, Of(s, p)).value.username, Of(s, p).user)
    ensures var m, job := ManifestAt(s, Of(s, p)).value, Of(s, p).job;
            Next(lib, s, By(p, Authenticated)).Some?
            <==> Validates(lib, m) && Rotate(lib, m, job.currentPassword, job.rotation).Some?
  {
    hide Rotate, Validates, EqualUpToCase;
  }

  /** The exact condition for a rotation, with the lock in hand: the profile was not created at second 0,
      the password given as the current one derives the current wrapping key, Argon2id takes the new
      password and the new salt text can be encoded. */
  lemma RotationStartsIff(lib: Lib, es: seq<Event>, p: Pid)
    requires Run(lib, es) && Of(StoreAfter(lib, es), p).Locked? && Of(StoreAfter(lib, es), p).job.ChangePassword?
    requires Fair(lib, Wraps(lib, es), StoreAfter(lib, es), By(p, Authenticated))
    ensures var s, a := StoreAfter(lib, es), VaultAfter(lib, es);
            var proc := Of(s, p);
            && proc.name in a && proc.name in s.entries && HasManifest(s.entries[proc.name])
            && var m, r := ManifestIn(s.entries[proc.name]), proc.job.rotation;
            Next(lib, s, By(p, Authenticated)).Some?
            <==> && m.createdAt != 0
                 && DeriveKey(lib, proc.job.currentPassword, m.kdf) == DeriveKey(lib, a[proc.name].password, m.kdf)
                 && lib.argon2(r.newPassword, r.salt, 64 * 1024, 3, 1).Some? && |lib.base64(r.salt)| <= U32_MAX
  {
    hide Run, StoreAfter, VaultAfter, Wraps, Inv, Next, DeriveKey, Authenticate, Validates, EqualUpToCase, WrapMade,
         WrapsOk, Made, Rotate;
    hide Unforged;
    RunIsLawful(lib, es);
    EveryRunIsSound(lib, es);
    var s, a := StoreAfter(lib, es), VaultAfter(lib, es);
    var proc := Of(s, p);
    LockedManifest(lib, s, a, p);
    var m := ManifestIn(s.entries[proc.name]);
    RotationChecks(lib, s, p);
    OpensIffSameKey(lib, Wraps(lib, es), m, a[proc.name].password, proc.job.currentPassword);
    RotateSucceedsIff(lib, m, proc.job.currentPassword, proc.job.rotation);
  }

  lemma OneMoreIff(lib: Lib, es: seq<Event>, e: Event)
    requires Run(lib, es) && Fair(lib, Wraps(lib, es), StoreAfter(lib, es), e)
    ensures After(lib, es + [e]).Some? <==> Next(lib, StoreAfter(lib, es), e).Some?
    ensures After(lib, es + [e]).Some? ==> Run(lib, es + [e])
  {
    hide Next, Record, Fair, Logged;
    assert (es + [e])[..|es|] == es;
  }

  lemma NothingFollows(lib: Lib, es: seq<Event>, e: Event)
    requires After(lib, es).None?
    ensures After(lib, es + [e]).None?
  {
    assert (es + [e])[..|es|] == es;
  }

  lemma EnteredWithId(lib: Lib, s: State, a: Vault, p: Pid)
    requires Inv(lib, s, a) && Of(s, p).Locked? && Of(s, p).job.Unlock? && Next(lib, s, By(p, Authenticated)).Some?
    ensures var s2, name := Next(lib, s, By(p, Authenticated)).value, Of(s, p).name;
            && name in s.entries && HasManifest(s.entries[name])
            && Of(s2, p).Keyed? && Of(s2, p).name == name && Of(s2, p).id == ManifestIn(s.entries[name]).id
            && s2.orphans == s.orphans && Record(s, a, By(p, Authenticated)) == a
  {
    hide Inv, Authenticate, Validates, EqualUpToCase, UserDirectory;
    LockedManifest(lib, s, a, p);
  }

  lemma MadeRuntime(lib: Lib, s: State, a: Vault, p: Pid, root: bytes)
    requires Of(s, p).Keyed? && Next(lib, s, By(p, MakeRuntime(root))).Some?
    ensures Record(s, a, By(p, MakeRuntime(root))) == a
    ensures var s2 := Next(lib, s, By(p, MakeRuntime(root))).value;
            Of(s2, p) == Extracting(Of(s, p).name, Of(s, p).key, RuntimePath(root, Of(s, p).id))
  {
  }

  lemma StateIsOpened(lib: Lib, s: State, a: Vault, p: Pid)
    requires Inv(lib, s, a) && Of(s, p).Extracting?
    ensures Of(s, p).name in a && (Next(lib, s, By(p, Opened)).Some? <==> Refillable(a[Of(s, p).name].tree))
    ensures Next(lib, s, By(p, Opened)).Some? ==>
            var s2 := Next(lib, s, By(p, Opened)).value;
            && Of(s2, p) == Session(Of(s, p).name, Of(s, p).key, Of(s, p).path)
            && Of(s, p).path in s2.runtimes && s2.runtimes[Of(s, p).path] == a[Of(s, p).name].tree
  {
    hide Inv, ManifestOk;
    Extract(lib, s, a, p);
  }

  lemma KeyedHasProfile(lib: Lib, s: State, a: Vault, p: Pid)
    requires Inv(lib, s, a) && Of(s, p).Keyed?
    ensures Of(s, p).name in a
  {
    hide Inv, ProfileOk, ProcOk;
    Extract(lib, s, a, p);
  }

  lemma KeyedGetsInIff(lib: Lib, es: seq<Event>, p: Pid, root: bytes)
    requires Run(lib, es) && Of(StoreAfter(lib, es), p).Keyed?
    ensures var run, s := es + [By(p, MakeRuntime(root))] + [By(p, Opened)], StoreAfter(lib, es);
            var proc := Of(s, p);
            var path := RuntimePath(root, proc.id);
            && proc.name in VaultAfter(lib, es)
            && (After(lib, run).Some? <==> path !in s.orphans && Refillable(VaultAfter(lib, es)[proc.name].tree))
            && (After(lib, run).Some? ==>
                  && Run(lib, run)
                  && Of(StoreAfter(lib, run), p) == Session(proc.name, proc.key, path)
                  && path in StoreAfter(lib, run).runtimes
                  && StoreAfter(lib, run).runtimes[path] == VaultAfter(lib, es)[proc.name].tree)
  {
    hide Run, StoreAfter, VaultAfter, Wraps, After, Inv, Next, Fair, Record, Refillable;
    var s, a, making, made :=
        StoreAfter(lib, es), VaultAfter(lib, es), By(p, MakeRuntime(root)), es + [By(p, MakeRuntime(root))];
    RuntimeIsFreeIff(lib, es, p, root);
    QuietIsFair(lib, Wraps(lib, es), s, p, MakeRuntime(root));
    OneMoreIff(lib, es, making);
    EveryRunKeepsInv(lib, es);
    KeyedHasProfile(lib, s, a, p);
    if After(lib, made).None? {
      NothingFollows(lib, made, By(p, Opened));
    } else {
      OneMore(lib, es, making);
      MadeRuntime(lib, s, a, p, root);
      EveryRunKeepsInv(lib, made);
      StateIsOpened(lib, StoreAfter(lib, made), a, p);
      QuietIsFair(lib, Wraps(lib, made), StoreAfter(lib, made), p, Opened);
      OneMoreIff(lib, made, By(p, Opened));
      if After(lib, made + [By(p, Opened)]).Some? {
        OneMore(lib, made, By(p, Opened));
      }
    }
  }

  /** What stands in the way of the owner, exactly. Whoever holds the lock of a profile and knows its
      current password opens the state to the profile's tree, in any run, if and only if the profile was
      not created at second 0, nothing is left over where its runtime directory goes, and the tree can be
      extracted: no file or directory sits in a directory its owner may not create entries in. */
  lemma OwnerGetsInIff(lib: Lib, es: seq<Event>, p: Pid, root: bytes)
    requires Run(lib, es) && Of(StoreAfter(lib, es), p).Locked? && Of(StoreAfter(lib, es), p).job.Unlock?
    requires Of(StoreAfter(lib, es), p).name in VaultAfter(lib, es)
    requires Of(StoreAfter(lib, es), p).job.password == VaultAfter(lib, es)[Of(StoreAfter(lib, es), p).name].password
    ensures var run := es + [By(p, Authenticated), By(p, MakeRuntime(root)), By(p, Opened)];
            var s, name := StoreAfter(lib, es), Of(StoreAfter(lib, es), p).name;
            && name in s.entries && HasManifest(s.entries[name])
            && var m := ManifestIn(s.entries[name]);
            && (After(lib, run).Some? <==>
                  && m.createdAt != 0 && RuntimePath(root, m.id) !in s.orphans
                  && Refillable(VaultAfter(lib, es)[name].tree))
            && (After(lib, run).Some? ==>
                  && Run(lib, run)
                  && var here, open := Of(StoreAfter(lib, run), p), StoreAfter(lib, run);
                  && here.Session? && here.name == name && here.path == RuntimePath(root, m.id)
                      && here.path in open.runtimes
                  && open.runtimes[here.path] == VaultAfter(lib, es)[name].tree)
  {
    hide Run, StoreAfter, VaultAfter, Wraps, After, Inv, Next, Fair, Record, DeriveKey, Refillable;
    var s, a, name := StoreAfter(lib, es), VaultAfter(lib, es), Of(StoreAfter(lib, es), p).name;
    OwnerIsFair(lib, es, p);
    PasswordUnlocksIff(lib, es, p);
    var entered := es + [By(p, Authenticated)];
    assert entered + [By(p, MakeRuntime(root))] + [By(p, Opened)]
        == es + [By(p, Authenticated), By(p, MakeRuntime(root)), By(p, Opened)];
    OneMoreIff(lib, es, By(p, Authenticated));
    if After(lib, entered).None? {
      NothingFollows(lib, entered, By(p, MakeRuntime(root)));
      NothingFollows(lib, entered + [By(p, MakeRuntime(root))], By(p, Opened));
    } else {
      EveryRunKeepsInv(lib, es);
      EnteredWithId(lib, s, a, p);
      OneMore(lib, es, By(p, Authenticated));
      KeyedGetsInIff(lib, entered, p, root);
    }
  }
}
