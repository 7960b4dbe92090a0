/** What changes a profile: the renames of the process that holds its lock, and nothing else. */
module StoreRenames {
  import opened Wrappers
  import opened Bytes
  import opened Libraries
  import opened Trees
  import opened Manifest
  import opened KeyWrap
  import opened Archive
  import opened StoreModel
  import opened StoreInvariant
  import opened StoreFrames
  import opened StoreSteps

  /** What actions put into the recorded vault. */
  lemma RecordOfAction(s: State, a: Vault, p: Pid, act: Action, name: bytes)
    requires act.Publish? ==> Of(s, p).AddStaged? && Of(s, p).dataKey.Some?
    requires act.ReplaceState? ==> Of(s, p).Sealing? && Of(s, p).name in a
    requires name in Record(s, a, By(p, act))
    ensures var a2 := Record(s, a, By(p, act));
            if act.Publish? && UserDirectory(Of(s, p).user) == name then a2[name].tree == map[]
            else if act.ReplaceState? && Of(s, p).name == name then a2[name].tree == Restorable(Of(s, p).tree)
            else name in a && a2[name].tree == a[name].tree
  {
    hide Restorable, UserDirectory;
  }

  /** Renames are made by processes that have published or hold what they rename. */
  lemma RenamersAreReady(lib: Lib, s: State, a: Vault, p: Pid, act: Action)
    requires Inv(lib, s, a) && Next(lib, s, By(p, act)).Some?
    ensures act.Publish? ==> Of(s, p).AddStaged? && Of(s, p).dataKey.Some? && UserDirectory(Of(s, p).user) !in s.entries
    ensures act.ReplaceState? ==> Of(s, p).Sealing? && Of(s, p).name in a
  {
    hide NextAdd, NextLock, NextRotate, NextSession, NextCleanup, ProfileOk, Knows;
    if act.Publish? {
      PublishAddsName(lib, s, a, p, act);
    }
    if act.ReplaceState? {
      Extract(lib, s, a, p);
    }
  }

  lemma LockingKeepsEntries(lib: Lib, s: State, p: Pid, act: Action)
    ensures NextLock(lib, s, p, act).Some? ==> NextLock(lib, s, p, act).value.entries == s.entries
    ensures NextSession(lib, s, p, act).Some? ==> NextSession(lib, s, p, act).value.entries == s.entries
  {
    hide Authenticate, Rotate, Unseal, Validates;
  }

  lemma CleanupKeepsFiles(s: State, p: Pid, act: Action, n: bytes)
    requires n in s.entries && NextCleanup(s, p, act).Some?
    ensures var s2 := NextCleanup(s, p, act).value;
            n in s2.entries && s2.entries[n].manifest == s.entries[n].manifest
                && s2.entries[n].state == s.entries[n].state
  {
  }

  lemma AddingTouchesItsStage(lib: Lib, s: State, p: Pid, act: Action, n: bytes)
    requires n in s.entries && StageOf(Of(s, p)) != Some(n)
    requires act.Publish? && Of(s, p).AddStaged? ==> UserDirectory(Of(s, p).user) !in s.entries
    ensures NextAdd(s, p, act).Some? ==>
              n in NextAdd(s, p, act).value.entries && NextAdd(s, p, act).value.entries[n] == s.entries[n]
    ensures IsStaged(act) && NextStaged(lib, s, p, act).Some? ==>
              n in NextStaged(lib, s, p, act).value.entries
                  && NextStaged(lib, s, p, act).value.entries[n] == s.entries[n]
  {
    hide Rewrap, Lists, CanSeal, SealedFile, UserDirectory;
  }

  lemma RotationTouchesItsManifest(s: State, p: Pid, act: Action, n: bytes)
    requires n in s.entries && (act.BeginRotation? || act.FinishRotation? || act.ReplaceManifest?)
             && NextRotate(s, p, act).Some?
    ensures var s2 := NextRotate(s, p, act).value;
            && n in s2.entries && s2.entries[n].state == s.entries[n].state
            && (s2.entries[n].manifest != s.entries[n].manifest ==> act.ReplaceManifest? && HeldBy(Of(s, p)) == Some(n))
  {
  }

  lemma ClosingTouchesItsState(lib: Lib, s: State, p: Pid, act: Action, n: bytes)
    requires n in s.entries && (act.BeginSeal? || act.FinishSeal? || act.ReplaceState?)
             && NextSeal(lib, s, p, act).Some?
    ensures var s2 := NextSeal(lib, s, p, act).value;
            && n in s2.entries && s2.entries[n].manifest == s.entries[n].manifest
            && (s2.entries[n].state != s.entries[n].state ==> act.ReplaceState? && HeldBy(Of(s, p)) == Some(n))
  {
    hide Lists, CanSeal, SealedFile;
  }

  /** Nothing but a rename by the holder of its lock changes the two files of a directory that is not the
      process's own staging directory. */
  lemma OnlyRenamesChangeFiles(lib: Lib, s: State, a: Vault, p: Pid, act: Action, n: bytes)
    requires Inv(lib, s, a) && Next(lib, s, By(p, act)).Some? && n in s.entries && StageOf(Of(s, p)) != Some(n)
    ensures var s2 := Next(lib, s, By(p, act)).value;
            && n in s2.entries
            && (s2.entries[n].manifest != s.entries[n].manifest ==> act.ReplaceManifest? && HeldBy(Of(s, p)) == Some(n))
            && (s2.entries[n].state != s.entries[n].state ==> act.ReplaceState? && HeldBy(Of(s, p)) == Some(n))
  {
    hide NextAdd, NextStaged, NextLock, NextRotate, NextSession, NextSeal, NextCleanup, Inv, Knows, ProfileOk;
    RenamersAreReady(lib, s, a, p, act);
    if act.BeginRotation? || act.FinishRotation? || act.ReplaceManifest? {
      RotationTouchesItsManifest(s, p, act, n);
    } else if act.BeginSeal? || act.FinishSeal? || act.ReplaceState? {
      ClosingTouchesItsState(lib, s, p, act, n);
    } else {
      AddingTouchesItsStage(lib, s, p, act, n);
      LockingKeepsEntries(lib, s, p, act);
      if NextCleanup(s, p, act).Some? {
        CleanupKeepsFiles(s, p, act, n);
      }
    }
  }

  /** A published profile never disappears, and its two files change in one way each: by the rename of
      the process that holds its lock. In particular a rotation leaves state.cvlt as it is byte for
      byte, a close leaves the manifest as it is, and no failing or dying process changes either. */
  lemma OnlyRenamesChangeProfiles(lib: Lib, s: State, a: Vault, p: Pid, act: Action, n: bytes)
    requires Inv(lib, s, a) && Next(lib, s, By(p, act)).Some? && n in a
    ensures var s2 := Next(lib, s, By(p, act)).value;
            && n in s2.entries
            && (s2.entries[n].manifest != s.entries[n].manifest ==> act.ReplaceManifest? && HeldBy(Of(s, p)) == Some(n))
            && (s2.entries[n].state != s.entries[n].state ==> act.ReplaceState? && HeldBy(Of(s, p)) == Some(n))
  {
    hide Next, Inv, Knows, ProfileOk;
    VisibleNames(lib, s, a);
    Extract(lib, s, a, p);
    OnlyRenamesChangeFiles(lib, s, a, p, act, n);
  }

  /** And the recorded profile changes with these renames only: nothing done on one profile changes the
      password or the tree of another, and the data key never changes. */
  lemma OnlyRenamesChangeVault(lib: Lib, s: State, a: Vault, e: Event, n: bytes)
    requires Inv(lib, s, a) && Next(lib, s, e).Some? && n in a
    ensures n in Record(s, a, e) && Record(s, a, e)[n].key == a[n].key
    ensures Record(s, a, e)[n] != a[n] ==>
              e.By? && (e.act.ReplaceManifest? || e.act.ReplaceState?) && HeldBy(Of(s, e.p)) == Some(n)
  {
    hide Inv, Next, Restorable, UserDirectory, Hidden;
    VisibleNames(lib, s, a);
    if e.By? {
      RenamersAreReady(lib, s, a, e.p, e.act);
    }
  }

  // ------------------------------------------------------- what renames record

  lemma RecordsRotation(lib: Lib, s: State, a: Vault, p: Pid)
    requires Inv(lib, s, a) && Of(s, p).Rotating?
    ensures var name := Of(s, p).name;
            && name in a
            && Record(s, a, By(p, ReplaceManifest)) == a[name := a[name].(password := Of(s, p).newPassword)]
  {
    hide Inv, ProcOk, ProfileOk, UserDirectory;
    Extract(lib, s, a, p);
  }

  lemma RecordsClose(lib: Lib, s: State, a: Vault, p: Pid)
    requires Inv(lib, s, a) && Of(s, p).Sealing?
    ensures var name := Of(s, p).name;
            && name in a
            && Record(s, a, By(p, ReplaceState)) == a[name := a[name].(tree := Restorable(Of(s, p).tree))]
  {
    hide Inv, ProcOk, ProfileOk, Restorable, UserDirectory;
    Extract(lib, s, a, p);
  }
}
