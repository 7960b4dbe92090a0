/** What holds over every run of the store: any number of processes, any interleaving, any failures. */
module StoreTheorems {
  import opened Wrappers
  import opened Bytes
  import opened Libraries
  import opened Trees
  import opened Manifest
  import opened KeyWrap
  import opened Archive
  import opened StoreModel
  import opened StoreInvariant
  import opened StoreFrames
  import opened StoreSteps
  import opened StoreRenames
  import opened StoreLocks
  import opened StoreWraps

  // ------------------------------------------------------------------ runs

  /** The store and the recorded vault after a run from the empty store, if the run can happen. */
  ghost function After(lib: Lib, es: seq<Event>): Option<(State, Vault)> {
    if es == [] then Some((INIT, map[])) else
    var (s, a) :- After(lib, es[..|es| - 1]);
    var s2 :- Next(lib, s, es[|es| - 1]);
    Some((s2, Record(s, a, es[|es| - 1])))
  }

  /** All manifests the processes have wrapped in a run. */
  ghost function Wraps(lib: Lib, es: seq<Event>): seq<HonestWrap> {
    if es == [] then [] else
    var before := es[..|es| - 1];
    if After(lib, before).Some? then Logged(lib, Wraps(lib, before), After(lib, before).value.0, es[|es| - 1])
    else Wraps(lib, before)
  }

  /** No salt is drawn twice and no wrapped key is forged. */
  ghost predicate FairRun(lib: Lib, es: seq<Event>) {
    es != [] ==>
      var before := es[..|es| - 1];
      && FairRun(lib, before)
      && (After(lib, before).Some? ==> Fair(lib, Wraps(lib, before), After(lib, before).value.0, es[|es| - 1]))
  }

  ghost predicate Run(lib: Lib, es: seq<Event>) {
    lib.Lawful() && FairRun(lib, es) && After(lib, es).Some?
  }

  ghost function StoreAfter(lib: Lib, es: seq<Event>): State
    requires Run(lib, es)
  {
    After(lib, es).value.0
  }

  ghost function VaultAfter(lib: Lib, es: seq<Event>): Vault
    requires Run(lib, es)
  {
    After(lib, es).value.1
  }

  ghost predicate Reaches(lib: Lib, es: seq<Event>, s: State, a: Vault, wraps: seq<HonestWrap>) {
    Run(lib, es) && StoreAfter(lib, es) == s && VaultAfter(lib, es) == a && Wraps(lib, es) == wraps
  }

  lemma Shorter(lib: Lib, es: seq<Event>)
    requires es != [] && Run(lib, es)
    ensures Run(lib, es[..|es| - 1])
    ensures var before := es[..|es| - 1]; var e := es[|es| - 1]; var s := StoreAfter(lib, before);
            && Next(lib, s, e) == Some(StoreAfter(lib, es))
            && VaultAfter(lib, es) == Record(s, VaultAfter(lib, before), e)
            && Wraps(lib, es) == Logged(lib, Wraps(lib, before), s, e) && Fair(lib, Wraps(lib, before), s, e)
  {
    hide Next, Record, Logged, Fair;
  }

  lemma OneMore(lib: Lib, es: seq<Event>, e: Event)
    requires Run(lib, es) && Next(lib, StoreAfter(lib, es), e).Some?
             && Fair(lib, Wraps(lib, es), StoreAfter(lib, es), e)
    ensures Run(lib, es + [e]) && StoreAfter(lib, es + [e]) == Next(lib, StoreAfter(lib, es), e).value
    ensures VaultAfter(lib, es + [e]) == Record(StoreAfter(lib, es), VaultAfter(lib, es), e)
    ensures Wraps(lib, es + [e]) == Logged(lib, Wraps(lib, es), StoreAfter(lib, es), e)
  {
    hide Next, Record, Fair, Logged;
    assert (es + [e])[..|es|] == es;
  }

  lemma RunIsLawful(lib: Lib, es: seq<Event>)
    requires Run(lib, es)
    ensures lib.Lawful()
  {
    hide After;
  }

  lemma StartIsSound(lib: Lib)
    ensures Inv(lib, INIT, map[]) && AllMade(lib, INIT, map[], [])
  {
    hide Knows;
    forall p
      ensures ProcOk(lib, INIT, map[], p)
    {
      KnowsNothing(lib, Idle, EMPTY_DIR, None, None);
    }
  }

  lemma {:induction false} EveryRunIsSound(lib: Lib, es: seq<Event>)
    requires Run(lib, es)
    ensures Inv(lib, StoreAfter(lib, es), VaultAfter(lib, es))
    ensures AllMade(lib, StoreAfter(lib, es), VaultAfter(lib, es), Wraps(lib, es))
    decreases |es|
  {
    if es == [] {
      StartIsSound(lib);
    } else {
      assert lib.Lawful();
      Shorter(lib, es);
      hide Inv, AllMade, Run, StoreAfter, VaultAfter, Wraps, Next, Record, Fair, Logged, Genuine;
      var before, e := es[..|es| - 1], es[|es| - 1];
      EveryRunIsSound(lib, before);
      var s, a, wraps := StoreAfter(lib, before), VaultAfter(lib, before), Wraps(lib, before);
      FairIsGenuine(lib, s, a, wraps, e);
      EveryEventKeepsInv(lib, s, a, e);
      EveryEventKeepsMade(lib, s, a, wraps, e);
    }
  }

  /** In every reachable state the store and the recorded vault are coupled. */
  lemma EveryRunKeepsInv(lib: Lib, es: seq<Event>)
    requires Run(lib, es)
    ensures Inv(lib, StoreAfter(lib, es), VaultAfter(lib, es))
  {
    hide Inv, AllMade, Run, StoreAfter, VaultAfter, Wraps;
    EveryRunIsSound(lib, es);
  }

  // ------------------------------------------------- what an unlock shows

  /** The tree a profile was last sealed from, read off the run: empty when it is published, and the
      restorable part of the closed session's tree whenever a new state file is renamed into place. */
  ghost function LastSealed(lib: Lib, es: seq<Event>, name: bytes): Option<Tree> {
    if es == [] then None else
    var before, e := es[..|es| - 1], es[|es| - 1];
    var (s, _) :- After(lib, before);
    if e.By? && e.act.Publish? && Of(s, e.p).AddStaged? && UserDirectory(Of(s, e.p).user) == name then Some(map[])
    else if e.By? && e.act.ReplaceState? && Of(s, e.p).Sealing? && Of(s, e.p).name == name
        then Some(Restorable(Of(s, e.p).tree))
    else LastSealed(lib, before, name)
  }

  lemma {:induction false} VaultHoldsLastSealed(lib: Lib, es: seq<Event>, name: bytes)
    requires Run(lib, es) && name in VaultAfter(lib, es)
    ensures LastSealed(lib, es, name) == Some(VaultAfter(lib, es)[name].tree)
    decreases |es|
  {
    if es != [] {
      var before, e := es[..|es| - 1], es[|es| - 1];
      Shorter(lib, es);
      EveryRunKeepsInv(lib, before);
      hide Inv, Next, Genuine;
      if !e.By? {
        assert VaultAfter(lib, es) == VaultAfter(lib, before);
      }
      hide Record;
      if e.By? {
        RenamersAreReady(lib, StoreAfter(lib, before), VaultAfter(lib, before), e.p, e.act);
        RecordOfAction(StoreAfter(lib, before), VaultAfter(lib, before), e.p, e.act, name);
      }
      if name in VaultAfter(lib, before) {
        VaultHoldsLastSealed(lib, before, name);
      }
    }
  }

  /** What was last sealed holds nothing that extraction would drop. */
  lemma {:induction false} LastSealedIsRestorable(lib: Lib, es: seq<Event>, name: bytes)
    requires LastSealed(lib, es, name).Some?
    ensures var t := LastSealed(lib, es, name).value; Restorable(t) == t
    decreases |es|
  {
    var before, e := es[..|es| - 1], es[|es| - 1];
    var s := After(lib, before).value.0;
    hide After, UserDirectory;
    if e.By? && e.act.Publish? && Of(s, e.p).AddStaged? && UserDirectory(Of(s, e.p).user) == name {
      assert Restorable(map[]) == map[];
    } else if e.By? && e.act.ReplaceState? && Of(s, e.p).Sealing? && Of(s, e.p).name == name {
      var t := Of(s, e.p).tree;
      assert Restorable(Restorable(t)) == Restorable(t);
    } else {
      LastSealedIsRestorable(lib, before, name);
    }
  }

  lemma VaultIsRestorable(lib: Lib, es: seq<Event>, name: bytes)
    requires Run(lib, es) && name in VaultAfter(lib, es)
    ensures Restorable(VaultAfter(lib, es)[name].tree) == VaultAfter(lib, es)[name].tree
  {
    hide Run, VaultAfter, LastSealed;
    VaultHoldsLastSealed(lib, es, name);
    LastSealedIsRestorable(lib, es, name);
  }

  lemma OpenedShowsVault(lib: Lib, s: State, a: Vault, p: Pid)
    requires Inv(lib, s, a) && Next(lib, s, By(p, Opened)).Some?
    ensures Of(s, p).Extracting? && Of(s, p).name in a && Of(s, p).path in Next(lib, s, By(p, Opened)).value.runtimes
    ensures Next(lib, s, By(p, Opened)).value.runtimes[Of(s, p).path] == a[Of(s, p).name].tree
  {
    hide Inv, ManifestOk, WellFormedTree, NextAdd, NextStaged, NextLock, NextRotate, NextSeal, NextCleanup;
    Extract(lib, s, a, p);
  }

  /** Refinement: a successful unlock shows exactly the tree the profile was last sealed from, empty if
      it never was, whatever all other processes have done. */
  lemma UnlockShowsLastSealed(lib: Lib, es: seq<Event>, p: Pid)
    requires Run(lib, es + [By(p, Opened)])
    ensures Run(lib, es)
    ensures var before, after := StoreAfter(lib, es), StoreAfter(lib, es + [By(p, Opened)]);
            && Of(before, p).Extracting?
            && var name, path := Of(before, p).name, Of(before, p).path;
            && path in after.runtimes
            && LastSealed(lib, es, name) == Some(after.runtimes[path])
  {
    var run := es + [By(p, Opened)];
    assert run[..|run| - 1] == es;
    Shorter(lib, run);
    EveryRunKeepsInv(lib, es);
    var s, a := StoreAfter(lib, es), VaultAfter(lib, es);
    hide Run, StoreAfter, VaultAfter, After, LastSealed, Record, Inv;
    OpenedShowsVault(lib, s, a, p);
    VaultHoldsLastSealed(lib, es, Of(s, p).name);
  }

  // -------------------------------------------------- agreement and atomicity

  /** Key and state agree, and nothing visible is ever incomplete: in every reachable state, including
      between any two steps and after any crash, each visible directory holds a complete manifest that
      unwraps under the profile's current password to the key its complete state file is sealed with, and
      that file opens to the profile's last sealed tree, unless that tree cannot be extracted at all. */
  lemma KeyAndStateAgree(lib: Lib, es: seq<Event>, name: bytes)
    requires Run(lib, es) && name in StoreAfter(lib, es).entries && !Hidden(name)
    ensures name in VaultAfter(lib, es)
    ensures var d, profile := StoreAfter(lib, es).entries[name], VaultAfter(lib, es)[name];
            && HasManifest(d) && HasState(d)
            && UserDirectory(ManifestIn(d).username) == name
            && Authenticate(lib, ManifestIn(d), profile.password) == Some(profile.key)
            && Unseal(lib, profile.key, StateIn(d)) == (if Refillable(profile.tree) then Some(profile.tree) else None)
            && LastSealed(lib, es, name) == Some(profile.tree)
            && |profile.password| >= PASSWORD_MINIMUM
  {
    EveryRunKeepsInv(lib, es);
    hide Run, StoreAfter, VaultAfter, LastSealed;
    VisibleNames(lib, StoreAfter(lib, es), VaultAfter(lib, es));
    assert ProfileOk(lib, name, StoreAfter(lib, es).entries[name], VaultAfter(lib, es)[name]);
    hide Inv;
    VaultHoldsLastSealed(lib, es, name);
  }

  /** Some close of a session of `name` has put a new state file in place since event `i`. */
  ghost predicate ResealedSince(lib: Lib, es: seq<Event>, i: nat, name: bytes) {
    exists k :: i <= k < |es| && es[k].By? && es[k].act.ReplaceState?
      && After(lib, es[..k]).Some? && HeldBy(Of(After(lib, es[..k]).value.0, es[k].p)) == Some(name)
  }

  lemma NotResealedBefore(lib: Lib, es: seq<Event>, i: nat, name: bytes)
    requires i < |es| && !ResealedSince(lib, es, i, name)
    ensures !ResealedSince(lib, es[..|es| - 1], i, name)
  {
    var before := es[..|es| - 1];
    forall k | i <= k < |before|
      ensures before[k] == es[k] && before[..k] == es[..k]
    {
    }
    hide After;
  }

  /** Over any stretch of a run a profile keeps its data key, and unless a session of it is closed in
      between its state.cvlt is the same byte for byte, whatever rotations, crashes and failures happen. */
  lemma {:induction false} KeyAndStateStay(lib: Lib, es: seq<Event>, i: nat, name: bytes)
    requires Run(lib, es) && i <= |es| && Run(lib, es[..i]) && name in VaultAfter(lib, es[..i])
    ensures name in VaultAfter(lib, es) && VaultAfter(lib, es)[name].key == VaultAfter(lib, es[..i])[name].key
    ensures name in StoreAfter(lib, es).entries && name in StoreAfter(lib, es[..i]).entries
    ensures !ResealedSince(lib, es, i, name) ==>
              StoreAfter(lib, es).entries[name].state == StoreAfter(lib, es[..i]).entries[name].state
    decreases |es|
  {
    if i == |es| {
      assert es[..i] == es;
      EveryRunKeepsInv(lib, es);
      hide Run, StoreAfter, VaultAfter;
      VisibleNames(lib, StoreAfter(lib, es), VaultAfter(lib, es));
    } else {
      var before, e := es[..|es| - 1], es[|es| - 1];
      assert before[..i] == es[..i];
      Shorter(lib, es);
      EveryRunKeepsInv(lib, before);
      if !ResealedSince(lib, es, i, name) {
        ReplacedNow(lib, es, i, name);
      }
      hide Run, StoreAfter, VaultAfter, Inv, Next, Record, Fair, ResealedSince, HeldBy;
      KeyAndStateStay(lib, before, i, name);
      var s, a := StoreAfter(lib, before), VaultAfter(lib, before);
      OnlyRenamesChangeVault(lib, s, a, e, name);
      EventKeepsState(lib, s, a, e, name);
      if !ResealedSince(lib, es, i, name) {
        NotResealedBefore(lib, es, i, name);
      }
    }
  }

  lemma ReplacedNow(lib: Lib, es: seq<Event>, i: nat, name: bytes)
    requires i < |es| && Run(lib, es) && Run(lib, es[..|es| - 1]) && !ResealedSince(lib, es, i, name)
    ensures var e := es[|es| - 1];
            e.By? && e.act.ReplaceState? ==> HeldBy(Of(StoreAfter(lib, es[..|es| - 1]), e.p)) != Some(name)
  {
    hide After;
  }

  lemma EventKeepsState(lib: Lib, s: State, a: Vault, e: Event, name: bytes)
    requires Inv(lib, s, a) && Next(lib, s, e).Some? && name in a
    ensures name in s.entries && name in Next(lib, s, e).value.entries
    ensures !(e.By? && e.act.ReplaceState? && HeldBy(Of(s, e.p)) == Some(name)) ==>
              Next(lib, s, e).value.entries[name].state == s.entries[name].state
  {
    VisibleNames(lib, s, a);
    if e.By? {
      hide Inv, Next;
      OnlyRenamesChangeProfiles(lib, s, a, e.p, e.act, name);
    }
  }

  // ------------------------------------------------------- mutual exclusion

  lemma StartIsOrderly()
    ensures LocksHeld(INIT) && RuntimesHeld(INIT) && TreesHeld(INIT)
  {
  }

  /** In any history whatever, forged or not, locks and runtime directories are in order, and so is what is
      being extracted or sealed. */
  lemma {:induction false} HistoryIsOrderly(lib: Lib, es: seq<Event>)
    requires After(lib, es).Some?
    ensures LocksHeld(After(lib, es).value.0) && RuntimesHeld(After(lib, es).value.0)
    ensures TreesHeld(After(lib, es).value.0)
    decreases |es|
  {
    hide Next, Record, LocksHeld, RuntimesHeld, TreesHeld;
    if es == [] {
      StartIsOrderly();
    } else {
      HistoryIsOrderly(lib, es[..|es| - 1]);
      EveryEventKeepsOrder(lib, After(lib, es[..|es| - 1]).value.0, es[|es| - 1]);
    }
  }

  /** At most one process holds a profile's lock, and at most one has a runtime directory, in any history
      whatever: this rests on no assumption about passwords or forgeries. */
  lemma MutualExclusion(lib: Lib, es: seq<Event>, p: Pid, q: Pid)
    requires After(lib, es).Some?
    ensures var s := After(lib, es).value.0;
            && (HeldBy(Of(s, p)).Some? && HeldBy(Of(s, p)) == HeldBy(Of(s, q)) ==> p == q)
            && (RuntimeOf(Of(s, p)).Some? && RuntimeOf(Of(s, p)) == RuntimeOf(Of(s, q)) ==> p == q)
  {
    hide After;
    HistoryIsOrderly(lib, es);
  }

  /** A runtime directory that no crash, failed cleanup or outsider left behind belongs to a process, and
      that process holds the lock of the profile whose id names the directory. */
  lemma LiveRuntimeHasOwner(lib: Lib, es: seq<Event>, path: RuntimePath)
    requires Run(lib, es) && path in StoreAfter(lib, es).runtimes && path !in StoreAfter(lib, es).orphans
    ensures var s := StoreAfter(lib, es);
            exists o: Pid, n ::
              RuntimeOf(Of(s, o)) == Some(path) && HoldsLock(s, VaultAfter(lib, es), o, n) && IsIdOf(s, n, path.id)
  {
    EveryRunKeepsInv(lib, es);
    hide Run, StoreAfter, VaultAfter, Knows, ProfileOk;
    var s, a := StoreAfter(lib, es), VaultAfter(lib, es);
    assert Owned(s, path);
    var o: Pid :| RuntimeOf(Of(s, o)) == Some(path);
    assert ProcOk(lib, s, a, o);
    hide Inv;
    assert HoldsLock(s, a, o, HeldBy(Of(s, o)).value);
  }

  // ------------------------------------------------------------ publication

  lemma {:induction false} ProfilesStay(lib: Lib, es: seq<Event>, n: nat, name: bytes)
    requires Run(lib, es) && n <= |es| && Run(lib, es[..n]) && name in VaultAfter(lib, es[..n])
    ensures name in VaultAfter(lib, es)
    decreases |es|
  {
    if n == |es| {
      assert es[..n] == es;
    } else {
      var before := es[..|es| - 1];
      assert before[..n] == es[..n];
      Shorter(lib, es);
      EveryRunKeepsInv(lib, before);
      hide Run, StoreAfter, VaultAfter, Inv, Next, Record;
      ProfilesStay(lib, before, n, name);
      OnlyRenamesChangeVault(lib, StoreAfter(lib, before), VaultAfter(lib, before), es[|es| - 1], name);
    }
  }

  lemma {:induction false} RunPrefix(lib: Lib, es: seq<Event>, n: nat)
    requires Run(lib, es) && n <= |es|
    ensures Run(lib, es[..n])
    decreases |es|
  {
    if n == |es| {
      assert es[..n] == es;
    } else {
      Shorter(lib, es);
      hide Run;
      RunPrefix(lib, es[..|es| - 1], n);
      assert es[..|es| - 1][..n] == es[..n];
    }
  }

  /** Who published what: the user of the `i`-th event, a publication. */
  ghost function Published(lib: Lib, es: seq<Event>, i: nat): bytes
    requires Run(lib, es) && i < |es| && Run(lib, es[..i]) && es[i].By?
             && Of(StoreAfter(lib, es[..i]), es[i].p).AddStaged?
  {
    Of(StoreAfter(lib, es[..i]), es[i].p).user
  }

  lemma PublicationAt(lib: Lib, es: seq<Event>, i: nat)
    requires Run(lib, es) && i < |es| && es[i].By? && es[i].act.Publish?
    ensures Run(lib, es[..i]) && Run(lib, es[..i + 1]) && Of(StoreAfter(lib, es[..i]), es[i].p).AddStaged?
    ensures UserDirectory(Published(lib, es, i)) !in VaultAfter(lib, es[..i])
    ensures UserDirectory(Published(lib, es, i)) in VaultAfter(lib, es[..i + 1])
  {
    hide Run, StoreAfter, VaultAfter, Inv, Next, UserDirectory;
    RunPrefix(lib, es, i);
    RunPrefix(lib, es, i + 1);
    assert es[..i + 1][..i] == es[..i];
    Shorter(lib, es[..i + 1]);
    EveryRunKeepsInv(lib, es[..i]);
    RenamersAreReady(lib, StoreAfter(lib, es[..i]), VaultAfter(lib, es[..i]), es[i].p, es[i].act);
    VisibleNames(lib, StoreAfter(lib, es[..i]), VaultAfter(lib, es[..i]));
  }

  /** Racing creations: of any two publications in a run the user names differ by more than the case of
      letters, so among creations of the same name at most one publishes. */
  lemma AtMostOnePublishes(lib: Lib, es: seq<Event>, i: nat, j: nat)
    requires Run(lib, es) && i < j < |es| && es[i].By? && es[i].act.Publish? && es[j].By? && es[j].act.Publish?
    ensures Run(lib, es[..i]) && Of(StoreAfter(lib, es[..i]), es[i].p).AddStaged?
    ensures Run(lib, es[..j]) && Of(StoreAfter(lib, es[..j]), es[j].p).AddStaged?
    ensures !EqualUpToCase(Published(lib, es, i), Published(lib, es, j))
  {
    PublicationAt(lib, es, i);
    PublicationAt(lib, es, j);
    hide Run, StoreAfter, VaultAfter, Published, UserDirectory, EqualUpToCase;
    assert es[..j][..i + 1] == es[..i + 1];
    ProfilesStay(lib, es[..j], i + 1, UserDirectory(Published(lib, es, i)));
    SharedDirectory(Published(lib, es, i), Published(lib, es, j));
  }

  /** `list_users` reports exactly the published profiles, never a staging directory; only a profile
      created while the clock read zero is missing, as its manifest does not validate. */
  lemma ListedUsersArePublished(lib: Lib, es: seq<Event>, name: bytes)
    requires Run(lib, es)
    ensures var s := StoreAfter(lib, es);
            (exists u :: u in ListUsers(lib, s) && UserDirectory(u) == name)
            <==> name in VaultAfter(lib, es) && name in s.entries && HasManifest(s.entries[name])
                 && ManifestIn(s.entries[name]).createdAt != 0
  {
    EveryRunKeepsInv(lib, es);
    var s, a := StoreAfter(lib, es), VaultAfter(lib, es);
    hide Run, StoreAfter, VaultAfter, ProcsOk, LocksOk, RuntimesOk, IdsOk, StagesOk, StateOk, UserDirectory;
    if name in a && HasManifest(s.entries[name]) && ManifestIn(s.entries[name]).createdAt != 0 {
      assert ProfileOk(lib, name, s.entries[name], a[name]);
      assert ManifestIn(s.entries[name]).username in ListUsers(lib, s);
    }
    if u :| u in ListUsers(lib, s) && UserDirectory(u) == name {
      var n :| n in s.entries && !Hidden(n) && HasManifest(s.entries[n]) && Validates(lib, ManifestIn(s.entries[n]))
               && ManifestIn(s.entries[n]).username == u;
      assert ProfileOk(lib, n, s.entries[n], a[n]);
    }
  }

  // ----------------------------------------------------- unlocking fails cleanly

  /** A process on its way through unlock, or cleaning up after it has failed there. */
  predicate InUnlock(proc: Proc) {
    ((proc.Waiting? || proc.Locked?) && proc.job.Unlock?) || proc.Keyed? || proc.Extracting? || proc.Cleaning?
        || proc.Releasing?
  }

  /** The effect of a step on locks and runtime directories stays with the process that makes it. */
  ghost predicate TouchesOwnOnly(s: State, s2: State, p: Pid, act: Action) {
    && s2.entries == s.entries
    && (forall path :: path in s.runtimes && RuntimeOf(Of(s, p)) != Some(path) ==>
          path in s2.runtimes && s2.runtimes[path] == s.runtimes[path])
    && (RuntimeOf(Of(s2, p)).Some? && RuntimeOf(Of(s, p)).None? ==> RuntimeOf(Of(s2, p)).value !in s.runtimes)
    && (Of(s2, p).Idle? ==> forall n :: n in s2.locks ==> s2.locks[n] != p)
    && (RuntimeOf(Of(s, p)).Some? && RuntimeOf(Of(s2, p)).None? ==>
          RuntimeOf(Of(s, p)).value !in s2.runtimes || act.Crash? || (act.CleanUp? && !act.removed))
  }

  lemma UnlockStepsTouchOwnOnly(lib: Lib, s: State, p: Pid, act: Action)
    requires InUnlock(Of(s, p)) && forall n :: n in s.locks && s.locks[n] == p ==> HeldBy(Of(s, p)) == Some(n)
    ensures NextLock(lib, s, p, act).Some? ==> TouchesOwnOnly(s, NextLock(lib, s, p, act).value, p, act)
    ensures NextSession(lib, s, p, act).Some? ==> TouchesOwnOnly(s, NextSession(lib, s, p, act).value, p, act)
  {
    hide Authenticate, Rotate, Validates, Unseal;
  }

  lemma CleanupStepsTouchOwnOnly(s: State, p: Pid, act: Action)
    requires InUnlock(Of(s, p)) && forall n :: n in s.locks && s.locks[n] == p ==> HeldBy(Of(s, p)) == Some(n)
    ensures NextCleanup(s, p, act).Some? ==> TouchesOwnOnly(s, NextCleanup(s, p, act).value, p, act)
  {
  }

  /** A process in an unlock makes no step of another operation, and records nothing. */
  lemma OthersCannotStep(lib: Lib, s: State, a: Vault, p: Pid, act: Action)
    requires InUnlock(Of(s, p))
    ensures Record(s, a, By(p, act)) == a
    ensures act.StartAdd? || act.Stage? || act.AbandonAdd? ==> NextAdd(s, p, act).None?
    ensures IsStaged(act) ==> NextStaged(lib, s, p, act).None?
    ensures act.BeginRotation? || act.FinishRotation? || act.ReplaceManifest? ==> NextRotate(s, p, act).None?
    ensures act.BeginSeal? || act.FinishSeal? || act.ReplaceState? ==> NextSeal(lib, s, p, act).None?
  {
    hide Rewrap, Lists, CanSeal, SealedFile, Restorable, UserDirectory;
  }

  lemma StepTouchesOwnOnly(lib: Lib, s: State, a: Vault, p: Pid, act: Action)
    requires Next(lib, s, By(p, act)).Some? && InUnlock(Of(s, p))
    requires forall n :: n in s.locks && s.locks[n] == p ==> HeldBy(Of(s, p)) == Some(n)
    ensures TouchesOwnOnly(s, Next(lib, s, By(p, act)).value, p, act) && Record(s, a, By(p, act)) == a
  {
    hide NextAdd, NextStaged, NextRotate, NextSeal, NextLock, NextSession, NextCleanup, TouchesOwnOnly;
    OthersCannotStep(lib, s, a, p, act);
    hide Record, InUnlock;
    UnlockStepsTouchOwnOnly(lib, s, p, act);
    CleanupStepsTouchOwnOnly(s, p, act);
  }

  /** No step of an unlock, failed or not, changes any file of any profile or the recorded vault, and the
      only runtime directory it changes is the one it created at a path that was free. When the process
      is done it holds no lock, and what it created is gone unless its removal failed or it died. */
  lemma FailedUnlockIsClean(lib: Lib, s: State, a: Vault, p: Pid, act: Action)
    requires Inv(lib, s, a) && Next(lib, s, By(p, act)).Some? && InUnlock(Of(s, p))
    ensures TouchesOwnOnly(s, Next(lib, s, By(p, act)).value, p, act) && Record(s, a, By(p, act)) == a
  {
    hide Next, Record, InUnlock, TouchesOwnOnly, VaultOk, ProcsOk, RuntimesOk, IdsOk, StagesOk;
    StepTouchesOwnOnly(lib, s, a, p, act);
  }
}
