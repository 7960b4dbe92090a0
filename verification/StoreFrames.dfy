/** The shapes a step of one process can have, and what each shape leaves to be checked. */
module StoreFrames {
  import opened Wrappers
  import opened Bytes
  import opened Libraries
  import opened Trees
  import opened StoreModel
  import opened StoreInvariant

  /** Locks and runtime directories after a step of `p` are the old ones of others and its own. */
  ghost predicate Accounted(s: State, s2: State, p: Pid) {
    && (forall n :: n in s2.locks ==>
          if s2.locks[n] == p then HeldBy(Of(s2, p)) == Some(n) else n in s.locks && s.locks[n] == s2.locks[n])
    && s2.orphans <= s2.runtimes.Keys
    && (forall path :: path in s2.runtimes && path !in s2.orphans && RuntimeOf(Of(s2, p)) != Some(path) ==>
          path in s.runtimes && path !in s.orphans && RuntimeOf(Of(s, p)) != Some(path))
  }

  lemma LocalStep(lib: Lib, s: State, a: Vault, s2: State, a2: Vault, p: Pid)
    requires Inv(lib, s, a) && Local(s, a, s2, a2, p) && Accounted(s, s2, p)
    requires ProcOk(lib, s2, a2, p) && VaultOk(lib, s2, a2) && IdsOk(s2) && StagesOk(s2)
    ensures Inv(lib, s2, a2)
  {
    hide ProcOk, VaultOk, IdsOk, StagesOk;
    forall q
      ensures ProcOk(lib, s2, a2, q)
    {
      if q != p {
        OtherIsKept(lib, s, a, s2, a2, p, q);
      }
    }
    forall path | path in s2.runtimes && path !in s2.orphans
      ensures Owned(s2, path)
    {
      if RuntimeOf(Of(s2, p)) == Some(path) {
      } else {
        assert Owned(s, path);
        var q :| RuntimeOf(Of(s, q)) == Some(path);
        assert RuntimeOf(Of(s2, q)) == Some(path);
      }
    }
  }

  /** The parts of the invariant that a step of `p` starts from. */
  lemma Extract(lib: Lib, s: State, a: Vault, p: Pid)
    requires Inv(lib, s, a)
    ensures ProcOk(lib, s, a, p)
    ensures s.orphans <= s.runtimes.Keys
    ensures forall n :: n in s.locks && s.locks[n] == p ==> HeldBy(Of(s, p)) == Some(n)
    ensures HeldBy(Of(s, p)).Some? ==>
              var n := HeldBy(Of(s, p)).value; n in a && n in s.entries && ProfileOk(lib, n, s.entries[n], a[n])
  {
    hide Knows, ProfileOk;
  }

  // ----------------------------------------------------- published contents

  /** Nothing published changes when the entries do not. */
  lemma SameEntries(lib: Lib, s: State, a: Vault, s2: State, p: Pid)
    requires Inv(lib, s, a) && s2.entries == s.entries
    requires forall q :: q != p ==> Of(s2, q) == Of(s, q)
    requires StageOf(Of(s2, p)).Some? ==> StageOf(Of(s2, p)) == StageOf(Of(s, p))
    ensures VaultOk(lib, s2, a) && IdsOk(s2) && StagesOk(s2)
  {
    hide ProcOk, ProfileOk, LocksOk, RuntimesOk;
    forall m, n, id | IsIdOf(s2, m, id) && IsIdOf(s2, n, id)
      ensures m == n
    {
      assert IsIdOf(s, m, id) && IsIdOf(s, n, id);
    }
  }

  /** The holder of a lock changes its own directory, keeping the profile complete and its id. */
  lemma OwnDirectory(lib: Lib, s: State, a: Vault, s2: State, a2: Vault, p: Pid, name: bytes, d: UserDir)
    requires Inv(lib, s, a) && name in a && s2.entries == s.entries[name := d]
    requires forall q :: q != p ==> Of(s2, q) == Of(s, q)
    requires StageOf(Of(s2, p)).None?
    requires a2 == a || (name in a2 && a2 == a[name := a2[name]])
    requires ProfileOk(lib, name, d, a2[name]) && HasManifest(d) && IsIdOf(s, name, ManifestIn(d).id)
    ensures VaultOk(lib, s2, a2) && IdsOk(s2) && StagesOk(s2)
  {
    hide ProcOk, LocksOk, RuntimesOk, ProfileOk;
    forall m, n, id | IsIdOf(s2, m, id) && IsIdOf(s2, n, id)
      ensures m == n
    {
      assert IsIdOf(s, m, id) && IsIdOf(s, n, id);
    }
  }

  /** A staging directory changes; nobody can see it. */
  lemma StagingDirectory(lib: Lib, s: State, a: Vault, s2: State, p: Pid, stage: bytes, d: UserDir)
    requires Inv(lib, s, a) && Hidden(stage) && s2.entries == s.entries[stage := d]
    requires forall q :: q != p ==> Of(s2, q) == Of(s, q)
    requires StageOf(Of(s2, p)).Some? ==> StageOf(Of(s2, p)) == Some(stage)
    requires stage in s.entries ==> StageOf(Of(s, p)) == Some(stage)
    requires HasManifest(d) ==> IsIdOf(s, stage, ManifestIn(d).id) || FreshId(s, ManifestIn(d).id)
    ensures VaultOk(lib, s2, a) && IdsOk(s2) && StagesOk(s2)
  {
    hide Knows, LocksOk, RuntimesOk, ProfileOk;
    forall m, n, id | IsIdOf(s2, m, id) && IsIdOf(s2, n, id)
      ensures m == n
    {
      assert m != stage ==> IsIdOf(s, m, id);
      assert n != stage ==> IsIdOf(s, n, id);
    }
    forall q | q != p
      ensures StageOf(Of(s, q)) != Some(stage)
    {
      assert ProcOk(lib, s, a, q);
    }
    hide ProcOk, Hidden;
  }

  /** A staging directory disappears. */
  lemma StagingRemoved(lib: Lib, s: State, a: Vault, s2: State, p: Pid, stage: bytes)
    requires Inv(lib, s, a) && Hidden(stage) && s2.entries == s.entries - {stage}
    requires forall q :: q != p ==> Of(s2, q) == Of(s, q)
    requires StageOf(Of(s2, p)).None?
    ensures VaultOk(lib, s2, a) && IdsOk(s2) && StagesOk(s2)
  {
    hide ProcOk, ProfileOk, LocksOk, RuntimesOk;
    forall m, n, id | IsIdOf(s2, m, id) && IsIdOf(s2, n, id)
      ensures m == n
    {
      assert IsIdOf(s, m, id) && IsIdOf(s, n, id);
    }
  }

  // --------------------------------------------------------- shapes of steps

  ghost predicate SameHoldings(proc: Proc, proc2: Proc) {
    HeldBy(proc2) == HeldBy(proc) && RuntimeOf(proc2) == RuntimeOf(proc)
  }

  /** A process that only changes its mind. */
  lemma QuietStep(lib: Lib, s: State, a: Vault, p: Pid, proc: Proc)
    requires Inv(lib, s, a) && SameHoldings(Of(s, p), proc)
    requires StageOf(proc).Some? ==> StageOf(proc) == StageOf(Of(s, p))
    requires proc.Waiting? ==> proc.name in a
    requires Knows(lib, proc, DirAt(s, proc), ProfileAt(a, proc), TreeAt(s, proc))
    ensures Inv(lib, Become(s, p, proc), a)
  {
    var s2 := Become(s, p, proc);
    hide Knows, Inv, VaultOk, IdsOk, StagesOk;
    Extract(lib, s, a, p);
    SameEntries(lib, s, a, s2, p);
    assert DirAt(s2, proc) == DirAt(s, proc) && TreeAt(s2, proc) == TreeAt(s, proc);
    LocalStep(lib, s, a, s2, a, p);
  }

  /** A process that writes into its own runtime directory. */
  lemma RuntimeStep(lib: Lib, s: State, a: Vault, p: Pid, proc: Proc, path: RuntimePath, tree: Tree)
    requires Inv(lib, s, a) && SameHoldings(Of(s, p), proc) && RuntimeOf(proc) == Some(path)
    requires Knows(lib, proc, DirAt(s, proc), ProfileAt(a, proc), Some(tree))
    ensures Inv(lib, Become(s, p, proc).(runtimes := s.runtimes[path := tree]), a)
  {
    var s2 := Become(s, p, proc).(runtimes := s.runtimes[path := tree]);
    hide Knows, Inv, VaultOk, IdsOk, StagesOk, ProfileOk;
    Extract(lib, s, a, p);
    SameEntries(lib, s, a, s2, p);
    assert DirAt(s2, proc) == DirAt(s, proc);
    LocalStep(lib, s, a, s2, a, p);
  }

  /** The holder of a lock changes its own directory. */
  lemma DirectoryStep(lib: Lib, s: State, a: Vault, p: Pid, proc: Proc, name: bytes, d: UserDir, a2: Vault)
    requires Inv(lib, s, a) && SameHoldings(Of(s, p), proc) && HeldBy(proc) == Some(name)
    requires name in a2 && (a2 == a || a2 == a[name := a2[name]])
    requires ProfileOk(lib, name, d, a2[name]) && HasManifest(d) && IsIdOf(s, name, ManifestIn(d).id)
    requires Knows(lib, proc, d, Some(a2[name]), TreeAt(s, proc))
    ensures Inv(lib, Put(Become(s, p, proc), name, d), a2)
  {
    var s2 := Put(Become(s, p, proc), name, d);
    hide Knows, Inv, VaultOk, IdsOk, StagesOk, ProfileOk;
    Extract(lib, s, a, p);
    OwnDirectory(lib, s, a, s2, a2, p, name, d);
    assert DirAt(s2, proc) == d && TreeAt(s2, proc) == TreeAt(s, proc);
    LocalStep(lib, s, a, s2, a2, p);
  }

  lemma StagingIsLocal(lib: Lib, s: State, a: Vault, p: Pid, proc: Proc, stage: bytes, d: UserDir)
    requires Inv(lib, s, a) && HeldBy(Of(s, p)).None? && HeldBy(proc).None?
    requires stage in s.entries ==> StageOf(Of(s, p)) == Some(stage)
    ensures var s2 := Put(Become(s, p, proc), stage, d); Local(s, a, s2, a, p) && Accounted(s, s2, p)
  {
    hide Inv, Knows, ProfileOk;
    Extract(lib, s, a, p);
  }

  /** A creator changes its own staging directory. */
  lemma StagingStep(lib: Lib, s: State, a: Vault, p: Pid, proc: Proc, stage: bytes, d: UserDir)
    requires Inv(lib, s, a) && HeldBy(Of(s, p)).None? && HeldBy(proc).None? && !proc.Waiting? && Hidden(stage)
    requires StageOf(proc).Some? ==> StageOf(proc) == Some(stage)
    requires stage in s.entries ==> StageOf(Of(s, p)) == Some(stage)
    requires HasManifest(d) ==> IsIdOf(s, stage, ManifestIn(d).id) || FreshId(s, ManifestIn(d).id)
    requires Knows(lib, proc, if StageOf(proc).Some? then d else EMPTY_DIR, None, None)
    ensures Inv(lib, Put(Become(s, p, proc), stage, d), a)
  {
    var s2 := Put(Become(s, p, proc), stage, d);
    hide Knows, Inv, VaultOk, IdsOk, StagesOk, Local, Accounted, Hidden, FreshId;
    StagingIsLocal(lib, s, a, p, proc, stage, d);
    StagingDirectory(lib, s, a, s2, p, stage, d);
    assert DirAt(s2, proc) == if StageOf(proc).Some? then d else EMPTY_DIR;
    LocalStep(lib, s, a, s2, a, p);
  }

  /** Some processes have nothing in memory that could go stale. */
  lemma KnowsNothing(lib: Lib, proc: Proc, d: UserDir, profile: Option<Profile>, tree: Option<Tree>)
    requires proc.Idle? || proc.Cleaning? || proc.Releasing?
    ensures Knows(lib, proc, d, profile, tree)
  {
  }

  lemma IdleIsOk(lib: Lib, s: State, a: Vault, p: Pid)
    requires Of(s, p).Idle?
    ensures ProcOk(lib, s, a, p)
  {
    KnowsNothing(lib, Idle, DirAt(s, Idle), ProfileAt(a, Idle), TreeAt(s, Idle));
    hide Knows, DirAt, ProfileAt, TreeAt;
  }

  lemma CreatorIsLocal(lib: Lib, s: State, a: Vault, p: Pid, entries: map<bytes, UserDir>, a2: Vault)
    requires Inv(lib, s, a) && HeldBy(Of(s, p)).None?
    requires forall n :: n in s.entries && StageOf(Of(s, p)) != Some(n) ==> n in entries && entries[n] == s.entries[n]
    requires forall n :: n in a ==> n in a2 && a2[n] == a[n]
    ensures var s2 := Become(s, p, Idle).(entries := entries); Local(s, a, s2, a2, p) && Accounted(s, s2, p)
  {
    hide Inv, ProfileOk, ProcOk;
    Extract(lib, s, a, p);
  }

  /** A creator ends its operation; whatever it did to the entries spared those of others. */
  lemma CreatorLeaves(lib: Lib, s: State, a: Vault, p: Pid, entries: map<bytes, UserDir>, a2: Vault)
    requires Inv(lib, s, a) && HeldBy(Of(s, p)).None?
    requires forall n :: n in s.entries && StageOf(Of(s, p)) != Some(n) ==> n in entries && entries[n] == s.entries[n]
    requires forall n :: n in a ==> n in a2 && a2[n] == a[n]
    requires var s2 := Become(s, p, Idle).(entries := entries); VaultOk(lib, s2, a2) && IdsOk(s2) && StagesOk(s2)
    ensures Inv(lib, Become(s, p, Idle).(entries := entries), a2)
  {
    hide Inv, VaultOk, IdsOk, StagesOk, ProcOk, Local, Accounted;
    var s2 := Become(s, p, Idle).(entries := entries);
    CreatorIsLocal(lib, s, a, p, entries, a2);
    IdleIsOk(lib, s2, a2, p);
    LocalStep(lib, s, a, s2, a2, p);
  }

  /** A process gains or loses locks and runtime directories of its own; the entries stay. */
  lemma HoldingsStep(lib: Lib, s: State, a: Vault, s2: State, p: Pid)
    requires Inv(lib, s, a) && s2.entries == s.entries
    requires Local(s, a, s2, a, p) && Accounted(s, s2, p) && Holds(s2, a, p)
    requires StageOf(Of(s2, p)).None?
    requires Knows(lib, Of(s2, p), DirAt(s2, Of(s2, p)), ProfileAt(a, Of(s2, p)), TreeAt(s2, Of(s2, p)))
    ensures Inv(lib, s2, a)
  {
    hide Inv, VaultOk, IdsOk, StagesOk, Knows, Holds;
    SameEntries(lib, s, a, s2, p);
    LocalStep(lib, s, a, s2, a, p);
  }

  /** The same for a process that keeps nothing in memory. */
  lemma HoldingsStepBlank(lib: Lib, s: State, a: Vault, s2: State, p: Pid)
    requires Inv(lib, s, a) && s2.entries == s.entries
    requires Local(s, a, s2, a, p) && Accounted(s, s2, p) && Holds(s2, a, p)
    requires Of(s2, p).Idle? || Of(s2, p).Releasing?
    ensures Inv(lib, s2, a)
  {
    hide Inv, Holds, Local, Accounted, Knows;
    var proc := Of(s2, p);
    KnowsNothing(lib, proc, DirAt(s2, proc), ProfileAt(a, proc), TreeAt(s2, proc));
    HoldingsStep(lib, s, a, s2, p);
  }
}
