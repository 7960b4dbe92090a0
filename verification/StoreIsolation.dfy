/** What a process can rely on while others act, and where each step takes it. */
module StoreIsolation {
  import opened Wrappers
  import opened Bytes
  import opened Libraries
  import opened Trees
  import opened Manifest
  import opened KeyWrap
  import opened Archive
  import opened StoreModel
  import opened StoreInvariant
  import opened StoreFrames
  import opened StoreRenames

  // ---------------------------------------------- what others leave alone

  predicate IsBy(e: Event, p: Pid) {
    e.By? && e.p == p
  }

  /** What process `p` relies on while others act: its own place, the files and the record of the
      profile it has locked, and the runtime directory it has created. */
  ghost predicate Undisturbed(s: State, a: Vault, s2: State, a2: Vault, p: Pid) {
    && Of(s2, p) == Of(s, p)
    && (HeldBy(Of(s, p)).Some? ==>
          var n := HeldBy(Of(s, p)).value;
          && n in a && n in a2 && a2[n] == a[n] && n in s.entries && n in s2.entries
          && s2.entries[n].manifest == s.entries[n].manifest && s2.entries[n].state == s.entries[n].state)
    && (RuntimeOf(Of(s, p)).Some? ==>
          var path := RuntimeOf(Of(s, p)).value;
          path in s.runtimes && path in s2.runtimes && s2.runtimes[path] == s.runtimes[path])
  }

  /** A step of `q` leaves alone where others stand and every runtime directory but its own. */
  ghost predicate OnlyOwn(s: State, s2: State, q: Pid) {
    && (forall p :: p != q ==> Of(s2, p) == Of(s, p))
    && (forall path :: path in s.runtimes && RuntimeOf(Of(s, q)) != Some(path) ==>
          path in s2.runtimes && s2.runtimes[path] == s.runtimes[path])
  }

  lemma CreatorsKeepToTheirOwn(lib: Lib, s: State, q: Pid, act: Action)
    ensures NextAdd(s, q, act).Some? ==> OnlyOwn(s, NextAdd(s, q, act).value, q)
    ensures IsStaged(act) && NextStaged(lib, s, q, act).Some? ==> OnlyOwn(s, NextStaged(lib, s, q, act).value, q)
  {
    hide Rewrap, Lists, CanSeal, SealedFile, UserDirectory, FreshId, IsValidUsername, NewHeader;
  }

  lemma EnteringKeepsToItsOwn(lib: Lib, s: State, q: Pid, act: Action)
    ensures NextLock(lib, s, q, act).Some? ==> OnlyOwn(s, NextLock(lib, s, q, act).value, q)
    ensures act.BeginRotation? || act.FinishRotation? || act.ReplaceManifest? ==>
              NextRotate(s, q, act).Some? ==> OnlyOwn(s, NextRotate(s, q, act).value, q)
  {
    hide Authenticate, Rotate, Validates, UserDirectory, IsValidUsername, EqualUpToCase;
  }

  lemma SessionsKeepToTheirOwn(lib: Lib, s: State, q: Pid, act: Action)
    ensures NextSession(lib, s, q, act).Some? ==> OnlyOwn(s, NextSession(lib, s, q, act).value, q)
    ensures act.BeginSeal? || act.FinishSeal? || act.ReplaceState? ==>
              NextSeal(lib, s, q, act).Some? ==> OnlyOwn(s, NextSeal(lib, s, q, act).value, q)
  {
    hide Unseal, Lists, CanSeal, SealedFile, WellFormedTree;
  }

  lemma CleanupKeepsToItsOwn(s: State, q: Pid, act: Action)
    ensures NextCleanup(s, q, act).Some? ==> OnlyOwn(s, NextCleanup(s, q, act).value, q)
  {
  }

  lemma EveryStepKeepsToItsOwn(lib: Lib, s: State, q: Pid, act: Action)
    requires Next(lib, s, By(q, act)).Some?
    ensures OnlyOwn(s, Next(lib, s, By(q, act)).value, q)
  {
    hide NextAdd, NextStaged, NextLock, NextRotate, NextSession, NextSeal, NextCleanup, OnlyOwn;
    CreatorsKeepToTheirOwn(lib, s, q, act);
    EnteringKeepsToItsOwn(lib, s, q, act);
    SessionsKeepToTheirOwn(lib, s, q, act);
    CleanupKeepsToItsOwn(s, q, act);
  }

  /** Noninterference: no event of anybody else disturbs a process. */
  lemma OthersDisturbNobody(lib: Lib, s: State, a: Vault, e: Event, p: Pid)
    requires Inv(lib, s, a) && Next(lib, s, e).Some? && !IsBy(e, p)
    ensures Undisturbed(s, a, Next(lib, s, e).value, Record(s, a, e), p)
  {
    hide Inv, Knows, ProfileOk, Record;
    Extract(lib, s, a, p);
    if e.By? {
      hide Next;
      EveryStepKeepsToItsOwn(lib, s, e.p, e.act);
      NothingIsShared(lib, s, a, p, e.p);
      if HeldBy(Of(s, p)).Some? {
        OnlyRenamesChangeProfiles(lib, s, a, e.p, e.act, HeldBy(Of(s, p)).value);
        OnlyRenamesChangeVault(lib, s, a, e, HeldBy(Of(s, p)).value);
      }
    } else {
      OutsidersDisturbNobody(lib, s, a, e, p);
    }
  }

  lemma OutsidersDisturbNobody(lib: Lib, s: State, a: Vault, e: Event, p: Pid)
    requires ProcOk(lib, s, a, p) && Next(lib, s, e).Some? && !e.By?
    ensures Undisturbed(s, a, Next(lib, s, e).value, Record(s, a, e), p)
  {
    hide Knows;
  }

  lemma UndisturbedTwice(s: State, a: Vault, s2: State, a2: Vault, s3: State, a3: Vault, p: Pid)
    requires Undisturbed(s, a, s2, a2, p) && Undisturbed(s2, a2, s3, a3, p)
    ensures Undisturbed(s, a, s3, a3, p)
  {
  }

  lemma UndisturbedAtFirst(lib: Lib, s: State, a: Vault, p: Pid)
    requires Inv(lib, s, a)
    ensures Undisturbed(s, a, s, a, p)
  {
    hide Inv, Knows, ProfileOk;
    Extract(lib, s, a, p);
  }

  // ------------------------------------------------------ the control flow

  /** Where a step takes the process that makes it. */
  ghost predicate Moves(proc: Proc, act: Action, to: Proc) {
    match act
    case StartAdd(user, password) => proc.Idle? && to == AddReady(user, password)
    case Stage(uuid) => proc.AddReady? && to == AddStaged(proc.user, proc.password, STAGING_PREFIX + uuid, None, None)
    case BeginManifest => proc.AddStaged? && to == proc
    case FinishManifest(newKey, _, _, _, _) => proc.AddStaged? && to == Staged(proc, Some(newKey), None)
    case BeginState(temp) => proc.AddStaged? && to == Staged(proc, proc.dataKey, Some(temp))
    case FinishState(_, _) => proc.AddStaged? && to == proc
    case PlaceState => proc.AddStaged? && to == Staged(proc, proc.dataKey, None)
    case Publish => proc.AddStaged? && to == Idle
    case AbandonAdd(_) => (proc.AddReady? || proc.AddStaged?) && to == Idle
    case Ask(user, job) => proc.Idle? && to == Waiting(UserDirectory(user), user, job)
    case TakeLock => proc.Waiting? && to == Locked(proc.name, proc.user, proc.job)
    case Refused => proc.Waiting? && to == Idle
    case Authenticated =>
      && proc.Locked?
      && (proc.job.Unlock? ==> to.Keyed? && to.name == proc.name)
      && (proc.job.ChangePassword? ==>
            to.Rotating? && to.name == proc.name && to.newPassword == proc.job.rotation.newPassword && to.temp.None?)
    case BeginRotation(temp) => proc.Rotating? && to == Rotating(proc.name, proc.manifest, proc.newPassword, Some(temp))
    case FinishRotation => proc.Rotating? && to == proc
    case ReplaceManifest => proc.Rotating? && to == Releasing(proc.name)
    case MakeRuntime(root) => proc.Keyed? && to == Extracting(proc.name, proc.key, RuntimePath(root, proc.id))
    case ExtractPart(_) => proc.Extracting? && to == proc
    case Opened => proc.Extracting? && to == Session(proc.name, proc.key, proc.path)
    case Edit(_) => proc.Session? && to == proc
    case StartClose => proc.Session? && to.Sealing? && to == Sealing(proc.name, proc.key, proc.path, None, to.tree)
    case BeginSeal(temp) => proc.Sealing? && to == Sealing(proc.name, proc.key, proc.path, Some(temp), proc.tree)
    case FinishSeal(_, _) => proc.Sealing? && to == proc
    case ReplaceState => proc.Sealing? && to == Cleaning(proc.name, proc.path)
    case GiveUp(_) =>
      if proc.Locked? || proc.Keyed? || proc.Rotating? then to == Releasing(proc.name)
      else (proc.Extracting? || proc.Session? || proc.Sealing?) && to == Cleaning(proc.name, proc.path)
    case CleanUp(_, _) => proc.Cleaning? && to == Releasing(proc.name)
    case Release => proc.Releasing? && to == Idle
    case Crash => to == Idle
  }

  lemma CreatorsMove(lib: Lib, s: State, p: Pid, act: Action)
    ensures NextAdd(s, p, act).Some? ==> Moves(Of(s, p), act, Of(NextAdd(s, p, act).value, p))
    ensures IsStaged(act) && NextStaged(lib, s, p, act).Some? ==>
            Moves(Of(s, p), act, Of(NextStaged(lib, s, p, act).value, p))
  {
    hide Rewrap, Lists, CanSeal, SealedFile, UserDirectory, FreshId, IsValidUsername, NewHeader;
  }

  lemma EnteringMoves(lib: Lib, s: State, p: Pid, act: Action)
    ensures NextLock(lib, s, p, act).Some? ==> Moves(Of(s, p), act, Of(NextLock(lib, s, p, act).value, p))
    ensures act.BeginRotation? || act.FinishRotation? || act.ReplaceManifest? ==>
              NextRotate(s, p, act).Some? ==> Moves(Of(s, p), act, Of(NextRotate(s, p, act).value, p))
  {
    hide Authenticate, Rotate, Validates, UserDirectory, IsValidUsername, EqualUpToCase;
  }

  lemma SessionsMove(lib: Lib, s: State, p: Pid, act: Action)
    ensures NextSession(lib, s, p, act).Some? ==> Moves(Of(s, p), act, Of(NextSession(lib, s, p, act).value, p))
    ensures act.BeginSeal? || act.FinishSeal? || act.ReplaceState? ==>
              NextSeal(lib, s, p, act).Some? ==> Moves(Of(s, p), act, Of(NextSeal(lib, s, p, act).value, p))
  {
    hide Unseal, Lists, CanSeal, SealedFile, WellFormedTree;
  }

  lemma CleanupMoves(s: State, p: Pid, act: Action)
    ensures NextCleanup(s, p, act).Some? ==> Moves(Of(s, p), act, Of(NextCleanup(s, p, act).value, p))
  {
    hide UserDirectory;
  }

  lemma EveryStepMoves(lib: Lib, s: State, p: Pid, act: Action)
    requires Next(lib, s, By(p, act)).Some?
    ensures Moves(Of(s, p), act, Of(Next(lib, s, By(p, act)).value, p))
  {
    hide NextAdd, NextStaged, NextLock, NextRotate, NextSession, NextSeal, NextCleanup, Moves;
    CreatorsMove(lib, s, p, act);
    EnteringMoves(lib, s, p, act);
    SessionsMove(lib, s, p, act);
    CleanupMoves(s, p, act);
  }

  /** Backing out is always possible, though not always without leaving the runtime directory over. */
  lemma CanAlwaysBackOut(lib: Lib, s: State, p: Pid, act: Action)
    requires BacksOut(Of(s, p), act)
    ensures Next(lib, s, By(p, act)).Some?
  {
  }

  predicate BacksOut(proc: Proc, act: Action) {
    match act
    case Refused => proc.Waiting?
    case GiveUp(_) => proc.Locked? || proc.Keyed? || proc.Rotating? || proc.Extracting? || proc.Session?
        || proc.Sealing?
    case CleanUp(removed, _) => proc.Cleaning? && !removed
    case Release => proc.Releasing?
    case _ => false
  }

  lemma MovesBack(proc: Proc, act: Action, to: Proc)
    requires Moves(proc, act, to) && BacksOut(proc, act)
    ensures act.Refused? || act.Release? ==> to == Idle
    ensures act.GiveUp? ==> to.Releasing? || (to.Cleaning? && RuntimeOf(proc) == Some(to.path))
    ensures act.CleanUp? ==> to.Releasing?
  {
    hide UserDirectory;
  }

  /** Entering with a job leads to the profile asked for. */
  ghost predicate Entered(proc: Proc, name: bytes, job: Job) {
    if job.Unlock? then proc.Keyed? && proc.name == name
    else proc.Rotating? && proc.name == name && proc.newPassword == job.rotation.newPassword && proc.temp.None?
  }

  lemma MovesIn(proc: Proc, act: Action, to: Proc)
    requires Moves(proc, act, to)
    ensures act.Ask? ==> to == Waiting(UserDirectory(act.user), act.user, act.job)
    ensures act.TakeLock? ==> proc.Waiting? && to == Locked(proc.name, proc.user, proc.job)
    ensures act.Authenticated? ==> proc.Locked? && Entered(to, proc.name, proc.job)
  {
    hide UserDirectory;
  }

  lemma MovesOn(proc: Proc, act: Action, to: Proc)
    requires Moves(proc, act, to)
    ensures act.BeginRotation? || act.FinishRotation? ==>
              proc.Rotating? && to.Rotating? && to.name == proc.name && to.newPassword == proc.newPassword
    ensures act.ReplaceManifest? ==> proc.Rotating? && to == Releasing(proc.name)
    ensures act.MakeRuntime? ==> proc.Keyed? && to == Extracting(proc.name, proc.key, RuntimePath(act.root, proc.id))
    ensures act.ExtractPart? ==> proc.Extracting? && to == proc
    ensures act.Opened? ==> proc.Extracting? && to == Session(proc.name, proc.key, proc.path)
    ensures act.StartClose? ==>
              proc.Session? && to.Sealing? && to.name == proc.name && to.path == proc.path && to.temp.None?
    ensures act.BeginSeal? || act.FinishSeal? ==>
              proc.Sealing? && to.Sealing? && to.name == proc.name && to.path == proc.path && to.tree == proc.tree
    ensures act.ReplaceState? ==> proc.Sealing? && to == Cleaning(proc.name, proc.path)
    ensures act.CleanUp? ==> proc.Cleaning? && to == Releasing(proc.name)
  {
    hide UserDirectory;
  }
}
