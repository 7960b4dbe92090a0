/** The operations of the store as the code performs them: each is one process's sequence of steps, with
    its early returns and its cleanup, while other processes act between any two of the steps. */
module StoreOperations {
  import opened Wrappers
  import opened Bytes
  import opened Cipher
  import opened Libraries
  import opened Trees
  import opened Manifest
  import opened KeyWrap
  import opened StoreModel
  import opened StoreInvariant
  import opened StoreFrames
  import opened StoreSteps
  import opened StoreRenames
  import opened StoreIsolation
  import opened StoreLocks
  import opened StoreWraps
  import opened StoreTheorems
  import opened StoreHistory
  import opened StoreReopening

  /** What others do before a step, and whether the system calls of the step work. */
  datatype Turn = Turn(others: seq<Event>, works: bool)

  type Schedule = nat -> Turn

  /** How well a cleanup goes: whether a temporary file and the runtime directory are removed, and what
      an incomplete removal leaves. */
  datatype Cleanup = Cleanup(tempRemoved: bool, runtimeRemoved: bool, rest: Tree)

  datatype StoreError = InvalidConfiguration | UserExists | ProfileLocked | Unauthenticated | Failure

  datatype Outcome = Done | Failed(error: StoreError)

  /** The history only grows, and it was fair if it still is. */
  ghost predicate Continues(lib: Lib, before: seq<Event>, now: seq<Event>) {
    before <= now && (FairRun(lib, now) ==> FairRun(lib, before))
  }

  lemma HistoryGoesOn(lib: Lib, log: seq<Event>, s: State, a: Vault, e: Event)
    requires After(lib, log) == Some((s, a)) && Next(lib, s, e).Some?
    ensures After(lib, log + [e]) == Some((Next(lib, s, e).value, Record(s, a, e)))
    ensures FairRun(lib, log + [e]) <==> FairRun(lib, log) && Fair(lib, Wraps(lib, log), s, e)
  {
    hide Next, Record, Fair, Logged;
    assert (log + [e])[..|log|] == log;
  }

  /** The profile whose lock a process holds has the record it had. */
  ghost predicate SameRecord(proc: Proc, a: Vault, a2: Vault) {
    HeldBy(proc).Some? ==> var n := HeldBy(proc).value; n in a && n in a2 && a2[n] == a[n]
  }

  class VaultStore {
    const lib: Lib
    var s: State

    /** The recorded vault and all events so far. */
    ghost var a: Vault
    ghost var log: seq<Event>

    ghost predicate Valid()
      reads this
    {
      lib.Lawful() && After(lib, log) == Some((s, a))
    }

    /** The assumption on runs has held so far: no salt was drawn twice, no wrapped key forged. */
    ghost predicate Honest()
      reads this
    {
      FairRun(lib, log)
    }

    lemma ValidIsCoupled()
      requires Valid() && Honest()
      ensures Inv(lib, s, a)
    {
      hide Inv;
      EveryRunKeepsInv(lib, log);
    }

    lemma ValidIsOrderly()
      requires Valid()
      ensures RuntimesHeld(s) && TreesHeld(s)
    {
      hide After, RuntimesHeld, TreesHeld;
      HistoryIsOrderly(lib, log);
    }

    lemma ValidIsHistory()
      requires Valid()
      ensures After(lib, log) == Some((s, a))
    {
      hide After;
    }

    lemma VaultIsLastSealed(name: bytes)
      requires Valid() && Honest() && name in a
      ensures LastSealed(lib, log, name) == Some(a[name].tree)
    {
      hide After, FairRun, LastSealed;
      VaultHoldsLastSealed(lib, log, name);
    }

    /** An empty store. */
    constructor (lib: Lib)
      requires lib.Lawful()
      ensures Valid() && Honest() && this.lib == lib && s == INIT && a == map[] && log == []
    {
      this.lib, s, a, log := lib, INIT, map[], [];
    }

    /** An event happens, if it can. */
    method Play(e: Event) returns (done: bool)
      requires Valid()
      modifies this
      ensures Valid() && Continues(lib, old(log), log)
      ensures done == Next(lib, old(s), e).Some?
      ensures done ==> Some(s) == Next(lib, old(s), e) && a == Record(old(s), old(a), e)
      ensures log == if done then old(log) + [e] else old(log)
      ensures !done ==> s == old(s) && a == old(a)
    {
      hide Next, Record, FairRun, After;
      var next := Next(lib, s, e);
      done := next.Some?;
      if done {
        HistoryGoesOn(lib, log, s, a, e);
        a, log := Record(s, a, e), log + [e];
        s := next.value;
      }
    }

    /** Others act: whatever they do, process `p` is not disturbed. */
    method Pause(p: Pid, others: seq<Event>)
      requires Valid()
      modifies this
      ensures Valid() && Continues(lib, old(log), log)
      ensures Of(s, p) == Of(old(s), p) && forall mark :: Count(p, log, mark) == Count(p, old(log), mark)
      ensures RuntimeKept(old(s), s, p)
      ensures Honest() ==> Undisturbed(old(s), old(a), s, a, p)
    {
      hide Next, Record, FairRun, After, Undisturbed, Inv, Count, RuntimeKept, RuntimesHeld;
      ValidIsOrderly();
      KeptAtFirst(s, p);
      if Honest() {
        ValidIsCoupled();
        UndisturbedAtFirst(lib, s, a, p);
      }
      for i := 0 to |others|
        invariant Valid() && Continues(lib, old(log), log)
        invariant Of(s, p) == Of(old(s), p) && forall mark :: Count(p, log, mark) == Count(p, old(log), mark)
        invariant RuntimeKept(old(s), s, p)
        invariant Honest() ==> Undisturbed(old(s), old(a), s, a, p)
      {
        if !IsBy(others[i], p) {
          ghost var s1, a1, log1 := s, a, log;
          ValidIsOrderly();
          if Honest() {
            ValidIsCoupled();
          }
          var done := Play(others[i]);
          if done {
            OthersKeepRuntime(lib, s1, others[i], p);
            KeptTwice(old(s), s1, s, p);
            forall mark {
              CountSnoc(p, log1, others[i], mark);
            }
            if Honest() {
              OthersDisturbNobody(lib, s1, a1, others[i], p);
              UndisturbedTwice(old(s), old(a), s1, a1, s, a, p);
            }
          }
        }
      }
    }

    /** Others act, then process `p` takes a step if it can and the system calls work. The state it acts
        on is returned for the proofs. */
    method Act(p: Pid, act: Action, turn: Turn) returns (done: bool, ghost s1: State, ghost a1: Vault)
      requires Valid()
      modifies this
      ensures Valid() && Continues(lib, old(log), log)
      ensures Of(s1, p) == Of(old(s), p) && (Honest() ==> Undisturbed(old(s), old(a), s1, a1, p) && Inv(lib, s1, a1))
      ensures BacksOut(Of(old(s), p), act) ==> done
      ensures RuntimeKept(old(s), s1, p) && (!done || !Reshapes(act) ==> RuntimeKept(old(s), s, p))
      ensures if done then
                && Next(lib, s1, By(p, act)) == Some(s) && a == Record(s1, a1, By(p, act))
                && Moves(Of(old(s), p), act, Of(s, p))
              else s == s1 && a == a1 && Of(s, p) == Of(old(s), p)
      ensures turn.works && !done ==> Next(lib, s1, By(p, act)).None?
      ensures done ==> log != [] && log[|log| - 1] == By(p, act)
      ensures forall mark :: Count(p, log, mark) == Count(p, old(log), mark)
                                + if done && Marked(act, mark) then 1 else 0
    {
      hide Next, Record, FairRun, After, Undisturbed, Inv, Count, Moves, Marked, RuntimeKept, RuntimesHeld, TreeHeld;
      Pause(p, turn.others);
      ValidIsOrderly();
      s1, a1 := s, a;
      ghost var log1 := log;
      if Honest() {
        ValidIsCoupled();
      }
      done := false;
      if turn.works || BacksOut(Of(s, p), act) {
        if BacksOut(Of(s, p), act) {
          CanAlwaysBackOut(lib, s, p, act);
        }
        done := Play(By(p, act));
        if done {
          EveryStepMoves(lib, s1, p, act);
          StepHoldsTree(lib, s1, p, act);
          if !Reshapes(act) {
            KeptTwice(old(s), s1, s, p);
          }
          forall mark {
            CountSnoc(p, log1, By(p, act), mark);
          }
        }
      }
    }

    /** A step that renames nothing and lets go of nothing. */
    method Do(p: Pid, act: Action, turn: Turn) returns (done: bool)
      requires Valid() && !Marked(act, Rename) && !Marked(act, LetGo)
      modifies this
      ensures Valid() && Continues(lib, old(log), log)
      ensures Did(p, old(log), log, 0, 0) && (!Marked(act, Litter) ==> Tidy(p, old(log), log))
      ensures !Marked(act, Write) ==> ReadsOnly(p, old(log), log)
      ensures BacksOut(Of(old(s), p), act) ==> done
      ensures !done || !Reshapes(act) ==> RuntimeKept(old(s), s, p)
      ensures if done then Moves(Of(old(s), p), act, Of(s, p)) else Of(s, p) == Of(old(s), p)
      ensures Honest() ==> SameRecord(Of(old(s), p), old(a), a)
    {
      hide Next, Record, FairRun, After, Undisturbed, Inv, Count, Moves, Marked, SameRecord, RuntimeKept;
      ghost var s0, a0 := s, a;
      ghost var s1, a1;
      done, s1, a1 := Act(p, act, turn);
      if Honest() {
        QuietKeepsRecord(s0, a0, s1, a1, p, act);
      }
    }

    // ------------------------------------------------------------ add_user

    /** One step of filling the staging directory. */
    method Fill(p: Pid, act: Action, turn: Turn) returns (done: bool)
      requires Valid() && IsStaged(act) && !act.Publish? && Of(s, p).AddStaged?
      modifies this
      ensures Valid() && Continues(lib, old(log), log)
      ensures Did(p, old(log), log, 0, 0) && Tidy(p, old(log), log)
      ensures var proc, to := Of(old(s), p), Of(s, p);
              && to.AddStaged? && to.user == proc.user && to.password == proc.password && to.stage == proc.stage
              && to.dataKey == if done && act.FinishManifest? then Some(act.newKey) else proc.dataKey
    {
      hide FairRun, After, Inv, Count, UserDirectory, SameRecord;
      done := Do(p, act, turn);
    }

    /** The manifest with the new data key goes into the staging directory. */
    method FillManifest(p: Pid, r: Draws, turns: Schedule) returns (filled: bool)
      requires Valid() && Of(s, p).AddStaged?
      modifies this
      ensures Valid() && Continues(lib, old(log), log)
      ensures Did(p, old(log), log, 0, 0) && Tidy(p, old(log), log)
      ensures var proc, to := Of(old(s), p), Of(s, p);
              && to.AddStaged? && to.user == proc.user && to.password == proc.password && to.stage == proc.stage
              && (filled ==> to.dataKey == Some(r.newKey))
    {
      hide FairRun, After, Inv, Count, UserDirectory, Of, Valid;
      filled := Fill(p, BeginManifest, turns(2));
      if filled {
        filled := Fill(p, FinishManifest(r.newKey, r.salt, r.iv, r.id, r.createdAt), turns(3));
      }
    }

    /** And then the sealed empty tree. */
    method FillState(p: Pid, r: Draws, turns: Schedule) returns (filled: bool)
      requires Valid() && Of(s, p).AddStaged?
      modifies this
      ensures Valid() && Continues(lib, old(log), log)
      ensures Did(p, old(log), log, 0, 0) && Tidy(p, old(log), log)
      ensures var proc, to := Of(old(s), p), Of(s, p);
              && to.AddStaged? && to.user == proc.user && to.password == proc.password && to.stage == proc.stage
              && to.dataKey == proc.dataKey
    {
      hide FairRun, After, Inv, Count, UserDirectory, Of, Valid;
      filled := Fill(p, BeginState(r.temp), turns(4));
      if filled {
        filled := Fill(p, FinishState(r.seed, ROOT_ONLY), turns(5));
      }
      if filled {
        filled := Fill(p, PlaceState, turns(6));
      }
    }

    /** Writes manifest and state into the staging directory and renames it into place. */
    method FillAndPublish(p: Pid, r: Draws, turns: Schedule) returns (published: bool)
      requires Valid() && Of(s, p).AddStaged?
      modifies this
      ensures Valid() && Continues(lib, old(log), log)
      ensures Did(p, old(log), log, if published then 1 else 0, 0) && Tidy(p, old(log), log)
      ensures if published then Of(s, p).Idle? else Of(s, p).AddStaged? && Of(s, p).stage == Of(old(s), p).stage
      ensures published ==>
                var proc := Of(old(s), p); var dir := UserDirectory(proc.user);
                dir in a && a[dir] == Profile(proc.password, r.newKey, map[])
    {
      hide Next, Record, FairRun, After, Undisturbed, Inv, Count, UserDirectory, Of, Valid;
      published := FillManifest(p, r, turns);
      if !published { return; }
      published := FillState(p, r, turns);
      if !published { return; }
      ghost var s1, a1;
      published, s1, a1 := Act(p, Publish, turns(7));
      RecordsPublication(s1, a1, p);
    }

    /** `remove_dir_all` on the staging directory; `left` is what an incomplete removal leaves of it. */
    method Abandon(p: Pid, left: Option<UserDir>, turn: Turn)
      requires Valid() && (Of(s, p).AddReady? || Of(s, p).AddStaged?)
      modifies this
      ensures Valid() && Continues(lib, old(log), log)
      ensures Did(p, old(log), log, 0, 0) && Count(p, log, Staging) == Count(p, old(log), Staging)
      ensures left.None? ==> Tidy(p, old(log), log)
      ensures Honest() ==> Of(s, p).Idle?
      ensures Honest() && left.None? && Of(old(s), p).AddStaged? ==> Of(old(s), p).stage !in s.entries
    {
      hide Next, Record, FairRun, After, Undisturbed, Inv, Count, LeftOf;
      Pause(p, turn.others);
      ghost var log1 := log;
      if Honest() {
        ValidIsCoupled();
        CanAbandon(lib, s, a, p, left);
      }
      ghost var s1 := s;
      var act := AbandonAdd(LeftOf(s, p, left));
      var done := Play(By(p, act));
      if done {
        EveryStepMoves(lib, s1, p, act);
        forall mark {
          CountSnoc(p, log1, By(p, act), mark);
        }
        AbandonRemoves(lib, s1, p, left);
      }
    }

    /** `add_user`. It reports success exactly when it has published, and then the profile has the given
        password, the drawn key and an empty tree. It reports an existing name only if there is one. On any
        other failure the staging directory, if it was made, is gone unless its removal failed. */
    method AddUser(p: Pid, user: bytes, password: bytes, r: Draws, left: Option<UserDir>, turns: Schedule)
      returns (outcome: Outcome)
      requires Valid() && Of(s, p).Idle?
      modifies this
      ensures Valid() && Continues(lib, old(log), log)
      ensures !IsValidUsername(user) || |password| < PASSWORD_MINIMUM ==>
              outcome == Failed(InvalidConfiguration) && s == old(s)
      ensures Honest() ==> Of(s, p).Idle?
      ensures Did(p, old(log), log, if outcome.Done? then 1 else 0, 0)
      ensures outcome.Done? ==> UserDirectory(user) in a && a[UserDirectory(user)] == Profile(password, r.newKey, map[])
      ensures outcome == Failed(UserExists) && Honest() ==> UserDirectory(user) in a
      ensures outcome.Failed? && left.None? && Honest() ==>
                Count(p, log, Staging) == Count(p, old(log), Staging) || STAGING_PREFIX + r.uuid !in s.entries
    {
      hide Next, Record, FairRun, After, Undisturbed, Inv, Count, UserDirectory, IsValidUsername, Valid;
      if !IsValidUsername(user) || |password| < PASSWORD_MINIMUM {
        return Failed(InvalidConfiguration);
      }
      var ok := StartAdding(p, user, password, turns(0));
      if !ok {
        return Failed(if turns(0).works then UserExists else Failure);
      }
      ghost var s1, a1;
      ok, s1, a1 := Act(p, Stage(r.uuid), turns(1));
      if ok {
        ok := FillAndPublish(p, r, turns);
      }
      if !ok {
        Abandon(p, left, turns(8));
        return Failed(Failure);
      }
      return Done;
    }

    /** The check that the name is free. */
    method StartAdding(p: Pid, user: bytes, password: bytes, turn: Turn) returns (free: bool)
      requires Valid() && Of(s, p).Idle? && IsValidUsername(user) && |password| >= PASSWORD_MINIMUM
      modifies this
      ensures Valid() && Continues(lib, old(log), log)
      ensures Did(p, old(log), log, 0, 0) && Count(p, log, Staging) == Count(p, old(log), Staging)
      ensures Of(s, p) == if free then AddReady(user, password) else Idle
      ensures !free && turn.works && Honest() ==> UserDirectory(user) in a
    {
      hide Next, Record, FairRun, After, Undisturbed, Inv, Count, UserDirectory, IsValidUsername, Valid;
      ghost var s1, a1;
      free, s1, a1 := Act(p, StartAdd(user, password), turn);
      if !free && turn.works && Honest() {
        NameIsTaken(lib, s1, a1, p, user, password);
      }
    }

    // -------------------------------------------------- locking and backing out

    /** Asks for a profile and takes its lock, if nobody has it. */
    method LockProfile(p: Pid, user: bytes, job: Job, turns: Schedule) returns (locked: Outcome)
      requires Valid() && Of(s, p).Idle?
      modifies this
      ensures Valid() && Continues(lib, old(log), log)
      ensures Did(p, old(log), log, 0, 0) && Tidy(p, old(log), log) && ReadsOnly(p, old(log), log)
      ensures Of(s, p) == if locked.Done? then Locked(UserDirectory(user), user, job) else Idle
    {
      hide FairRun, After, Inv, Count, UserDirectory, Valid, Moves, Of, SameRecord, RuntimeKept;
      ghost var before := Of(s, p);
      var ok := Do(p, Ask(user, job), turns(0));
      if !ok {
        return Failed(Unauthenticated);
      }
      MovesIn(before, Ask(user, job), Of(s, p));
      locked := TryLock(p, turns);
    }

    /** `try_lock_exclusive`: the lock is taken or the process is out again. */
    method TryLock(p: Pid, turns: Schedule) returns (locked: Outcome)
      requires Valid() && Of(s, p).Waiting?
      modifies this
      ensures Valid() && Continues(lib, old(log), log)
      ensures Did(p, old(log), log, 0, 0) && Tidy(p, old(log), log) && ReadsOnly(p, old(log), log)
      ensures var proc := Of(old(s), p);
              Of(s, p) == if locked.Done? then Locked(proc.name, proc.user, proc.job) else Idle
    {
      hide FairRun, After, Inv, Count, UserDirectory, Valid, Moves, Of, SameRecord, RuntimeKept;
      ghost var before := Of(s, p);
      var ok := Do(p, TakeLock, turns(1));
      if !ok {
        ok := Do(p, Refused, turns(2));
        MovesBack(before, Refused, Of(s, p));
        return Failed(if turns(1).works then ProfileLocked else Failure);
      }
      MovesIn(before, TakeLock, Of(s, p));
      return Done;
    }

    /** Enters a profile: lock it and authenticate. */
    method Enter(p: Pid, user: bytes, job: Job, turns: Schedule) returns (entered: Outcome)
      requires Valid() && Of(s, p).Idle?
      modifies this
      ensures Valid() && Continues(lib, old(log), log)
      ensures Count(p, log, Rename) == Count(p, old(log), Rename)
      ensures Tidy(p, old(log), log) && ReadsOnly(p, old(log), log)
      ensures if entered.Done? then Did(p, old(log), log, 0, 0) else LetsGoLast(p, old(log), log)
      ensures if entered.Failed? then Of(s, p).Idle? else Entered(Of(s, p), UserDirectory(user), job)
      ensures entered.Done? ==> UserDirectory(user) in s.locks && s.locks[UserDirectory(user)] == p
    {
      hide FairRun, After, Inv, Count, UserDirectory, Valid, Moves, Entered, Of, SameRecord;
      entered := LockProfile(p, user, job, turns);
      if entered.Failed? {
        return;
      }
      ghost var before := Of(s, p);
      var ok := Do(p, Authenticated, turns(2));
      if !ok {
        Retreat(p, Cleanup(true, true, map[]), turns);
        return Failed(Unauthenticated);
      }
      MovesIn(before, Authenticated, Of(s, p));
      EnteredHolds(p, UserDirectory(user), job);
    }

    lemma EnteredHolds(p: Pid, name: bytes, job: Job)
      requires Valid() && Entered(Of(s, p), name, job)
      ensures name in s.locks && s.locks[name] == p
    {
      hide After;
      HistoryIsOrderly(lib, log);
    }

    lemma IdleHoldsNothing(p: Pid)
      requires Valid() && Of(s, p).Idle?
      ensures forall n :: n in s.locks ==> s.locks[n] != p
    {
      hide After;
      HistoryIsOrderly(lib, log);
    }

    /** The error path from anywhere behind the lock: remove the temporary and the runtime directory,
        then release the lock. */
    method Retreat(p: Pid, c: Cleanup, turns: Schedule)
      requires Valid() && BacksOut(Of(s, p), GiveUp(c.tempRemoved))
      modifies this
      ensures Valid() && Continues(lib, old(log), log) && Of(s, p).Idle?
      ensures Did(p, old(log), log, 0, 1) && ReadsOnly(p, old(log), log)
      ensures c.runtimeRemoved && CanClear(old(s), p) ==> Tidy(p, old(log), log)
      ensures log != [] && log[|log| - 1] == By(p, Release)
    {
      hide FairRun, After, Inv, Count, Valid, Moves, Of, SameRecord, RuntimeKept, CanClear;
      ghost var s0 := s;
      var ok := Do(p, GiveUp(c.tempRemoved), turns(10));
      MovesBack(Of(s0, p), GiveUp(c.tempRemoved), Of(s, p));
      if Of(s, p).Cleaning? {
        ClearAsBefore(s0, s, p);
        ok := Clear(p, c, turns(11));
      }
      Leave(p, turns(12));
    }

    /** Removes the runtime directory, if the removal is to work and what the directory holds lets it, or else
        leaves over what the removal left. */
    method Clear(p: Pid, c: Cleanup, turn: Turn) returns (cleared: bool)
      requires Valid() && Of(s, p).Cleaning?
      modifies this
      ensures Valid() && Continues(lib, old(log), log)
      ensures cleared <==> c.runtimeRemoved && CanClear(old(s), p)
      ensures Did(p, old(log), log, 0, 0) && ReadsOnly(p, old(log), log) && (cleared ==> Tidy(p, old(log), log))
      ensures Of(s, p) == Releasing(Of(old(s), p).name)
      ensures Honest() ==> SameRecord(Of(old(s), p), old(a), a)
    {
      hide Next, Record, FairRun, After, Undisturbed, Inv, Count, Moves, SameRecord, RuntimeKept, CanClear;
      ghost var s0, a0 := s, a;
      cleared := c.runtimeRemoved && CanClear(s, p);
      var act := CleanUp(cleared, c.rest);
      ghost var s1, a1;
      var done;
      done, s1, a1 := Act(p, act, Turn(turn.others, true));
      ClearAsBefore(s0, s1, p);
      ClearingWorks(lib, s1, p, act);
      MovesOn(Of(s0, p), act, Of(s, p));
      if Honest() {
        QuietKeepsRecord(s0, a0, s1, a1, p, act);
      }
    }

    /** Gives the lock back; the record of the profile is as before. */
    method Leave(p: Pid, turn: Turn)
      requires Valid() && Of(s, p).Releasing?
      modifies this
      ensures Valid() && Continues(lib, old(log), log) && Of(s, p).Idle?
      ensures Did(p, old(log), log, 0, 1) && Tidy(p, old(log), log) && ReadsOnly(p, old(log), log)
      ensures log != [] && log[|log| - 1] == By(p, Release)
      ensures Honest() ==> SameRecord(Of(old(s), p), old(a), a)
    {
      hide Next, Record, FairRun, After, Undisturbed, Inv, Count, Valid, Moves, SameRecord;
      ghost var s0, a0 := s, a;
      var ok;
      ghost var s1, a1;
      ok, s1, a1 := Act(p, Release, turn);
      MovesBack(Of(s0, p), Release, Of(s, p));
      if Honest() {
        QuietKeepsRecord(s0, a0, s1, a1, p, Release);
      }
    }

    // --------------------------------------------------------- rotate_password

    /** The new manifest goes into a temporary file beside the old one. */
    method WriteManifestTemp(p: Pid, temp: bytes, turns: Schedule) returns (written: bool)
      requires Valid() && Of(s, p).Rotating?
      modifies this
      ensures Valid() && Continues(lib, old(log), log) && Did(p, old(log), log, 0, 0)
      ensures var proc, to := Of(old(s), p), Of(s, p);
              to.Rotating? && to.name == proc.name && to.newPassword == proc.newPassword
    {
      hide FairRun, After, Inv, Count, Valid, Moves, Of, SameRecord;
      ghost var before := Of(s, p);
      written := Do(p, BeginRotation(temp), turns(3));
      if written {
        MovesOn(before, BeginRotation(temp), Of(s, p));
        before := Of(s, p);
        written := Do(p, FinishRotation, turns(4));
        if written {
          MovesOn(before, FinishRotation, Of(s, p));
        }
      }
    }

    /** `replace_private_json` up to its rename. */
    method ReplaceManifestFile(p: Pid, temp: bytes, turns: Schedule) returns (replaced: bool)
      requires Valid() && Of(s, p).Rotating?
      modifies this
      ensures Valid() && Continues(lib, old(log), log)
      ensures Did(p, old(log), log, if replaced then 1 else 0, 0)
      ensures if replaced then Of(s, p) == Releasing(Of(old(s), p).name) else Of(s, p).Rotating?
      ensures replaced && Honest() ==>
                var proc := Of(old(s), p); proc.name in a && a[proc.name].password == proc.newPassword
    {
      hide Next, Record, FairRun, After, Undisturbed, Inv, Count, Valid, Moves, Of, SameRecord;
      replaced := WriteManifestTemp(p, temp, turns);
      if !replaced { return; }
      ghost var before := Of(s, p);
      ghost var s1, a1;
      replaced, s1, a1 := Act(p, ReplaceManifest, turns(5));
      if replaced {
        MovesOn(before, ReplaceManifest, Of(s, p));
        if Honest() {
          RecordsRotation(lib, s1, a1, p);
        }
      }
    }

    /** Replaces the manifest and gives the lock back, with or without success. */
    method ReplaceAndLeave(p: Pid, temp: bytes, c: Cleanup, turns: Schedule) returns (outcome: Outcome)
      requires Valid() && Of(s, p).Rotating?
      modifies this
      ensures Valid() && Continues(lib, old(log), log) && Of(s, p).Idle?
      ensures Count(p, old(log), Rename) <= Count(p, log, Rename) <= Count(p, old(log), Rename) + 1
      ensures outcome.Done? ==> Count(p, log, Rename) == Count(p, old(log), Rename) + 1
      ensures Honest() && Count(p, log, Rename) != Count(p, old(log), Rename) ==>
                var proc := Of(old(s), p); proc.name in a && a[proc.name].password == proc.newPassword
      ensures Count(p, log, LetGo) == Count(p, old(log), LetGo) + 1 && log != [] && log[|log| - 1] == By(p, Release)
    {
      hide FairRun, After, Inv, Count, Valid, Moves, Of;
      var replaced := ReplaceManifestFile(p, temp, turns);
      if replaced {
        Leave(p, turns(7));
      } else {
        Retreat(p, c, turns);
      }
      outcome := if replaced && turns(6).works then Done else Failed(Failure);
    }

    /** `rotate_password`. When it succeeds the profile has the new password. When it fails it has made at
        most one rename, because the directory may fail to synchronise after the new manifest is in place:
        with that rename the new password counts, and without it the record of the profile is, as the lock
        is given back, exactly what it was as the lock was taken. */
    method RotatePassword(p: Pid, user: bytes, current: bytes, rotation: Rotation, temp: bytes, c: Cleanup,
        turns: Schedule)
      returns (outcome: Outcome)
      requires Valid() && Of(s, p).Idle?
      modifies this
      ensures Valid() && Continues(lib, old(log), log) && Of(s, p).Idle?
      ensures !IsValidUsername(user) || |rotation.newPassword| < PASSWORD_MINIMUM ==>
                outcome == Failed(InvalidConfiguration) && s == old(s)
      ensures Count(p, old(log), Rename) <= Count(p, log, Rename) <= Count(p, old(log), Rename) + 1
      ensures outcome.Done? ==> Count(p, log, Rename) == Count(p, old(log), Rename) + 1
      ensures Honest() && Count(p, log, Rename) != Count(p, old(log), Rename) ==>
                UserDirectory(user) in a && a[UserDirectory(user)].password == rotation.newPassword
      ensures Honest() && Count(p, log, Rename) == Count(p, old(log), Rename) ==> AsWhenLocked(lib, p, log, |old(log)|)
    {
      ghost var s0, a0, log0 := s, a, log;
      hide FairRun, After, Inv, Count, UserDirectory, IsValidUsername, Valid, Moves, Of, SameRecord, AsWhenLocked;
      ValidIsHistory();
      outcome := Failed(InvalidConfiguration);
      if IsValidUsername(user) && |rotation.newPassword| >= PASSWORD_MINIMUM {
        outcome := Enter(p, user, ChangePassword(current, rotation), turns);
        if outcome.Done? {
          outcome := ReplaceAndLeave(p, temp, c, turns);
        }
      }
      if Honest() && Count(p, log, Rename) == Count(p, log0, Rename) {
        RecordAsWhenLocked(p, log0, s0, a0);
      }
    }

    lemma RecordAsWhenLocked(p: Pid, before: seq<Event>, s0: State, a0: Vault)
      requires Valid() && Honest() && before <= log && After(lib, before) == Some((s0, a0)) && Of(s, p).Idle?
      requires Count(p, log, Rename) == Count(p, before, Rename) && LetsGoLast(p, before, log)
      ensures AsWhenLocked(lib, p, log, |before|)
    {
      hide After, FairRun, Count, AsWhenLocked, LetsGoLast, Of;
      EndsOfHistory(lib, before, log, s0, a0, s, a);
      CountsTell(p, before, log);
      UnchangedWhenLocked(lib, p, log, |before|);
    }

    // ------------------------------------------------------------ unlock, close

    /** Creates the runtime directory and extracts the state into it. */
    method OpenRuntime(p: Pid, root: bytes, part: Tree, turns: Schedule) returns (shown: bool)
      requires Valid() && Of(s, p).Keyed?
      modifies this
      ensures Valid() && Continues(lib, old(log), log)
      ensures Did(p, old(log), log, 0, 0) && Tidy(p, old(log), log) && ReadsOnly(p, old(log), log)
      ensures if shown then Of(s, p).Session? && Of(s, p).name == Of(old(s), p).name
              else BacksOut(Of(s, p), GiveUp(true)) && CanClear(s, p)
      ensures shown && Honest() ==>
                var here := Of(s, p);
                here.path in s.runtimes && here.name in a && s.runtimes[here.path] == a[here.name].tree
    {
      hide FairRun, After, Inv, Count, Valid, Moves, Of, SameRecord, RuntimeKept, CanClear;
      ghost var before := Of(s, p);
      shown := Do(p, MakeRuntime(root), turns(3));
      if shown {
        MovesOn(before, MakeRuntime(root), Of(s, p));
        shown := ExtractState(p, part, turns);
      }
      if !shown {
        PartsCanBeCleared(p);
      }
    }

    /** Whatever part of a tree has been extracted when an unlock fails, it can be removed again. */
    lemma PartsCanBeCleared(p: Pid)
      requires Valid() && (Of(s, p).Keyed? || Of(s, p).Extracting?)
      ensures CanClear(s, p)
    {
      hide After, RuntimesHeld, Removable;
      ValidIsOrderly();
      assert TreeHeld(s, p);
    }

    /** Extracts the state, with some part of it in place on the way. */
    method ExtractState(p: Pid, part: Tree, turns: Schedule) returns (shown: bool)
      requires Valid() && Of(s, p).Extracting?
      modifies this
      ensures Valid() && Continues(lib, old(log), log)
      ensures Did(p, old(log), log, 0, 0) && Tidy(p, old(log), log) && ReadsOnly(p, old(log), log)
      ensures if shown then Of(s, p).Session? && Of(s, p).name == Of(old(s), p).name else Of(s, p).Extracting?
      ensures shown && Honest() ==>
                var here := Of(s, p);
                here.path in s.runtimes && here.name in a && s.runtimes[here.path] == a[here.name].tree
    {
      hide FairRun, After, Inv, Count, Valid, Moves, Of, SameRecord, RuntimeKept;
      ghost var before := Of(s, p);
      shown := Do(p, ExtractPart(part), turns(4));
      if shown {
        MovesOn(before, ExtractPart(part), Of(s, p));
        shown := FinishOpening(p, turns(5));
      }
    }

    method FinishOpening(p: Pid, turn: Turn) returns (shown: bool)
      requires Valid() && Of(s, p).Extracting?
      modifies this
      ensures Valid() && Continues(lib, old(log), log)
      ensures Did(p, old(log), log, 0, 0) && Tidy(p, old(log), log) && ReadsOnly(p, old(log), log)
      ensures if shown then Of(s, p).Session? && Of(s, p).name == Of(old(s), p).name else Of(s, p).Extracting?
      ensures shown && Honest() ==>
                var here := Of(s, p);
                here.path in s.runtimes && here.name in a && s.runtimes[here.path] == a[here.name].tree
    {
      hide Next, Record, FairRun, After, Undisturbed, Inv, Count, Valid, Moves;
      ghost var before := Of(s, p);
      ghost var s1, a1;
      shown, s1, a1 := Act(p, Opened, turn);
      if shown {
        MovesOn(before, Opened, Of(s, p));
        OpeningRecordsNothing(s1, a1, p);
        if Honest() {
          OpenedShowsVault(lib, s1, a1, p);
        }
      }
    }

    /** `unlock`. On success a session is open whose runtime directory shows exactly the tree the profile
        was last sealed from. On failure the process is out again and holds no lock, and whatever runtime
        directory it made it has removed, unless that removal failed. Either way no step of it has changed
        anything below the users root, and runtime directories that were there it has left alone. */
    method Unlock(p: Pid, user: bytes, password: bytes, root: bytes, part: Tree, c: Cleanup, turns: Schedule)
      returns (outcome: Outcome)
      requires Valid() && Of(s, p).Idle?
      modifies this
      ensures Valid() && Continues(lib, old(log), log)
      ensures Count(p, log, Rename) == Count(p, old(log), Rename)
      ensures !IsValidUsername(user) ==> outcome == Failed(InvalidConfiguration) && s == old(s)
      ensures if outcome.Done? then Of(s, p).Session? && Of(s, p).name == UserDirectory(user) else Of(s, p).Idle?
      ensures outcome.Done? && Honest() ==>
                var here := Of(s, p);
                && here.path in s.runtimes && here.name in a && s.runtimes[here.path] == a[here.name].tree
                && LastSealed(lib, log, here.name) == Some(a[here.name].tree)
      ensures outcome.Failed? ==> forall n :: n in s.locks ==> s.locks[n] != p
      ensures outcome.Failed? && c.runtimeRemoved ==> ClearedAway(lib, p, log, |old(log)|)
      ensures SparesStanding(lib, p, log, |old(log)|) && EntriesSpared(lib, p, log, |old(log)|)
    {
      ghost var s0, a0, log0 := s, a, log;
      hide FairRun, After, Inv, Count, UserDirectory, IsValidUsername, Valid, Moves, Of, SameRecord, LastSealed;
      hide ClearedAway, SparesStanding, EntriesSpared;
      ValidIsHistory();
      outcome := Failed(InvalidConfiguration);
      if IsValidUsername(user) {
        outcome := Enter(p, user, StoreModel.Unlock(password), turns);
        if outcome.Done? {
          var shown := OpenRuntime(p, root, part, turns);
          if !shown {
            Retreat(p, c, turns);
            outcome := Failed(Failure);
          }
        }
      }
      RuntimesAreSpared(p, log0, s0, a0);
      if outcome.Failed? {
        IdleHoldsNothing(p);
      } else if Honest() {
        VaultIsLastSealed(Of(s, p).name);
      }
    }

    lemma RuntimesAreSpared(p: Pid, before: seq<Event>, s0: State, a0: Vault)
      requires Valid() && before <= log && After(lib, before) == Some((s0, a0)) && Of(s0, p).Idle?
      ensures SparesStanding(lib, p, log, |before|)
      ensures ReadsOnly(p, before, log) ==> EntriesSpared(lib, p, log, |before|)
      ensures Of(s, p).Idle? && Tidy(p, before, log) ==> ClearedAway(lib, p, log, |before|)
    {
      hide After, Count, SparesStanding, ClearedAway, EntriesSpared, Of, Tidy, ReadsOnly;
      EndsOfHistory(lib, before, log, s0, a0, s, a);
      CountsTell(p, before, log);
      StandingIsSpared(lib, p, log, |before|);
      if ReadsOnly(p, before, log) {
        ReadingSparesEntries(lib, p, log, |before|);
      }
      if Of(s, p).Idle? && Tidy(p, before, log) {
        NothingIsLeft(lib, p, log, |before|);
      }
    }

    /** The sealed tree goes into a temporary file beside the old state. */
    method WriteStateTemp(p: Pid, temp: bytes, seed: Nonce, listing: seq<Entry>, turns: Schedule)
      returns (written: bool)
      requires Valid() && Of(s, p).Sealing?
      modifies this
      ensures Valid() && Continues(lib, old(log), log)
      ensures Did(p, old(log), log, 0, 0) && Tidy(p, old(log), log) && RuntimeKept(old(s), s, p)
      ensures var proc, to := Of(old(s), p), Of(s, p);
              to.Sealing? && to.name == proc.name && to.path == proc.path && to.tree == proc.tree
    {
      hide FairRun, After, Inv, Count, Valid, Moves, Of, SameRecord, RuntimeKept;
      ghost var s0 := s;
      written := Do(p, BeginSeal(temp), turns(1));
      if written {
        MovesOn(Of(s0, p), BeginSeal(temp), Of(s, p));
        ghost var s1 := s;
        written := Do(p, FinishSeal(seed, listing), turns(2));
        KeptTwice(s0, s1, s, p);
        if written {
          MovesOn(Of(s1, p), FinishSeal(seed, listing), Of(s, p));
        }
      }
    }

    /** `seal_directory` on the session's tree, up to its rename. */
    method Seal(p: Pid, temp: bytes, seed: Nonce, listing: seq<Entry>, turns: Schedule) returns (sealed: bool)
      requires Valid() && Of(s, p).Sealing?
      modifies this
      ensures Valid() && Continues(lib, old(log), log)
      ensures Did(p, old(log), log, if sealed then 1 else 0, 0) && Tidy(p, old(log), log)
      ensures RuntimeKept(old(s), s, p)
      ensures if sealed then Of(s, p) == Cleaning(Of(old(s), p).name, Of(old(s), p).path) else Of(s, p).Sealing?
      ensures sealed && Honest() ==>
                var proc := Of(old(s), p); proc.name in a && a[proc.name].tree == Restorable(proc.tree)
    {
      hide Next, Record, FairRun, After, Undisturbed, Inv, Count, Valid, Moves, Of, Restorable, SameRecord, RuntimeKept;
      ghost var s0 := s;
      sealed := WriteStateTemp(p, temp, seed, listing, turns);
      if !sealed { return; }
      ghost var before, s2 := Of(s, p), s;
      ghost var s1, a1;
      sealed, s1, a1 := Act(p, ReplaceState, turns(3));
      KeptTwice(s0, s2, s, p);
      if sealed {
        MovesOn(before, ReplaceState, Of(s, p));
        if Honest() {
          RecordsClose(lib, s1, a1, p);
        }
      }
    }

    /** The directory to seal is the one the session left; nobody else has touched it. */
    method StartSealing(p: Pid, turn: Turn) returns (started: bool)
      requires Valid() && Of(s, p).Session?
      modifies this
      ensures Valid() && Continues(lib, old(log), log)
      ensures Did(p, old(log), log, 0, 0) && Tidy(p, old(log), log) && RuntimeKept(old(s), s, p)
      ensures if started then Of(s, p).Sealing? && Of(s, p).name == Of(old(s), p).name && Of(s, p).temp.None?
              else Of(s, p).Session?
      ensures started && Honest() ==>
                Of(old(s), p).path in old(s).runtimes && Of(s, p).tree == old(s).runtimes[Of(old(s), p).path]
    {
      hide Next, Record, FairRun, After, Undisturbed, Inv, Count, Valid, Moves, RuntimeKept;
      ghost var s0, a0 := s, a;
      ghost var s1, a1;
      started, s1, a1 := Act(p, StartClose, turn);
      if started {
        MovesOn(Of(s0, p), StartClose, Of(s, p));
        ClosingTakesTree(lib, s1, p);
        if Honest() {
          RuntimeStays(s0, a0, s1, a1, p);
        }
      }
    }

    /** From an open session to a sealed state file. */
    method SealSession(p: Pid, temp: bytes, seed: Nonce, listing: seq<Entry>, turns: Schedule) returns (sealed: bool)
      requires Valid() && Of(s, p).Session?
      modifies this
      ensures Valid() && Continues(lib, old(log), log)
      ensures Did(p, old(log), log, if sealed then 1 else 0, 0) && Tidy(p, old(log), log)
      ensures if sealed then Of(s, p).Cleaning? && Of(s, p).name == Of(old(s), p).name
              else BacksOut(Of(s, p), GiveUp(true))
      ensures RuntimeKept(old(s), s, p)
      ensures sealed && Honest() ==>
                var proc := Of(old(s), p);
                && proc.name in a && proc.path in old(s).runtimes
                && a[proc.name].tree == Restorable(old(s).runtimes[proc.path])
    {
      hide FairRun, After, Inv, Count, Valid, Moves, Of, Restorable, RuntimeKept;
      ghost var s0 := s;
      sealed := StartSealing(p, turns(0));
      if sealed {
        ghost var s1 := s;
        sealed := Seal(p, temp, seed, listing, turns);
        KeptTwice(s0, s1, s, p);
      }
    }

    /** Removes the runtime directory and gives the lock back; the record of the profile is as before. */
    method CleanAndLeave(p: Pid, c: Cleanup, turns: Schedule) returns (cleared: bool)
      requires Valid() && Of(s, p).Cleaning?
      modifies this
      ensures Valid() && Continues(lib, old(log), log) && Of(s, p).Idle?
      ensures cleared <==> c.runtimeRemoved && CanClear(old(s), p)
      ensures Did(p, old(log), log, 0, 1) && (cleared ==> Tidy(p, old(log), log))
      ensures log != [] && log[|log| - 1] == By(p, Release)
      ensures Honest() ==> SameRecord(Of(old(s), p), old(a), a)
    {
      hide FairRun, After, Inv, Count, Valid, Moves, Of, CanClear;
      cleared := Clear(p, c, turns(4));
      Leave(p, turns(5));
    }

    /** `close`: reseal, clean up, release. The lock is given back whatever fails. The runtime directory is
        gone unless its removal failed, as it does when something in it sits in a directory that does not
        let it go. Success means that the profile's tree is now what can be restored of the session's tree,
        and that it can be extracted again; a failure before the rename leaves the record of the profile as
        it was. */
    method Close(p: Pid, temp: bytes, seed: Nonce, listing: seq<Entry>, c: Cleanup, turns: Schedule)
      returns (outcome: Outcome)
      requires Valid() && Of(s, p).Session?
      modifies this
      ensures Valid() && Continues(lib, old(log), log) && Of(s, p).Idle?
      ensures Count(p, old(log), Rename) <= Count(p, log, Rename) <= Count(p, old(log), Rename) + 1
      ensures outcome.Done? <==>
                c.runtimeRemoved && CanClear(old(s), p) && Count(p, log, Rename) == Count(p, old(log), Rename) + 1
      ensures Honest() && Count(p, log, Rename) != Count(p, old(log), Rename) ==>
                var proc := Of(old(s), p);
                && proc.name in a && proc.path in old(s).runtimes
                && a[proc.name].tree == Restorable(old(s).runtimes[proc.path])
      ensures Honest() && Count(p, log, Rename) == Count(p, old(log), Rename) ==>
                var name := Of(old(s), p).name; name in old(a) && name in a && a[name] == old(a)[name]
      ensures outcome.Done? && Honest() ==>
                var name := Of(old(s), p).name; Refillable(a[name].tree) && LastClose(lib, log, name).InOrder?
      ensures c.runtimeRemoved && CanClear(old(s), p) ==>
                RemovedSince(lib, p, log, |old(log)|, |log|, Of(old(s), p).path)
    {
      ghost var s0, a0, log0 := s, a, log;
      hide FairRun, After, Inv, Count, Valid, Moves, Of, Restorable, RemovedSince, RuntimeKept, CanClear, Refillable;
      ValidIsHistory();
      var sealed := SealSession(p, temp, seed, listing, turns);
      ClearAsBefore(s0, s, p);
      var cleared := false;
      if sealed {
        cleared := CleanAndLeave(p, c, turns);
      } else {
        Retreat(p, c, turns);
      }
      outcome := if sealed && cleared then Done else Failed(Failure);
      SessionIsOver(p, log0, s0, a0);
      if outcome.Done? && Honest() {
        CloseIsInOrder(p, log0, s0, a0);
      }
    }

    lemma CloseIsInOrder(p: Pid, before: seq<Event>, s0: State, a0: Vault)
      requires Valid() && Honest() && Continues(lib, before, log) && After(lib, before) == Some((s0, a0))
      requires Of(s0, p).Session? && Of(s0, p).name in a && before != log && log[|log| - 1] == By(p, Release)
      requires Tidy(p, before, log) && LetsGoLast(p, before, log) && Count(p, log, Rename) != Count(p, before, Rename)
      ensures LastClose(lib, log, Of(s0, p).name).InOrder? && Refillable(a[Of(s0, p).name].tree)
    {
      hide After, FairRun, Count, Of, Tidy, LetsGoLast, LastClose, Refillable, NoneSince, HeldToTheLast;
      CountsTell(p, before, log);
      assert log[..|before|] == before;
      LeavingIsInOrder(lib, p, log, |before|, Of(s0, p).name);
      ClosedIsRefillable(lib, log, Of(s0, p).name);
    }

    lemma SessionIsOver(p: Pid, before: seq<Event>, s0: State, a0: Vault)
      requires Valid() && before <= log && After(lib, before) == Some((s0, a0)) && Of(s0, p).Session? && Of(s, p).Idle?
      ensures Tidy(p, before, log) ==> RemovedSince(lib, p, log, |before|, |log|, Of(s0, p).path)
      ensures Honest() && Count(p, log, Rename) == Count(p, before, Rename) && LetsGoLast(p, before, log) ==>
                var name := Of(s0, p).name; name in a0 && name in a && a[name] == a0[name]
    {
      hide After, FairRun, Count, RemovedSince, Of, Tidy, LetsGoLast;
      EndsOfHistory(lib, before, log, s0, a0, s, a);
      CountsTell(p, before, log);
      if Tidy(p, before, log) {
        KeptOrRemoved(lib, p, log, |before|, Of(s0, p).path, |log|);
      }
      if Honest() && Count(p, log, Rename) == Count(p, before, Rename) && LetsGoLast(p, before, log) {
        assert |before| < |log| by {
          assert before != log;
        }
        RecordStaysWhileHeld(lib, p, log, |before|, |log|, Of(s0, p).name);
      }
    }
  }

  // -------------------------------------------------------- clearing away

  lemma ClearAsBefore(s: State, s2: State, p: Pid)
    requires RuntimeKept(s, s2, p)
    ensures RuntimeOf(Of(s, p)).Some? ==> (CanClear(s2, p) <==> CanClear(s, p))
  {
    hide Removable;
  }

  lemma ClearingWorks(lib: Lib, s: State, p: Pid, act: Action)
    requires Of(s, p).Cleaning? && act.CleanUp? && (act.removed ==> CanClear(s, p))
    ensures Next(lib, s, By(p, act)).Some?
  {
    hide Removable;
  }

  // ------------------------------------------------------- what steps record

  lemma RecordsPublication(s: State, a: Vault, p: Pid)
    requires Of(s, p).AddStaged? && Of(s, p).dataKey.Some?
    ensures var dir := UserDirectory(Of(s, p).user);
            Record(s, a, By(p, Publish)) == a[dir := Profile(Of(s, p).password, Of(s, p).dataKey.value, map[])]
  {
  }

  /** A creator removes its staging directory, or as much of it as the removal manages. */
  function LeftOf(s: State, p: Pid, left: Option<UserDir>): Option<UserDir> {
    if Of(s, p).AddStaged? && Of(s, p).stage in s.entries && left.Some?
        && Remains(left.value, s.entries[Of(s, p).stage])
    then left else None
  }

  lemma CanAbandon(lib: Lib, s: State, a: Vault, p: Pid, left: Option<UserDir>)
    requires Inv(lib, s, a) && (Of(s, p).AddReady? || Of(s, p).AddStaged?)
    ensures Next(lib, s, By(p, AbandonAdd(LeftOf(s, p, left)))).Some?
  {
    hide Inv, Knows, ProfileOk;
    Extract(lib, s, a, p);
  }

  lemma AbandonRemoves(lib: Lib, s: State, p: Pid, left: Option<UserDir>)
    requires Next(lib, s, By(p, AbandonAdd(LeftOf(s, p, left)))).Some?
    ensures left.None? ==> LeftOf(s, p, left).None?
    ensures left.None? && Of(s, p).AddStaged? ==>
              Of(s, p).stage !in Next(lib, s, By(p, AbandonAdd(LeftOf(s, p, left)))).value.entries
  {
  }

  /** If a creation cannot start although its arguments are fine, the name belongs to a profile. */
  lemma NameIsTaken(lib: Lib, s: State, a: Vault, p: Pid, user: bytes, password: bytes)
    requires Inv(lib, s, a) && Of(s, p).Idle? && IsValidUsername(user) && |password| >= PASSWORD_MINIMUM
    requires Next(lib, s, By(p, StartAdd(user, password))).None?
    ensures UserDirectory(user) in a
  {
    VisibleNames(lib, s, a);
    DirectoryIsPlain(user);
    hide Inv, IsValidUsername, UserDirectory;
  }

  lemma QuietKeepsRecord(s: State, a: Vault, s2: State, a2: Vault, p: Pid, act: Action)
    requires Undisturbed(s, a, s2, a2, p) && !Marked(act, Rename)
    ensures SameRecord(Of(s, p), a, a2) && Record(s2, a2, By(p, act)) == a2
  {
  }

  lemma RuntimeStays(s: State, a: Vault, s2: State, a2: Vault, p: Pid)
    requires Undisturbed(s, a, s2, a2, p) && Of(s, p).Session?
    ensures Of(s2, p) == Of(s, p)
    ensures var path := Of(s, p).path;
            path in s.runtimes && path in s2.runtimes && s2.runtimes[path] == s.runtimes[path]
  {
  }
}
