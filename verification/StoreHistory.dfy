/** What can be read off a history of events: what one process has done in it since some point, and what
    that means for runtime directories and for the profile it has locked. */
module StoreHistory {
  import opened Wrappers
  import opened Bytes
  import opened Libraries
  import opened Trees
  import opened Manifest
  import opened StoreModel
  import opened StoreInvariant
  import opened StoreFrames
  import opened StoreRenames
  import opened StoreIsolation
  import opened StoreTheorems

  // --------------------------------------------------------- marked actions

  /** Actions worth counting: renames of complete files or profiles, removals that fail or never come, the
      ways to lose a lock, the creation of a staging directory, and writes below the users root, but for the
      removal of a process's own temporary file. */
  datatype Mark = Rename | Litter | LetGo | Staging | Write

  predicate Marked(act: Action, mark: Mark) {
    match mark
    case Rename => act.Publish? || act.ReplaceManifest? || act.ReplaceState?
    case Litter => act.Crash? || (act.CleanUp? && !act.removed) || (act.AbandonAdd? && act.left.Some?)
    case LetGo => act.Release? || act.Crash?
    case Staging => act.Stage?
    case Write =>
      || act.Stage? || act.AbandonAdd? || IsStaged(act)
      || act.BeginRotation? || act.FinishRotation? || act.ReplaceManifest?
      || act.BeginSeal? || act.FinishSeal? || act.ReplaceState?
  }

  ghost function Count(p: Pid, es: seq<Event>, mark: Mark): nat {
    if es == [] then 0
    else Count(p, es[..|es| - 1], mark) + if IsBy(es[|es| - 1], p) && Marked(es[|es| - 1].act, mark) then 1 else 0
  }

  lemma CountSnoc(p: Pid, es: seq<Event>, e: Event, mark: Mark)
    ensures Count(p, es + [e], mark) == Count(p, es, mark) + if IsBy(e, p) && Marked(e.act, mark) then 1 else 0
  {
    assert (es + [e])[..|es|] == es;
  }

  ghost predicate NoneSince(p: Pid, es: seq<Event>, from: nat, mark: Mark) {
    forall k :: from <= k < |es| && IsBy(es[k], p) ==> !Marked(es[k].act, mark)
  }

  /** The last event may already have given the lock back. */
  ghost predicate HeldToTheLast(p: Pid, es: seq<Event>, from: nat) {
    forall k :: from <= k < |es| - 1 && IsBy(es[k], p) ==> !Marked(es[k].act, LetGo)
  }

  lemma SinceLater(p: Pid, es: seq<Event>, from: nat, i: nat, mark: Mark)
    requires from <= i
    ensures NoneSince(p, es, from, mark) ==> NoneSince(p, es, i, mark)
    ensures HeldToTheLast(p, es, from) ==> HeldToTheLast(p, es, i)
  {
    hide Marked;
  }

  lemma {:induction false} CountGrows(p: Pid, es: seq<Event>, from: nat, mark: Mark)
    requires from <= |es|
    ensures Count(p, es[..from], mark) <= Count(p, es, mark)
    ensures Count(p, es[..from], mark) == Count(p, es, mark) ==> NoneSince(p, es, from, mark)
    decreases |es|
  {
    if from == |es| {
      assert es[..from] == es;
    } else {
      var before := es[..|es| - 1];
      assert before[..from] == es[..from];
      CountGrows(p, before, from, mark);
      assert forall k :: from <= k < |before| ==> before[k] == es[k];
    }
  }

  /** Process `p` has renamed this often between two points, and let go of this many locks. */
  ghost predicate Did(p: Pid, before: seq<Event>, now: seq<Event>, renames: nat, letGos: nat) {
    Count(p, now, Rename) == Count(p, before, Rename) + renames
        && Count(p, now, LetGo) == Count(p, before, LetGo) + letGos
  }

  /** It has left nothing lying about. */
  ghost predicate Tidy(p: Pid, before: seq<Event>, now: seq<Event>) {
    Count(p, now, Litter) == Count(p, before, Litter)
  }

  /** It has written nothing below the users root. */
  ghost predicate ReadsOnly(p: Pid, before: seq<Event>, now: seq<Event>) {
    Count(p, now, Write) == Count(p, before, Write)
  }

  /** If it has let go of a lock, it has done so in the very last event. */
  ghost predicate LetsGoLast(p: Pid, before: seq<Event>, now: seq<Event>) {
    || Count(p, now, LetGo) == Count(p, before, LetGo)
    || (Count(p, now, LetGo) == Count(p, before, LetGo) + 1 && now != [] && now[|now| - 1] == By(p, Release))
  }

  lemma CountsTell(p: Pid, before: seq<Event>, now: seq<Event>)
    requires before <= now
    ensures Count(p, now, Rename) == Count(p, before, Rename) ==> NoneSince(p, now, |before|, Rename)
    ensures Tidy(p, before, now) ==> NoneSince(p, now, |before|, Litter)
    ensures ReadsOnly(p, before, now) ==> NoneSince(p, now, |before|, Write)
    ensures LetsGoLast(p, before, now) ==> HeldToTheLast(p, now, |before|)
  {
    assert now[..|before|] == before;
    CountGrows(p, now, |before|, Rename);
    CountGrows(p, now, |before|, Litter);
    CountGrows(p, now, |before|, Write);
    CountGrows(p, now, |before|, LetGo);
    if Count(p, now, LetGo) != Count(p, before, LetGo) && LetsGoLast(p, before, now) {
      var front := now[..|now| - 1];
      assert before != now;
      assert front[..|before|] == before;
      CountGrows(p, front, |before|, LetGo);
      assert forall k :: |before| <= k < |front| ==> front[k] == now[k];
    }
  }

  // ------------------------------------------------------- states on the way

  ghost function StateAt(lib: Lib, es: seq<Event>, k: nat): State
    requires k <= |es|
  {
    var r := After(lib, es[..k]);
    if r.Some? then r.value.0 else INIT
  }

  ghost function VaultAt(lib: Lib, es: seq<Event>, k: nat): Vault
    requires k <= |es|
  {
    var r := After(lib, es[..k]);
    if r.Some? then r.value.1 else map[]
  }

  lemma EndsOfHistory(lib: Lib, before: seq<Event>, now: seq<Event>, s0: State, a0: Vault, s: State, a: Vault)
    requires before <= now && After(lib, before) == Some((s0, a0)) && After(lib, now) == Some((s, a))
    ensures StateAt(lib, now, |before|) == s0 && VaultAt(lib, now, |before|) == a0
    ensures StateAt(lib, now, |now|) == s && VaultAt(lib, now, |now|) == a
  {
    assert now[..|before|] == before && now[..|now|] == now;
    hide After;
  }

  lemma {:induction false} PrefixHappens(lib: Lib, es: seq<Event>, k: nat)
    requires After(lib, es).Some? && k <= |es|
    ensures After(lib, es[..k]).Some?
    decreases |es|
  {
    if k == |es| {
      assert es[..k] == es;
    } else {
      assert es[..|es| - 1][..k] == es[..k];
      hide Next, Record;
      PrefixHappens(lib, es[..|es| - 1], k);
    }
  }

  lemma LastStep(lib: Lib, es: seq<Event>)
    requires es != [] && After(lib, es).Some?
    ensures After(lib, es[..|es| - 1]).Some?
    ensures var (s, a) := After(lib, es[..|es| - 1]).value;
            && Next(lib, s, es[|es| - 1]) == Some(After(lib, es).value.0)
            && After(lib, es).value.1 == Record(s, a, es[|es| - 1])
  {
    hide Next, Record;
  }

  lemma StepAt(lib: Lib, es: seq<Event>, k: nat)
    requires After(lib, es).Some? && k < |es|
    ensures Next(lib, StateAt(lib, es, k), es[k]) == Some(StateAt(lib, es, k + 1))
    ensures VaultAt(lib, es, k + 1) == Record(StateAt(lib, es, k), VaultAt(lib, es, k), es[k])
  {
    hide After, Next, Record;
    PrefixHappens(lib, es, k + 1);
    var front := es[..k + 1];
    assert front[..|front| - 1] == es[..k] && front[|front| - 1] == es[k];
    LastStep(lib, front);
  }

  // ------------------------------------------------------ runtime directories

  /** Event `j` is the creation of a runtime directory by `p`, at a path that is free. */
  ghost predicate CreatedAt(lib: Lib, p: Pid, es: seq<Event>, j: nat, path: RuntimePath) {
    && j < |es| && IsBy(es[j], p) && es[j].act.MakeRuntime?
    && path !in StateAt(lib, es, j).runtimes && RuntimeOf(Of(StateAt(lib, es, j + 1), p)) == Some(path)
  }

  ghost predicate CreatedSince(lib: Lib, p: Pid, es: seq<Event>, from: nat, i: nat, path: RuntimePath) {
    exists j :: from <= j < i && CreatedAt(lib, p, es, j, path)
  }

  ghost predicate RemovedSince(lib: Lib, p: Pid, es: seq<Event>, from: nat, i: nat, path: RuntimePath) {
    exists k :: from <= k < i && k < |es| && IsBy(es[k], p) && path !in StateAt(lib, es, k + 1).runtimes
  }

  /** Since event `from`, process `p` has changed and removed only runtime directories that it had itself
      created since then where nothing was; all others it left exactly as they were. */
  ghost predicate SparesStanding(lib: Lib, p: Pid, es: seq<Event>, from: nat) {
    forall i, path :: from <= i < |es| && IsBy(es[i], p) && path in StateAt(lib, es, i).runtimes ==>
      || CreatedSince(lib, p, es, from, i, path)
      || (path in StateAt(lib, es, i + 1).runtimes
          && StateAt(lib, es, i + 1).runtimes[path] == StateAt(lib, es, i).runtimes[path])
  }

  /** Whatever runtime directory `p` has created since event `from`, it has removed again. */
  ghost predicate ClearedAway(lib: Lib, p: Pid, es: seq<Event>, from: nat) {
    forall j, path :: from <= j < |es| && CreatedAt(lib, p, es, j, path) ==>
      RemovedSince(lib, p, es, j + 1, |es|, path)
  }

  lemma CreatedNowOrBefore(lib: Lib, p: Pid, es: seq<Event>, from: nat, i: nat, path: RuntimePath)
    requires from <= i && (CreatedSince(lib, p, es, from, i, path) || CreatedAt(lib, p, es, i, path))
    ensures CreatedSince(lib, p, es, from, i + 1, path)
  {
    hide CreatedAt;
  }

  lemma RemovedNowOrBefore(lib: Lib, p: Pid, es: seq<Event>, from: nat, i: nat, path: RuntimePath)
    requires from <= i < |es|
    requires RemovedSince(lib, p, es, from, i, path) || (IsBy(es[i], p) && path !in StateAt(lib, es, i + 1).runtimes)
    ensures RemovedSince(lib, p, es, from, i + 1, path)
  {
    hide StateAt;
  }

  lemma RuntimeMoves(lib: Lib, s: State, p: Pid, act: Action)
    requires Next(lib, s, By(p, act)).Some?
    ensures var s2 := Next(lib, s, By(p, act)).value;
            && (RuntimeOf(Of(s2, p)).Some? ==>
                  RuntimeOf(Of(s2, p)) == RuntimeOf(Of(s, p))
                      || (act.MakeRuntime? && RuntimeOf(Of(s2, p)).value !in s.runtimes))
            && (RuntimeOf(Of(s, p)).Some? && RuntimeOf(Of(s2, p)) != RuntimeOf(Of(s, p)) ==>
                  Marked(act, Litter) || RuntimeOf(Of(s, p)).value !in s2.runtimes)
  {
    EveryStepMoves(lib, s, p, act);
    hide NextAdd, NextStaged, NextLock, NextRotate, NextSeal, UserDirectory;
  }

  lemma OthersKeepPlace(lib: Lib, s: State, e: Event, p: Pid)
    requires Next(lib, s, e).Some? && !IsBy(e, p)
    ensures Of(Next(lib, s, e).value, p) == Of(s, p)
  {
    hide NextAdd, NextStaged, NextLock, NextRotate, NextSession, NextSeal, NextCleanup;
    if e.By? {
      EveryStepKeepsToItsOwn(lib, s, e.p, e.act);
    }
  }

  /** The runtime directory of a process is one it has created. */
  lemma {:induction false} OwnsWhatItCreated(lib: Lib, p: Pid, es: seq<Event>, from: nat, i: nat)
    requires After(lib, es).Some? && from <= i <= |es| && RuntimeOf(Of(StateAt(lib, es, from), p)).None?
    ensures var path := RuntimeOf(Of(StateAt(lib, es, i), p));
            path.Some? ==> CreatedSince(lib, p, es, from, i, path.value)
    decreases i
  {
    hide After, StateAt, Next, RuntimeOf, Of, CreatedSince;
    if i > from {
      OwnsWhatItCreated(lib, p, es, from, i - 1);
      StepAt(lib, es, i - 1);
      var path := RuntimeOf(Of(StateAt(lib, es, i), p));
      if IsBy(es[i - 1], p) {
        RuntimeMoves(lib, StateAt(lib, es, i - 1), p, es[i - 1].act);
      } else {
        OthersKeepPlace(lib, StateAt(lib, es, i - 1), es[i - 1], p);
      }
      if path.Some? {
        CreatedNowOrBefore(lib, p, es, from, i - 1, path.value);
      }
    }
  }

  /** Anybody's history: from a point where a process has no runtime directory, it never touches one that
      it has not created itself. */
  lemma StandingIsSpared(lib: Lib, p: Pid, es: seq<Event>, from: nat)
    requires After(lib, es).Some? && from <= |es| && RuntimeOf(Of(StateAt(lib, es, from), p)).None?
    ensures SparesStanding(lib, p, es, from)
  {
    hide After, StateAt, Next, CreatedSince;
    forall i, path | from <= i < |es| && IsBy(es[i], p) && path in StateAt(lib, es, i).runtimes
      ensures
        || CreatedSince(lib, p, es, from, i, path)
        || (path in StateAt(lib, es, i + 1).runtimes
            && StateAt(lib, es, i + 1).runtimes[path] == StateAt(lib, es, i).runtimes[path])
    {
      StepAt(lib, es, i);
      OwnsWhatItCreated(lib, p, es, from, i);
      EveryStepKeepsToItsOwn(lib, StateAt(lib, es, i), p, es[i].act);
    }
  }

  lemma CreatingOwns(lib: Lib, p: Pid, es: seq<Event>, j: nat, path: RuntimePath)
    requires CreatedAt(lib, p, es, j, path)
    ensures RuntimeOf(Of(StateAt(lib, es, j + 1), p)) == Some(path)
  {
    hide StateAt, Of, RuntimeOf;
  }

  lemma {:induction false} KeptOrRemoved(lib: Lib, p: Pid, es: seq<Event>, from: nat, path: RuntimePath, i: nat)
    requires After(lib, es).Some? && from <= i <= |es| && RuntimeOf(Of(StateAt(lib, es, from), p)) == Some(path)
    requires NoneSince(p, es, from, Litter)
    ensures RuntimeOf(Of(StateAt(lib, es, i), p)) == Some(path) || RemovedSince(lib, p, es, from, i, path)
    decreases i
  {
    hide After, StateAt, Next, RuntimeOf, Of, Marked, RemovedSince, CreatedAt;
    if i > from {
      KeptOrRemoved(lib, p, es, from, path, i - 1);
      StepAt(lib, es, i - 1);
      if IsBy(es[i - 1], p) {
        RuntimeMoves(lib, StateAt(lib, es, i - 1), p, es[i - 1].act);
      } else {
        OthersKeepPlace(lib, StateAt(lib, es, i - 1), es[i - 1], p);
      }
      if RuntimeOf(Of(StateAt(lib, es, i), p)) != Some(path) {
        RemovedNowOrBefore(lib, p, es, from, i - 1, path);
      }
    }
  }

  /** A process that ends without a runtime directory and without a failed removal or a death has removed
      all it created. */
  lemma NothingIsLeft(lib: Lib, p: Pid, es: seq<Event>, from: nat)
    requires After(lib, es).Some? && from <= |es| && RuntimeOf(Of(StateAt(lib, es, |es|), p)).None?
    requires NoneSince(p, es, from, Litter)
    ensures ClearedAway(lib, p, es, from)
  {
    hide After, StateAt, Next, RemovedSince, CreatedAt, Marked;
    forall j, path | from <= j < |es| && CreatedAt(lib, p, es, j, path)
      ensures RemovedSince(lib, p, es, j + 1, |es|, path)
    {
      CreatingOwns(lib, p, es, j, path);
      SinceLater(p, es, from, j + 1, Litter);
      KeptOrRemoved(lib, p, es, j + 1, path, |es|);
    }
  }

  // ------------------------------------------------------- user directories

  /** No event of `p` since event `from` has changed anything below the users root. */
  ghost predicate EntriesSpared(lib: Lib, p: Pid, es: seq<Event>, from: nat) {
    forall i :: from <= i < |es| && IsBy(es[i], p) ==> StateAt(lib, es, i + 1).entries == StateAt(lib, es, i).entries
  }

  /** A process with no temporary file and no staging directory of its own. */
  predicate HasNoFiles(proc: Proc) {
    !proc.AddStaged? && (proc.Rotating? || proc.Sealing? ==> proc.temp.None?)
  }

  lemma ReadingMakesNoFiles(proc: Proc, act: Action, to: Proc)
    requires Moves(proc, act, to) && HasNoFiles(proc) && !Marked(act, Write)
    ensures HasNoFiles(to)
  {
    hide UserDirectory;
  }

  lemma ReadingKeepsEntries(lib: Lib, s: State, p: Pid, act: Action)
    requires Next(lib, s, By(p, act)).Some? && HasNoFiles(Of(s, p)) && !Marked(act, Write)
    ensures Next(lib, s, By(p, act)).value.entries == s.entries
  {
    hide NextStaged, NextLock, NextRotate, NextSession, NextSeal, UserDirectory;
    LockingKeepsEntries(lib, s, p, act);
  }

  lemma {:induction false} NoFilesWithoutWriting(lib: Lib, p: Pid, es: seq<Event>, from: nat, i: nat)
    requires After(lib, es).Some? && from <= i <= |es| && HasNoFiles(Of(StateAt(lib, es, from), p))
    requires NoneSince(p, es, from, Write)
    ensures HasNoFiles(Of(StateAt(lib, es, i), p))
    decreases i
  {
    hide After, StateAt, Next, HasNoFiles, Of, Marked, Moves;
    if i > from {
      NoFilesWithoutWriting(lib, p, es, from, i - 1);
      StepAt(lib, es, i - 1);
      if IsBy(es[i - 1], p) {
        var s := StateAt(lib, es, i - 1);
        EveryStepMoves(lib, s, p, es[i - 1].act);
        ReadingMakesNoFiles(Of(s, p), es[i - 1].act, Of(StateAt(lib, es, i), p));
      } else {
        OthersKeepPlace(lib, StateAt(lib, es, i - 1), es[i - 1], p);
      }
    }
  }

  /** A process that starts without files of its own and writes none changes nothing for anybody. */
  lemma ReadingSparesEntries(lib: Lib, p: Pid, es: seq<Event>, from: nat)
    requires After(lib, es).Some? && from <= |es| && HasNoFiles(Of(StateAt(lib, es, from), p))
    requires NoneSince(p, es, from, Write)
    ensures EntriesSpared(lib, p, es, from)
  {
    hide After, StateAt, Next, HasNoFiles, Of, Marked;
    forall i | from <= i < |es| && IsBy(es[i], p)
      ensures StateAt(lib, es, i + 1).entries == StateAt(lib, es, i).entries
    {
      StepAt(lib, es, i);
      NoFilesWithoutWriting(lib, p, es, from, i);
      ReadingKeepsEntries(lib, StateAt(lib, es, i), p, es[i].act);
    }
  }

  // -------------------------------------------------------- a locked profile

  lemma LockStays(lib: Lib, s: State, p: Pid, act: Action)
    requires Next(lib, s, By(p, act)).Some? && HeldBy(Of(s, p)).Some? && !Marked(act, LetGo)
    ensures HeldBy(Of(Next(lib, s, By(p, act)).value, p)) == HeldBy(Of(s, p))
  {
    hide Next, UserDirectory;
    EveryStepMoves(lib, s, p, act);
  }

  lemma {:induction false} HeldOnTheWay(lib: Lib, p: Pid, es: seq<Event>, from: nat, i: nat, name: bytes)
    requires After(lib, es).Some? && from <= i <= |es| && HeldBy(Of(StateAt(lib, es, from), p)) == Some(name)
    requires forall k :: from <= k < i && IsBy(es[k], p) ==> !Marked(es[k].act, LetGo)
    ensures HeldBy(Of(StateAt(lib, es, i), p)) == Some(name)
    decreases i
  {
    hide After, StateAt, Next, HeldBy, Of, Marked;
    if i > from {
      HeldOnTheWay(lib, p, es, from, i - 1, name);
      StepAt(lib, es, i - 1);
      if IsBy(es[i - 1], p) {
        LockStays(lib, StateAt(lib, es, i - 1), p, es[i - 1].act);
      } else {
        OthersKeepPlace(lib, StateAt(lib, es, i - 1), es[i - 1], p);
      }
    }
  }

  lemma RunHappened(lib: Lib, es: seq<Event>)
    requires Run(lib, es)
    ensures After(lib, es).Some?
  {
    hide After;
  }

  lemma CoupledAt(lib: Lib, es: seq<Event>, k: nat)
    requires Run(lib, es) && k <= |es|
    ensures Inv(lib, StateAt(lib, es, k), VaultAt(lib, es, k))
  {
    RunPrefix(lib, es, k);
    EveryRunKeepsInv(lib, es[..k]);
    hide Inv;
  }

  lemma HolderRecordStays(lib: Lib, s: State, a: Vault, e: Event, p: Pid, name: bytes)
    requires Inv(lib, s, a) && Next(lib, s, e).Some? && HeldBy(Of(s, p)) == Some(name)
    requires IsBy(e, p) ==> !Marked(e.act, Rename)
    ensures name in a && name in Record(s, a, e) && Record(s, a, e)[name] == a[name]
  {
    hide Inv, Next, Record;
    Extract(lib, s, a, p);
    OnlyRenamesChangeVault(lib, s, a, e, name);
    if e.By? && e.p != p {
      NothingIsShared(lib, s, a, p, e.p);
    }
  }

  /** While a process holds a lock and renames nothing, nobody changes the record of the profile. */
  lemma {:induction false} RecordStaysWhileHeld(lib: Lib, p: Pid, es: seq<Event>, from: nat, i: nat, name: bytes)
    requires Run(lib, es) && from < i <= |es| && HeldBy(Of(StateAt(lib, es, from), p)) == Some(name)
    requires HeldToTheLast(p, es, from) && NoneSince(p, es, from, Rename)
    ensures name in VaultAt(lib, es, from) && name in VaultAt(lib, es, i)
    ensures VaultAt(lib, es, i)[name] == VaultAt(lib, es, from)[name]
    decreases i
  {
    hide Run, After, StateAt, VaultAt, Next, Record, HeldBy, Of, Marked, Inv;
    RunHappened(lib, es);
    if i > from + 1 {
      RecordStaysWhileHeld(lib, p, es, from, i - 1, name);
    }
    HeldOnTheWay(lib, p, es, from, i - 1, name);
    StepAt(lib, es, i - 1);
    CoupledAt(lib, es, i - 1);
    HolderRecordStays(lib, StateAt(lib, es, i - 1), VaultAt(lib, es, i - 1), es[i - 1], p, name);
  }

  /** The record of the profile whose lock event `i` takes is at the end what it was then. */
  ghost predicate SameSinceLocked(lib: Lib, p: Pid, es: seq<Event>, i: nat)
    requires i < |es|
  {
    var name := HeldBy(Of(StateAt(lib, es, i + 1), p));
    && name.Some? && name.value in VaultAt(lib, es, i + 1) && name.value in VaultAt(lib, es, |es|)
    && VaultAt(lib, es, |es|)[name.value] == VaultAt(lib, es, i + 1)[name.value]
  }

  ghost predicate AsWhenLocked(lib: Lib, p: Pid, es: seq<Event>, from: nat) {
    forall i :: from <= i < |es| && es[i] == By(p, TakeLock) ==> SameSinceLocked(lib, p, es, i)
  }

  lemma TakingHolds(lib: Lib, s: State, p: Pid)
    requires Next(lib, s, By(p, TakeLock)).Some?
    ensures HeldBy(Of(Next(lib, s, By(p, TakeLock)).value, p)).Some?
  {
  }

  lemma {:induction false} UnchangedSinceLocked(lib: Lib, p: Pid, es: seq<Event>, i: nat)
    requires Run(lib, es) && i < |es| && es[i] == By(p, TakeLock) && HeldBy(Of(StateAt(lib, es, |es|), p)).None?
    requires HeldToTheLast(p, es, i + 1) && NoneSince(p, es, i + 1, Rename)
    ensures SameSinceLocked(lib, p, es, i)
  {
    hide Run, After, StateAt, VaultAt, Next, HeldBy, Of, Marked, HeldToTheLast, NoneSince;
    RunHappened(lib, es);
    StepAt(lib, es, i);
    TakingHolds(lib, StateAt(lib, es, i), p);
    RecordStaysWhileHeld(lib, p, es, i + 1, |es|, HeldBy(Of(StateAt(lib, es, i + 1), p)).value);
  }

  lemma UnchangedWhenLocked(lib: Lib, p: Pid, es: seq<Event>, from: nat)
    requires Run(lib, es) && from <= |es| && HeldBy(Of(StateAt(lib, es, |es|), p)).None?
    requires HeldToTheLast(p, es, from) && NoneSince(p, es, from, Rename)
    ensures AsWhenLocked(lib, p, es, from)
  {
    hide Run, StateAt, HeldBy, Of, HeldToTheLast, NoneSince, SameSinceLocked;
    forall i | from <= i < |es| && es[i] == By(p, TakeLock)
      ensures SameSinceLocked(lib, p, es, i)
    {
      SinceLater(p, es, from, i + 1, Rename);
      UnchangedSinceLocked(lib, p, es, i);
    }
  }

  // ------------------------------------------------ opening and closing again

  lemma OpeningRecordsNothing(s: State, a: Vault, p: Pid)
    ensures Record(s, a, By(p, Opened)) == a
  {
  }

  lemma ClosingTakesTree(lib: Lib, s: State, p: Pid)
    requires Next(lib, s, By(p, StartClose)).Some?
    ensures Of(s, p).Session? && Of(s, p).path in s.runtimes
    ensures var to := Of(Next(lib, s, By(p, StartClose)).value, p);
            to == Sealing(Of(s, p).name, Of(s, p).key, Of(s, p).path, None, s.runtimes[Of(s, p).path])
  {
  }

  predicate Disturbs(act: Action) {
    act.Edit? || act.GiveUp? || act.Crash? || act.ReplaceState?
  }

  lemma SessionMoves(proc: Proc, act: Action, to: Proc)
    requires Moves(proc, act, to) && !Disturbs(act)
    ensures proc.Session? ==> act.StartClose? && to.Sealing? && to.name == proc.name
    ensures proc.Sealing? ==> to.Sealing? && to.name == proc.name && to.tree == proc.tree
  {
    hide UserDirectory;
  }

  /** An open session shows, or is sealing, tree `t` of profile `name`. */
  ghost predicate Shows(s: State, p: Pid, name: bytes, t: Tree) {
    var proc := Of(s, p);
    || (proc.Session? && proc.name == name && proc.path in s.runtimes && s.runtimes[proc.path] == t)
    || (proc.Sealing? && proc.name == name && proc.tree == t)
  }

  lemma StepKeepsShowing(lib: Lib, s: State, a: Vault, e: Event, p: Pid, name: bytes, t: Tree)
    requires Inv(lib, s, a) && Next(lib, s, e).Some? && Shows(s, p, name, t)
    requires IsBy(e, p) ==> !Disturbs(e.act)
    ensures Shows(Next(lib, s, e).value, p, name, t)
  {
    hide Inv, Next, Record, Moves;
    if IsBy(e, p) {
      EveryStepMoves(lib, s, p, e.act);
      SessionMoves(Of(s, p), e.act, Of(Next(lib, s, e).value, p));
      if e.act.StartClose? {
        ClosingTakesTree(lib, s, p);
      }
    } else {
      OthersDisturbNobody(lib, s, a, e, p);
    }
  }

  lemma OpeningShows(lib: Lib, s: State, a: Vault, p: Pid)
    requires Inv(lib, s, a) && Next(lib, s, By(p, Opened)).Some?
    ensures Of(s, p).Extracting? && Of(s, p).name in a && Record(s, a, By(p, Opened)) == a
    ensures var s2 := Next(lib, s, By(p, Opened)).value;
            Of(s2, p).Session? && Of(s2, p).name == Of(s, p).name && Shows(s2, p, Of(s, p).name, a[Of(s, p).name].tree)
  {
    hide Inv, Next, Record, Moves;
    OpeningRecordsNothing(s, a, p);
    OpenedShowsVault(lib, s, a, p);
    EveryStepMoves(lib, s, p, Opened);
    MovesOn(Of(s, p), Opened, Of(Next(lib, s, By(p, Opened)).value, p));
  }

  lemma {:induction false} KeepsShowing(lib: Lib, p: Pid, es: seq<Event>, from: nat, i: nat, name: bytes, t: Tree)
    requires Run(lib, es) && from <= i <= |es| && Shows(StateAt(lib, es, from), p, name, t)
    requires forall k :: from <= k < i && IsBy(es[k], p) ==> !Disturbs(es[k].act)
    ensures Shows(StateAt(lib, es, i), p, name, t)
    decreases i
  {
    hide Run, After, StateAt, VaultAt, Next, Shows, Disturbs, Inv;
    RunHappened(lib, es);
    if i > from {
      KeepsShowing(lib, p, es, from, i - 1, name, t);
      StepAt(lib, es, i - 1);
      CoupledAt(lib, es, i - 1);
      StepKeepsShowing(lib, StateAt(lib, es, i - 1), VaultAt(lib, es, i - 1), es[i - 1], p, name, t);
    }
  }

  lemma FrontIsSame(lib: Lib, es: seq<Event>, n: nat, k: nat)
    requires k <= n <= |es|
    ensures StateAt(lib, es[..n], k) == StateAt(lib, es, k) && VaultAt(lib, es[..n], k) == VaultAt(lib, es, k)
  {
    assert es[..n][..k] == es[..k];
    hide After;
  }

  lemma ShownIsHeld(s: State, p: Pid, name: bytes, t: Tree)
    requires Shows(s, p, name, t)
    ensures HeldBy(Of(s, p)) == Some(name)
  {
  }

  /** Without an edit the record of the profile is still the same when the new state file is renamed. */
  lemma RecordUntilRename(lib: Lib, p: Pid, es: seq<Event>, i: nat, name: bytes, t: Tree)
    requires Run(lib, es) && i < |es| && Shows(StateAt(lib, es, i), p, name, t)
    requires forall k :: i <= k < |es| - 1 && IsBy(es[k], p) ==> !Disturbs(es[k].act)
    ensures name in VaultAt(lib, es, i) && name in VaultAt(lib, es, |es| - 1)
    ensures VaultAt(lib, es, |es| - 1)[name] == VaultAt(lib, es, i)[name]
    ensures Shows(StateAt(lib, es, |es| - 1), p, name, t)
  {
    hide After, StateAt, VaultAt, Shows, HeldBy, Inv;
    var n := |es| - 1;
    var front := es[..n];
    RunPrefix(lib, es, n);
    hide Run;
    FrontIsSame(lib, es, n, i);
    FrontIsSame(lib, es, n, n);
    ShownIsHeld(StateAt(lib, es, i), p, name, t);
    KeepsShowing(lib, p, es, i, n, name, t);
    OwnStepsAreQuiet(lib, p, es, i, name, t);
    if i < n {
      RecordStaysWhileHeld(lib, p, front, i, n, name);
    } else {
      CoupledAt(lib, es, i);
      HolderHasRecord(lib, StateAt(lib, es, i), VaultAt(lib, es, i), p, name);
    }
  }

  lemma HolderHasRecord(lib: Lib, s: State, a: Vault, p: Pid, name: bytes)
    requires Inv(lib, s, a) && HeldBy(Of(s, p)) == Some(name)
    ensures name in a
  {
    hide Inv, ProcOk, ProfileOk;
    Extract(lib, s, a, p);
  }

  /** In such a stretch the process neither renames nor lets go. */
  lemma OwnStepsAreQuiet(lib: Lib, p: Pid, es: seq<Event>, i: nat, name: bytes, t: Tree)
    requires Run(lib, es) && i < |es| && Shows(StateAt(lib, es, i), p, name, t)
    requires forall k :: i <= k < |es| - 1 && IsBy(es[k], p) ==> !Disturbs(es[k].act)
    ensures NoneSince(p, es[..|es| - 1], i, Rename) && HeldToTheLast(p, es[..|es| - 1], i)
  {
    hide After, StateAt, Shows, Run;
    RunHappened(lib, es);
    forall k | i <= k < |es| - 1 && IsBy(es[k], p)
      ensures !Marked(es[k].act, Rename) && !Marked(es[k].act, LetGo)
    {
      KeepsShowing(lib, p, es, i, k, name, t);
      StepAt(lib, es, k);
      ShowingNeverRenames(lib, StateAt(lib, es, k), p, es[k].act, name, t);
    }
    assert forall k :: 0 <= k < |es| - 1 ==> es[..|es| - 1][k] == es[k];
    hide Marked;
  }

  lemma ShowingNeverRenames(lib: Lib, s: State, p: Pid, act: Action, name: bytes, t: Tree)
    requires Next(lib, s, By(p, act)).Some? && Shows(s, p, name, t) && !Disturbs(act)
    ensures !Marked(act, Rename) && !Marked(act, LetGo)
  {
    hide Next, UserDirectory;
    EveryStepMoves(lib, s, p, act);
  }

  /** A cycle of opening and closing is the identity: if a session is opened and its directory not edited,
      then putting the new state file in place leaves the record of the profile as it was. */
  lemma OpenCloseIsIdentity(lib: Lib, p: Pid, es: seq<Event>, i: nat)
    requires Run(lib, es) && i < |es| - 1 && es[i] == By(p, Opened) && es[|es| - 1] == By(p, ReplaceState)
    requires forall k :: i < k < |es| - 1 && IsBy(es[k], p) ==> !Disturbs(es[k].act)
    ensures var proc := Of(StateAt(lib, es, i + 1), p);
            && proc.Session? && proc.name in VaultAt(lib, es, i) && proc.name in VaultAt(lib, es, |es|)
            && VaultAt(lib, es, |es|)[proc.name] == VaultAt(lib, es, i)[proc.name]
  {
    hide After, StateAt, VaultAt, Shows, HeldBy, Inv, Next, Record, Restorable, Run;
    RunHappened(lib, es);
    StepAt(lib, es, i);
    CoupledAt(lib, es, i);
    OpeningShows(lib, StateAt(lib, es, i), VaultAt(lib, es, i), p);
    var name := Of(StateAt(lib, es, i), p).name;
    var t := VaultAt(lib, es, i)[name].tree;
    RecordUntilRename(lib, p, es, i + 1, name, t);
    StepAt(lib, es, |es| - 1);
    CoupledAt(lib, es, |es| - 1);
    RestorableAt(lib, es, i, name);
    ClosingShown(lib, StateAt(lib, es, |es| - 1), VaultAt(lib, es, |es| - 1), p, name, t);
  }

  lemma RestorableAt(lib: Lib, es: seq<Event>, k: nat, name: bytes)
    requires Run(lib, es) && k <= |es| && name in VaultAt(lib, es, k)
    ensures Restorable(VaultAt(lib, es, k)[name].tree) == VaultAt(lib, es, k)[name].tree
  {
    RunPrefix(lib, es, k);
    VaultIsRestorable(lib, es[..k], name);
    hide Restorable;
  }

  lemma ClosingShown(lib: Lib, s: State, a: Vault, p: Pid, name: bytes, t: Tree)
    requires Inv(lib, s, a) && Next(lib, s, By(p, ReplaceState)).Some? && Shows(s, p, name, t)
    requires Restorable(t) == t && name in a && a[name].tree == t
    ensures var a2 := Record(s, a, By(p, ReplaceState)); name in a2 && a2[name] == a[name]
  {
    hide Inv, Next, Restorable, Moves;
    EveryStepMoves(lib, s, p, ReplaceState);
    MovesOn(Of(s, p), ReplaceState, Of(Next(lib, s, By(p, ReplaceState)).value, p));
    RecordsClose(lib, s, a, p);
  }
}
