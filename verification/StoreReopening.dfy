/** What a close in order is worth: a profile whose last close reported success can always be extracted
    again. */
module StoreReopening {
  import opened Wrappers
  import opened Bytes
  import opened Libraries
  import opened Trees
  import opened Manifest
  import opened KeyWrap
  import opened Archive
  import opened StoreModel
  import opened StoreInvariant
  import opened StoreFrames
  import opened StoreRenames
  import opened StoreIsolation
  import opened StoreLocks
  import opened StoreWraps
  import opened StoreTheorems
  import opened StoreAccess
  import opened StoreHistory

  // --------------------------------------------------------- the last close

  /** How the last close of a profile stands: it went through, or there was none yet; a process has put the
      new state file in place and has yet to remove the runtime directory; or it never did, because it died
      or the removal failed, and `close` reported an error if it returned at all. */
  datatype CloseState = InOrder | Resealed(p: Pid) | Interrupted

  function ClosingStep(s: State, closing: CloseState, e: Event, name: bytes): CloseState {
    if !e.By? then closing
    else if Reseals(s, e, name) then Resealed(e.p)
    else if closing != Resealed(e.p) then closing
    else if e.act.CleanUp? && e.act.removed then InOrder
    else Interrupted
  }

  /** Read off the run. */
  ghost function LastClose(lib: Lib, es: seq<Event>, name: bytes): CloseState
    requires Run(lib, es)
    decreases |es|
  {
    if es == [] then InOrder else
    Shorter(lib, es);
    var before := es[..|es| - 1];
    ClosingStep(StoreAfter(lib, before), LastClose(lib, before, name), es[|es| - 1], name)
  }

  /** What that says of the recorded tree. */
  ghost predicate Reopens(s: State, a: Vault, name: bytes, closing: CloseState) {
    match closing
    case InOrder => name in a ==> Refillable(a[name].tree)
    case Resealed(p) =>
      var proc := Of(s, p);
      && proc.Cleaning? && proc.name == name && name in a
      && proc.path in s.runtimes && a[name].tree == Restorable(s.runtimes[proc.path])
    case Interrupted => name in a
  }

  predicate Reseals(s: State, e: Event, name: bytes) {
    e.By? && e.act.ReplaceState? && Of(s, e.p).Sealing? && Of(s, e.p).name == name
  }

  /** Only a reseal changes the recorded tree; a new profile's is empty. */
  lemma RecordedTree(lib: Lib, s: State, a: Vault, e: Event, name: bytes)
    requires Inv(lib, s, a) && Next(lib, s, e).Some? && !Reseals(s, e, name)
    ensures name in a ==> name in Record(s, a, e) && Record(s, a, e)[name].tree == a[name].tree
    ensures name !in a && name in Record(s, a, e) ==> Record(s, a, e)[name].tree == map[]
  {
    hide Inv, Next, Restorable, UserDirectory, Hidden;
    if name in a {
      OnlyRenamesChangeVault(lib, s, a, e, name);
    }
    if e.By? {
      RenamersAreReady(lib, s, a, e.p, e.act);
    }
  }

  lemma ResealingEffect(lib: Lib, s: State, p: Pid)
    requires Next(lib, s, By(p, ReplaceState)).Some?
    ensures var s2 := Next(lib, s, By(p, ReplaceState)).value;
            && Of(s, p).Sealing? && Of(s2, p) == Cleaning(Of(s, p).name, Of(s, p).path) && s2.runtimes == s.runtimes
  {
  }

  lemma ResealingTakesTree(lib: Lib, s: State, a: Vault, p: Pid)
    requires Inv(lib, s, a) && TreeHeld(s, p) && Of(s, p).Sealing? && Next(lib, s, By(p, ReplaceState)).Some?
    ensures Reopens(Next(lib, s, By(p, ReplaceState)).value, Record(s, a, By(p, ReplaceState)), Of(s, p).name,
                    Resealed(p))
  {
    hide Inv, Restorable, Record, Next;
    ResealingEffect(lib, s, p);
    RecordsClose(lib, s, a, p);
  }

  /** The removal of a runtime directory shows that what was sealed from it can be extracted. */
  lemma RemovalEndsClose(lib: Lib, s: State, p: Pid, act: Action, t: Tree)
    requires Of(s, p).Cleaning? && Next(lib, s, By(p, act)).Some? && act.CleanUp? && act.removed
    requires Of(s, p).path in s.runtimes && t == Restorable(s.runtimes[Of(s, p).path])
    ensures Refillable(t)
  {
    assert Removable(s.runtimes[Of(s, p).path]);
    hide Next, CanHold;
    RemovableIsRefillable(s.runtimes[Of(s, p).path]);
    assert Restorable(t) == t;
    RemovableIsRefillable(t);
  }

  lemma OthersKeepClosing(lib: Lib, s: State, a: Vault, e: Event, p: Pid, name: bytes)
    requires Inv(lib, s, a) && Next(lib, s, e).Some? && !IsBy(e, p) && Reopens(s, a, name, Resealed(p))
    ensures Reopens(Next(lib, s, e).value, Record(s, a, e), name, Resealed(p)) && !Reseals(s, e, name)
  {
    hide Inv, Next, Record, Restorable;
    OthersDisturbNobody(lib, s, a, e, p);
    if Reseals(s, e, name) {
      NothingIsShared(lib, s, a, p, e.p);
    }
  }

  lemma CloserMovesOn(lib: Lib, s: State, a: Vault, p: Pid, act: Action, name: bytes)
    requires Inv(lib, s, a) && Next(lib, s, By(p, act)).Some? && Reopens(s, a, name, Resealed(p))
    ensures Reopens(Next(lib, s, By(p, act)).value, Record(s, a, By(p, act)), name,
                    if act.CleanUp? && act.removed then InOrder else Interrupted)
    ensures !Reseals(s, By(p, act), name)
  {
    hide Inv, Next, Record, Restorable, Refillable;
    RecordedTree(lib, s, a, By(p, act), name);
    if act.CleanUp? && act.removed {
      RemovalEndsClose(lib, s, p, act, a[name].tree);
    }
  }

  lemma EmptyIsRefillable()
    ensures Refillable(map[])
  {
  }

  /** Every event keeps it so. */
  lemma EveryEventKeepsReopening(lib: Lib, s: State, a: Vault, e: Event, name: bytes, closing: CloseState)
    requires Inv(lib, s, a) && TreesHeld(s) && Next(lib, s, e).Some? && Reopens(s, a, name, closing)
    ensures Reopens(Next(lib, s, e).value, Record(s, a, e), name, ClosingStep(s, closing, e, name))
  {
    hide Inv, Next, Record, Restorable, Refillable, TreeHeld;
    if Reseals(s, e, name) {
      ResealingTakesTree(lib, s, a, e.p);
    } else if closing.Resealed? {
      if IsBy(e, closing.p) {
        CloserMovesOn(lib, s, a, e.p, e.act, name);
      } else {
        OthersKeepClosing(lib, s, a, e, closing.p, name);
      }
    } else {
      RecordedTree(lib, s, a, e, name);
      EmptyIsRefillable();
    }
  }

  lemma {:induction false} LastCloseTells(lib: Lib, es: seq<Event>, name: bytes)
    requires Run(lib, es)
    ensures Reopens(StoreAfter(lib, es), VaultAfter(lib, es), name, LastClose(lib, es, name))
    decreases |es|
  {
    if es != [] {
      var before := es[..|es| - 1];
      Shorter(lib, es);
      RunIsOrderly(lib, before);
      EveryRunKeepsInv(lib, before);
      hide Run, StoreAfter, VaultAfter, Next, Record, Inv, Reopens, TreesHeld, Fair, Logged;
      LastCloseTells(lib, before, name);
      EveryEventKeepsReopening(lib, StoreAfter(lib, before), VaultAfter(lib, before), es[|es| - 1], name,
                               LastClose(lib, before, name));
    }
  }

  lemma RunIsOrderly(lib: Lib, es: seq<Event>)
    requires Run(lib, es)
    ensures LocksHeld(StoreAfter(lib, es)) && RuntimesHeld(StoreAfter(lib, es)) && TreesHeld(StoreAfter(lib, es))
  {
    hide After, LocksHeld, RuntimesHeld, TreesHeld;
    HistoryIsOrderly(lib, es);
  }

  // ------------------------------------------------------------- the results

  /** Whatever has happened in the run, a profile that was never closed, or whose last close went through,
      holds a tree that can be extracted: the removal that ended the close needed the same permissions. */
  lemma ClosedIsRefillable(lib: Lib, es: seq<Event>, name: bytes)
    requires Run(lib, es) && name in VaultAfter(lib, es) && LastClose(lib, es, name).InOrder?
    ensures Refillable(VaultAfter(lib, es)[name].tree)
  {
    hide Run, StoreAfter, VaultAfter, LastClose, Refillable, Restorable;
    LastCloseTells(lib, es, name);
  }

  /** So a close in order can be undone: whoever then holds the lock and knows the password opens the
      profile to its tree, if and only if the profile was not created at second 0 and nothing is left over
      where its runtime directory goes. */
  lemma ClosedProfileReopens(lib: Lib, es: seq<Event>, p: Pid, root: bytes)
    requires Run(lib, es) && Of(StoreAfter(lib, es), p).Locked? && Of(StoreAfter(lib, es), p).job.Unlock?
    requires Of(StoreAfter(lib, es), p).name in VaultAfter(lib, es)
    requires Of(StoreAfter(lib, es), p).job.password == VaultAfter(lib, es)[Of(StoreAfter(lib, es), p).name].password
    requires LastClose(lib, es, Of(StoreAfter(lib, es), p).name).InOrder?
    ensures var run := es + [By(p, Authenticated), By(p, MakeRuntime(root)), By(p, Opened)];
            var s, name := StoreAfter(lib, es), Of(StoreAfter(lib, es), p).name;
            && name in s.entries && HasManifest(s.entries[name])
            && var m := ManifestIn(s.entries[name]);
            && (After(lib, run).Some? <==> m.createdAt != 0 && RuntimePath(root, m.id) !in s.orphans)
            && (After(lib, run).Some? ==>
                  && Run(lib, run)
                  && var here, open := Of(StoreAfter(lib, run), p), StoreAfter(lib, run);
                  && here.Session? && here.name == name && here.path in open.runtimes
                  && open.runtimes[here.path] == VaultAfter(lib, es)[name].tree)
  {
    hide Run, StoreAfter, VaultAfter, LastClose, After, Refillable;
    ClosedIsRefillable(lib, es, Of(StoreAfter(lib, es), p).name);
    OwnerGetsInIff(lib, es, p, root);
  }

  lemma {:induction false} NothingInterrupted(lib: Lib, es: seq<Event>, name: bytes)
    requires Run(lib, es) && TroubleFree(es)
    ensures !LastClose(lib, es, name).Interrupted?
    decreases |es|
  {
    if es != [] {
      var before, e := es[..|es| - 1], es[|es| - 1];
      Shorter(lib, es);
      hide Run, StoreAfter, VaultAfter, Next, Record, Inv, Fair, Logged;
      NothingInterrupted(lib, before, name);
      LastCloseTells(lib, before, name);
      if LastClose(lib, before, name).Resealed? && IsBy(e, LastClose(lib, before, name).p) {
        CloserCleansUp(lib, StoreAfter(lib, before), e.p, e.act);
      }
    }
  }

  lemma CloserCleansUp(lib: Lib, s: State, p: Pid, act: Action)
    requires Next(lib, s, By(p, act)).Some? && Of(s, p).Cleaning?
    ensures act.CleanUp? || act.Crash?
  {
    hide Next, UserDirectory;
    EveryStepMoves(lib, s, p, act);
  }

  /** In a run without deaths, failed removals and directories put in from outside, the owner always gets
      in, under any runtime root, if and only if the profile was not created at second 0. */
  lemma UntroubledOwnerGetsIn(lib: Lib, es: seq<Event>, p: Pid, root: bytes)
    requires Run(lib, es) && TroubleFree(es)
    requires Of(StoreAfter(lib, es), p).Locked? && Of(StoreAfter(lib, es), p).job.Unlock?
    requires Of(StoreAfter(lib, es), p).name in VaultAfter(lib, es)
    requires Of(StoreAfter(lib, es), p).job.password == VaultAfter(lib, es)[Of(StoreAfter(lib, es), p).name].password
    ensures var run := es + [By(p, Authenticated), By(p, MakeRuntime(root)), By(p, Opened)];
            var s, name := StoreAfter(lib, es), Of(StoreAfter(lib, es), p).name;
            && name in s.entries && HasManifest(s.entries[name])
            && (After(lib, run).Some? <==> ManifestIn(s.entries[name]).createdAt != 0)
            && (After(lib, run).Some? ==> Run(lib, run) && Of(StoreAfter(lib, run), p).Session?)
  {
    hide Run, StoreAfter, VaultAfter, LastClose, After, Refillable, Restorable, TroubleFree, Inv;
    var s, a, name := StoreAfter(lib, es), VaultAfter(lib, es), Of(StoreAfter(lib, es), p).name;
    NothingInterrupted(lib, es, name);
    LastCloseTells(lib, es, name);
    EveryRunKeepsInv(lib, es);
    if LastClose(lib, es, name).Resealed? {
      NothingIsShared(lib, s, a, p, LastClose(lib, es, name).p);
    }
    NoOrphans(lib, es);
    ClosedProfileReopens(lib, es, p, root);
  }

  // ------------------------------------------------------- a close that succeeds

  /** Between the session and the release of its lock. */
  ghost predicate OnTheWay(s: State, p: Pid, name: bytes, closing: CloseState, renamed: bool) {
    var proc := Of(s, p);
    && HeldBy(proc) == Some(name)
    && if renamed then (proc.Cleaning? && closing == Resealed(p)) || (proc.Releasing? && closing == InOrder)
       else proc.Session? || proc.Sealing? || proc.Cleaning? || proc.Releasing?
  }

  lemma CloserGoesOn(lib: Lib, s: State, p: Pid, act: Action, name: bytes, closing: CloseState, renamed: bool)
    requires Next(lib, s, By(p, act)).Some? && OnTheWay(s, p, name, closing, renamed)
    requires !Marked(act, Litter) && !Marked(act, LetGo)
    ensures OnTheWay(Next(lib, s, By(p, act)).value, p, name, ClosingStep(s, closing, By(p, act), name),
                     renamed || Marked(act, Rename))
  {
    hide Next, UserDirectory;
    EveryStepMoves(lib, s, p, act);
  }

  lemma OthersLetCloserGoOn(lib: Lib, s: State, a: Vault, e: Event, p: Pid, name: bytes, closing: CloseState,
                            renamed: bool)
    requires Inv(lib, s, a) && Next(lib, s, e).Some? && !IsBy(e, p) && OnTheWay(s, p, name, closing, renamed)
    ensures OnTheWay(Next(lib, s, e).value, p, name, ClosingStep(s, closing, e, name), renamed)
  {
    hide Inv, Next;
    OthersKeepPlace(lib, s, e, p);
    if Reseals(s, e, name) {
      NothingIsShared(lib, s, a, p, e.p);
    }
  }

  lemma {:induction false} StaysOnTheWay(lib: Lib, p: Pid, es: seq<Event>, from: nat, name: bytes)
    requires Run(lib, es) && from <= |es| && Run(lib, es[..from])
    requires Of(StoreAfter(lib, es[..from]), p).Session? && Of(StoreAfter(lib, es[..from]), p).name == name
    requires NoneSince(p, es, from, Litter) && NoneSince(p, es, from, LetGo)
    ensures OnTheWay(StoreAfter(lib, es), p, name, LastClose(lib, es, name),
                     Count(p, es, Rename) != Count(p, es[..from], Rename))
    decreases |es|
  {
    if from == |es| {
      assert es[..from] == es;
    } else {
      var before, e := es[..|es| - 1], es[|es| - 1];
      assert before[..from] == es[..from];
      Shorter(lib, es);
      EveryRunKeepsInv(lib, before);
      CountGrows(p, before, from, Rename);
      hide Run, StoreAfter, VaultAfter, Inv, Next, Record, Fair, Logged, Marked, OnTheWay, ClosingStep;
      StaysOnTheWay(lib, p, before, from, name);
      var renamed := Count(p, before, Rename) != Count(p, es[..from], Rename);
      if IsBy(e, p) {
        CloserGoesOn(lib, StoreAfter(lib, before), p, e.act, name, LastClose(lib, before, name), renamed);
      } else {
        OthersLetCloserGoOn(lib, StoreAfter(lib, before), VaultAfter(lib, before), e, p, name,
                            LastClose(lib, before, name), renamed);
      }
    }
  }

  /** A session that has put its new state file in place, removed its runtime directory and given its lock
      back has ended in a close in order. */
  lemma LeavingIsInOrder(lib: Lib, p: Pid, es: seq<Event>, from: nat, name: bytes)
    requires Run(lib, es) && from < |es| && Run(lib, es[..from]) && es[|es| - 1] == By(p, Release)
    requires Of(StoreAfter(lib, es[..from]), p).Session? && Of(StoreAfter(lib, es[..from]), p).name == name
    requires NoneSince(p, es, from, Litter) && HeldToTheLast(p, es, from)
    requires Count(p, es, Rename) != Count(p, es[..from], Rename)
    ensures LastClose(lib, es, name).InOrder?
  {
    var before := es[..|es| - 1];
    assert before[..from] == es[..from];
    Shorter(lib, es);
    hide Run, StoreAfter, Inv, Next, Record, Fair, Logged, OnTheWay;
    assert forall k :: from <= k < |before| ==> before[k] == es[k];
    StaysOnTheWay(lib, p, before, from, name);
    ReleaseEndsIt(lib, StoreAfter(lib, before), p, name, LastClose(lib, before, name));
  }

  lemma ReleaseEndsIt(lib: Lib, s: State, p: Pid, name: bytes, closing: CloseState)
    requires Next(lib, s, By(p, Release)).Some? && OnTheWay(s, p, name, closing, true)
    ensures ClosingStep(s, closing, By(p, Release), name) == InOrder
  {
  }
}
