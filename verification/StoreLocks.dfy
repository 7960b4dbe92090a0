/** Who holds what: locks and runtime directories change hands in order, and what is being extracted or sealed
    stays as its process left it. None of it rests on cryptography, so it needs no assumption on passwords,
    salts or forgeries. */
module StoreLocks {
  import opened Wrappers
  import opened Libraries
  import opened Trees
  import opened Manifest
  import opened KeyWrap
  import opened Archive
  import opened StoreModel
  import opened StoreIsolation

  /** The lock table names exactly the processes that hold locks. */
  ghost predicate LocksHeld(s: State) {
    && (forall p :: HeldBy(Of(s, p)).Some? ==>
        HeldBy(Of(s, p)).value in s.locks && s.locks[HeldBy(Of(s, p)).value] == p)
    && (forall n :: n in s.locks ==> HeldBy(Of(s, s.locks[n])) == Some(n))
  }

  /** Every process has its runtime directory to itself, and none of these is a leftover. */
  ghost predicate RuntimesHeld(s: State) {
    && s.orphans <= s.runtimes.Keys
    && (forall p :: RuntimeOf(Of(s, p)).Some? ==>
          RuntimeOf(Of(s, p)).value in s.runtimes && RuntimeOf(Of(s, p)).value !in s.orphans)
    && (forall p, q :: RuntimeOf(Of(s, p)).Some? && RuntimeOf(Of(s, p)) == RuntimeOf(Of(s, q)) ==> p == q)
  }

  /** What is being extracted can be removed, as each entry was created in a directory that allows it; and
      what is being sealed is what the runtime directory holds. */
  ghost predicate TreeHeld(s: State, p: Pid) {
    var proc := Of(s, p);
    && (proc.Extracting? ==> CanClear(s, p))
    && (proc.Sealing? ==> proc.path in s.runtimes && s.runtimes[proc.path] == proc.tree)
  }

  ghost predicate TreesHeld(s: State) {
    forall p :: TreeHeld(s, p)
  }

  /** The runtime directory of `p` is left as it is. */
  ghost predicate RuntimeKept(s: State, s2: State, p: Pid) {
    RuntimeOf(Of(s, p)).Some? ==>
      var path := RuntimeOf(Of(s, p)).value;
      && RuntimeOf(Of(s2, p)) == Some(path)
      && path in s.runtimes && path in s2.runtimes && s2.runtimes[path] == s.runtimes[path]
  }

  /** What a step of `p` does to the lock table. */
  ghost predicate LockExchange(s: State, s2: State, p: Pid) {
    var before, after := HeldBy(Of(s, p)), HeldBy(Of(s2, p));
    if before == after then s2.locks == s.locks
    else if before.None? then after.value !in s.locks && s2.locks == s.locks[after.value := p]
    else after.None? && s2.locks == s.locks - {before.value}
  }

  /** What it does to the runtime directories. */
  ghost predicate RuntimeExchange(s: State, s2: State, p: Pid) {
    var before, after := RuntimeOf(Of(s, p)), RuntimeOf(Of(s2, p));
    && (forall path :: before != Some(path) && after != Some(path) ==>
          (path in s2.runtimes <==> path in s.runtimes) && (path in s2.orphans <==> path in s.orphans))
    && (before == after && before.Some? && before.value in s.runtimes ==>
          before.value in s2.runtimes && (before.value in s2.orphans <==> before.value in s.orphans))
    && (before != after && after.Some? ==>
          && before.None? && after.value !in s.runtimes && after.value in s2.runtimes
          && (after.value in s2.orphans <==> after.value in s.orphans))
    && (before != after && before.Some? && before.value in s.runtimes && before.value !in s.orphans ==>
          before.value in s2.orphans ==> before.value in s2.runtimes)
  }

  ghost predicate Exchange(s: State, s2: State, p: Pid) {
    (forall q :: q != p ==> Of(s2, q) == Of(s, q)) && LockExchange(s, s2, p) && RuntimeExchange(s, s2, p)
  }

  // ------------------------------------------------------------ single steps

  lemma CreatorsLocks(lib: Lib, s: State, p: Pid, act: Action)
    ensures NextAdd(s, p, act).Some? ==> LockExchange(s, NextAdd(s, p, act).value, p)
    ensures IsStaged(act) ==> NextStaged(lib, s, p, act).Some? ==> LockExchange(s, NextStaged(lib, s, p, act).value, p)
  {
    hide Rewrap, Lists, CanSeal, SealedFile, UserDirectory, FreshId, IsValidUsername, NewHeader;
  }

  lemma EnteringLocks(lib: Lib, s: State, p: Pid, act: Action)
    ensures NextLock(lib, s, p, act).Some? ==> LockExchange(s, NextLock(lib, s, p, act).value, p)
    ensures act.BeginRotation? || act.FinishRotation? || act.ReplaceManifest? ==>
              NextRotate(s, p, act).Some? ==> LockExchange(s, NextRotate(s, p, act).value, p)
  {
    hide Authenticate, Rotate, Validates, UserDirectory, IsValidUsername, EqualUpToCase;
  }

  lemma SessionsLocks(lib: Lib, s: State, p: Pid, act: Action)
    ensures NextSession(lib, s, p, act).Some? ==> LockExchange(s, NextSession(lib, s, p, act).value, p)
    ensures act.BeginSeal? || act.FinishSeal? || act.ReplaceState? ==>
              NextSeal(lib, s, p, act).Some? ==> LockExchange(s, NextSeal(lib, s, p, act).value, p)
  {
    hide Unseal, Lists, CanSeal, SealedFile, WellFormedTree;
  }

  lemma CleanupLocks(s: State, p: Pid, act: Action)
    ensures NextCleanup(s, p, act).Some? ==> LockExchange(s, NextCleanup(s, p, act).value, p)
  {
  }

  lemma CreatorsRuntimes(lib: Lib, s: State, p: Pid, act: Action)
    ensures NextAdd(s, p, act).Some? ==> RuntimeExchange(s, NextAdd(s, p, act).value, p)
    ensures IsStaged(act) ==>
              NextStaged(lib, s, p, act).Some? ==> RuntimeExchange(s, NextStaged(lib, s, p, act).value, p)
  {
    hide Rewrap, Lists, CanSeal, SealedFile, UserDirectory, FreshId, IsValidUsername, NewHeader;
  }

  lemma EnteringRuntimes(lib: Lib, s: State, p: Pid, act: Action)
    ensures NextLock(lib, s, p, act).Some? ==> RuntimeExchange(s, NextLock(lib, s, p, act).value, p)
    ensures act.BeginRotation? || act.FinishRotation? || act.ReplaceManifest? ==>
              NextRotate(s, p, act).Some? ==> RuntimeExchange(s, NextRotate(s, p, act).value, p)
  {
    hide Authenticate, Rotate, Validates, UserDirectory, IsValidUsername, EqualUpToCase;
  }

  lemma SessionsRuntimes(lib: Lib, s: State, p: Pid, act: Action)
    ensures NextSession(lib, s, p, act).Some? ==> RuntimeExchange(s, NextSession(lib, s, p, act).value, p)
    ensures act.BeginSeal? || act.FinishSeal? || act.ReplaceState? ==>
              NextSeal(lib, s, p, act).Some? ==> RuntimeExchange(s, NextSeal(lib, s, p, act).value, p)
  {
    hide Unseal, Lists, CanSeal, SealedFile, WellFormedTree;
  }

  lemma CleanupRuntimes(s: State, p: Pid, act: Action)
    ensures NextCleanup(s, p, act).Some? ==> RuntimeExchange(s, NextCleanup(s, p, act).value, p)
  {
  }

  lemma EveryStepExchanges(lib: Lib, s: State, p: Pid, act: Action)
    requires Next(lib, s, By(p, act)).Some?
    ensures Exchange(s, Next(lib, s, By(p, act)).value, p)
  {
    hide NextAdd, NextStaged, NextLock, NextRotate, NextSession, NextSeal, NextCleanup, LockExchange, RuntimeExchange;
    CreatorsLocks(lib, s, p, act);
    CreatorsRuntimes(lib, s, p, act);
    EnteringLocks(lib, s, p, act);
    EnteringRuntimes(lib, s, p, act);
    SessionsLocks(lib, s, p, act);
    SessionsRuntimes(lib, s, p, act);
    CleanupLocks(s, p, act);
    CleanupRuntimes(s, p, act);
    EveryStepKeepsToItsOwn(lib, s, p, act);
  }

  // ---------------------------------------------------------- every event

  lemma ExchangeKeepsLocks(s: State, s2: State, p: Pid)
    requires LocksHeld(s) && Exchange(s, s2, p)
    ensures LocksHeld(s2)
  {
    hide HeldBy, RuntimeExchange;
  }

  lemma ExchangeKeepsRuntimes(s: State, s2: State, p: Pid)
    requires RuntimesHeld(s) && Exchange(s, s2, p)
    ensures RuntimesHeld(s2)
  {
    hide RuntimeOf, LockExchange, Of;
  }

  // ------------------------------------------------ what the directories hold

  /** Actions that change what a process's runtime directory holds, or whether it has one. */
  predicate Reshapes(act: Action) {
    act.MakeRuntime? || act.ExtractPart? || act.Opened? || act.Edit? || act.CleanUp? || act.Crash?
  }

  lemma CreatorsHaveNoRuntime(lib: Lib, s: State, p: Pid, act: Action)
    ensures NextAdd(s, p, act).Some? ==> RuntimeOf(Of(s, p)).None? && RuntimeOf(Of(NextAdd(s, p, act).value, p)).None?
    ensures IsStaged(act) && NextStaged(lib, s, p, act).Some? ==>
              RuntimeOf(Of(s, p)).None? && RuntimeOf(Of(NextStaged(lib, s, p, act).value, p)).None?
  {
    hide Rewrap, Lists, CanSeal, SealedFile, UserDirectory, FreshId, IsValidUsername, NewHeader;
  }

  lemma EnteringHasNoRuntime(lib: Lib, s: State, p: Pid, act: Action)
    ensures NextLock(lib, s, p, act).Some? ==>
              RuntimeOf(Of(s, p)).None? && RuntimeOf(Of(NextLock(lib, s, p, act).value, p)).None?
    ensures act.BeginRotation? || act.FinishRotation? || act.ReplaceManifest? ==>
              NextRotate(s, p, act).Some? ==>
              RuntimeOf(Of(s, p)).None? && RuntimeOf(Of(NextRotate(s, p, act).value, p)).None?
  {
    hide Authenticate, Rotate, Validates, UserDirectory, IsValidUsername, EqualUpToCase;
  }

  ghost predicate HasItsRuntime(s: State, p: Pid) {
    RuntimeOf(Of(s, p)).Some? ==> RuntimeOf(Of(s, p)).value in s.runtimes
  }

  lemma SessionsHoldTrees(lib: Lib, s: State, p: Pid, act: Action)
    requires TreeHeld(s, p) && HasItsRuntime(s, p)
    ensures NextSession(lib, s, p, act).Some? ==>
              var s2 := NextSession(lib, s, p, act).value;
              TreeHeld(s2, p) && (Reshapes(act) || RuntimeKept(s, s2, p))
    ensures act.BeginSeal? || act.FinishSeal? || act.ReplaceState? ==>
              NextSeal(lib, s, p, act).Some? ==>
              var s2 := NextSeal(lib, s, p, act).value;
              TreeHeld(s2, p) && RuntimeKept(s, s2, p)
  {
    hide Unseal, Lists, CanSeal, SealedFile, WellFormedTree, CanHold;
  }

  lemma CleanupHoldsTrees(s: State, p: Pid, act: Action)
    requires TreeHeld(s, p) && HasItsRuntime(s, p)
    ensures NextCleanup(s, p, act).Some? ==>
              var s2 := NextCleanup(s, p, act).value;
              TreeHeld(s2, p) && (Reshapes(act) || RuntimeKept(s, s2, p))
  {
    hide Removable;
  }

  lemma NoRuntimeNoTree(s: State, p: Pid)
    requires RuntimeOf(Of(s, p)).None?
    ensures TreeHeld(s, p) && forall s2 :: RuntimeKept(s, s2, p)
  {
  }

  /** A step keeps the trees in order, and unless it is one of those that reshape it leaves what the
      runtime directory holds alone. */
  lemma StepHoldsTree(lib: Lib, s: State, p: Pid, act: Action)
    requires RuntimesHeld(s) && TreeHeld(s, p) && Next(lib, s, By(p, act)).Some?
    ensures TreeHeld(Next(lib, s, By(p, act)).value, p)
    ensures Reshapes(act) || RuntimeKept(s, Next(lib, s, By(p, act)).value, p)
  {
    hide NextAdd, NextStaged, NextLock, NextRotate, NextSession, NextSeal, NextCleanup;
    hide TreeHeld, RuntimeKept, RuntimeOf;
    CreatorsHaveNoRuntime(lib, s, p, act);
    EnteringHasNoRuntime(lib, s, p, act);
    SessionsHoldTrees(lib, s, p, act);
    CleanupHoldsTrees(s, p, act);
    if RuntimeOf(Of(s, p)).None? {
      NoRuntimeNoTree(s, p);
    }
    if RuntimeOf(Of(Next(lib, s, By(p, act)).value, p)).None? {
      NoRuntimeNoTree(Next(lib, s, By(p, act)).value, p);
    }
  }

  /** No event of anybody else changes what the runtime directory of a process holds. */
  lemma OthersKeepRuntime(lib: Lib, s: State, e: Event, p: Pid)
    requires RuntimesHeld(s) && Next(lib, s, e).Some? && !IsBy(e, p)
    ensures Of(Next(lib, s, e).value, p) == Of(s, p) && RuntimeKept(s, Next(lib, s, e).value, p)
  {
    hide NextAdd, NextStaged, NextLock, NextRotate, NextSession, NextSeal, NextCleanup, RuntimeOf;
    if e.By? {
      EveryStepKeepsToItsOwn(lib, s, e.p, e.act);
    }
  }

  lemma KeptTreeIsHeld(s: State, s2: State, p: Pid)
    requires TreeHeld(s, p) && Of(s2, p) == Of(s, p) && RuntimeKept(s, s2, p)
    ensures TreeHeld(s2, p)
  {
    hide Removable;
  }

  lemma KeptTwice(s: State, s2: State, s3: State, p: Pid)
    requires RuntimeKept(s, s2, p) && RuntimeKept(s2, s3, p)
    ensures RuntimeKept(s, s3, p)
  {
  }

  lemma KeptAtFirst(s: State, p: Pid)
    requires RuntimesHeld(s)
    ensures RuntimeKept(s, s, p)
  {
  }

  lemma EveryEventKeepsTrees(lib: Lib, s: State, e: Event)
    requires RuntimesHeld(s) && TreesHeld(s) && Next(lib, s, e).Some?
    ensures TreesHeld(Next(lib, s, e).value)
  {
    hide Next, RuntimesHeld, TreeHeld;
    forall p
      ensures TreeHeld(Next(lib, s, e).value, p)
    {
      if IsBy(e, p) {
        StepHoldsTree(lib, s, p, e.act);
      } else {
        OthersKeepRuntime(lib, s, e, p);
        KeptTreeIsHeld(s, Next(lib, s, e).value, p);
      }
    }
  }

  lemma EveryEventKeepsOrder(lib: Lib, s: State, e: Event)
    requires LocksHeld(s) && RuntimesHeld(s) && Next(lib, s, e).Some?
    ensures LocksHeld(Next(lib, s, e).value) && RuntimesHeld(Next(lib, s, e).value)
    ensures TreesHeld(s) ==> TreesHeld(Next(lib, s, e).value)
  {
    if TreesHeld(s) {
      EveryEventKeepsTrees(lib, s, e);
    }
    hide TreesHeld;
    if e.By? {
      hide Next, LocksHeld, RuntimesHeld, Exchange;
      EveryStepExchanges(lib, s, e.p, e.act);
      ExchangeKeepsLocks(s, Next(lib, s, e).value, e.p);
      ExchangeKeepsRuntimes(s, Next(lib, s, e).value, e.p);
    } else {
      OutsidersKeepOrder(lib, s, e);
    }
  }

  lemma OutsidersKeepOrder(lib: Lib, s: State, e: Event)
    requires LocksHeld(s) && RuntimesHeld(s) && Next(lib, s, e).Some? && !e.By?
    ensures LocksHeld(Next(lib, s, e).value) && RuntimesHeld(Next(lib, s, e).value)
  {
    var s2 := Next(lib, s, e).value;
    assert forall p :: Of(s2, p) == Of(s, p);
    hide NextAdd, NextStaged, NextLock, NextRotate, NextSession, NextSeal, NextCleanup, HeldBy, RuntimeOf, Of;
  }
}
