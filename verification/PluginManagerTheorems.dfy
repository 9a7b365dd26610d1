/** Theorems over every run of the plugin manager's restart and Close protocol. */
module PluginManagerTheorems {
  import opened Wrappers
  import opened PluginManager

  // ---------------------------------------------------------------- the lock

  predicate InCritical(pc: Pc) { pc.Locked? || pc.Passed? || pc.Copied? || pc.Marking? }

  /** writeMu is exclusive; a restarter past its closed check got the lock before Close did, and
      the map it copied is still the published one. */
  ghost predicate LockInv(s: State) {
    && (forall r :: r in s.rs ==> (InCritical(s.rs[r].pc) <==> s.mu == HeldBy(r)))
    && (s.mu.HeldBy? ==> s.mu.r in s.rs)
    && (s.mu.HeldByClose? <==> s.closing.CloseLocked? || s.closing.Killing?)
    && (forall r :: r in s.rs && (s.rs[r].pc.Passed? || s.rs[r].pc.Copied?) ==> !Emptied(s))
    && (forall r :: r in s.rs && s.rs[r].pc.Copied? ==> s.rs[r].pc.snap == s.published)
    && (Emptied(s) ==> s.published == map[])
  }

  lemma LockStepRestarter(s: State, l: Step, r: Rid)
    requires LockInv(s) && Enabled(s, l)
    requires l in {Acquire(r), CheckClosed(r), CopyMap(r), StoreMap(r), AcquireToMark(r), MarkFailed(r)}
    ensures LockInv(Next(s, l))
  {
  }

  predicate IsCloseStep(l: Step) {
    l.CloseDone? || l.CloseFlag? || l.CloseAcquire? || l.CloseEmpty? || l.CloseKill? || l.CloseReturn?
  }

  lemma LockStepClose(s: State, l: Step)
    requires LockInv(s) && Enabled(s, l) && IsCloseStep(l)
    ensures LockInv(Next(s, l))
  {
  }

  lemma LockStepCaller(s: State, l: Step)
    requires LockInv(s) && Enabled(s, l) && (l.Crash? || l.Observe? || l.CompareAndSwap?)
    ensures LockInv(Next(s, l))
  {
  }

  lemma LockStepOther(s: State, l: Step)
    requires LockInv(s) && Enabled(s, l) && !IsCloseStep(l) && !l.Crash? && !l.Observe? && !l.CompareAndSwap?
    requires !l.Acquire? && !l.CheckClosed? && !l.CopyMap? && !l.StoreMap? && !l.AcquireToMark? && !l.MarkFailed?
    ensures LockInv(Next(s, l))
  {
  }

  lemma LockStep(s: State, l: Step)
    requires LockInv(s) && Enabled(s, l)
    ensures LockInv(Next(s, l))
  {
    if l.Acquire? || l.CheckClosed? || l.CopyMap? || l.StoreMap? || l.AcquireToMark? || l.MarkFailed? {
      LockStepRestarter(s, l, l.r);
    } else if l.Crash? || l.Observe? || l.CompareAndSwap? {
      LockStepCaller(s, l);
    } else if IsCloseStep(l) {
      LockStepClose(s, l);
    } else {
      LockStepOther(s, l);
    }
  }

  // ---------------------------------------------------------------- who owns which process

  /** The process a restart goroutine must still publish or kill. */
  function Held(pc: Pc): Option<Inst> {
    match pc
    case Started(n) => Some(n)
    case Locked(n) => Some(n)
    case Passed(n) => Some(n)
    case Copied(n, _) => Some(n)
    case KillNew(n) => Some(n)
    case KillOld(o) => Some(o)
    case _ => None
  }

  ghost predicate IsPublished(s: State, i: Inst) {
    i in s.insts && s.insts[i].name in s.published && s.published[s.insts[i].name] == i
  }

  ghost predicate IsHeld(s: State, r: Rid, i: Inst) { r in s.rs && Held(s.rs[r].pc) == Some(i) }

  ghost predicate IsClosing(s: State, i: Inst) { s.closing.Killing? && i in s.closing.left }

  /** Names are kept: an instance is only ever published or held under its own name. */
  ghost predicate NameInv(s: State) {
    && (forall name :: name in s.published ==>
         s.published[name] in s.insts && s.insts[s.published[name]].name == name)
    && (forall r :: r in s.rs && Held(s.rs[r].pc).Some? ==>
         Held(s.rs[r].pc).value in s.insts && s.insts[Held(s.rs[r].pc).value].name == s.rs[r].name)
    && (forall i :: IsClosing(s, i) ==> i in s.insts)
  }

  /** Steps that only move a restart goroutine and the lock. */
  predicate MovesRestarter(l: Step) {
    l.Cancelled? || l.StartFailed? || l.Acquire? || l.CheckClosed? || l.CopyMap? || l.AcquireToMark? || l.MarkFailed?
  }

  lemma NameStepMoves(s: State, l: Step)
    requires NameInv(s) && Enabled(s, l) && MovesRestarter(l) && !l.MarkFailed?
    ensures NameInv(Next(s, l))
  {
  }

  lemma NameStepMark(s: State, l: Step)
    requires NameInv(s) && Enabled(s, l) && l.MarkFailed?
    ensures NameInv(Next(s, l))
  {
  }

  lemma NameStepClose(s: State, l: Step)
    requires LockInv(s) && NameInv(s) && Enabled(s, l) && IsCloseStep(l)
    ensures NameInv(Next(s, l))
  {
  }

  lemma NameStepStore(s: State, l: Step)
    requires LockInv(s) && NameInv(s) && Enabled(s, l) && l.StoreMap?
    ensures NameInv(Next(s, l))
  {
  }

  lemma NameStepStart(s: State, l: Step)
    requires NameInv(s) && Enabled(s, l) && l.StartOk?
    ensures NameInv(Next(s, l))
  {
  }

  lemma NameStepOther(s: State, l: Step)
    requires NameInv(s) && Enabled(s, l) && !MovesRestarter(l) && !IsCloseStep(l) && !l.StoreMap? && !l.StartOk?
    ensures NameInv(Next(s, l))
  {
  }

  datatype Owner = Public | ByRestarter(r: Rid) | ByClose | Dead

  /** `o` is the one place where the process i is. */
  ghost predicate Owns(s: State, i: Inst, o: Owner) {
    && i in s.insts
    && (o == Public <==> IsPublished(s, i))
    && (o == ByClose <==> IsClosing(s, i))
    && (o == Dead <==> s.insts[i].killed)
    && (forall r :: o == ByRestarter(r) <==> IsHeld(s, r, i))
  }

  lemma OwnStore(s: State, l: Step, i: Inst, o: Owner)
    requires LockInv(s) && NameInv(s) && Enabled(s, l) && l.StoreMap? && Owns(s, i, o)
    ensures Owns(Next(s, l), i,
      if i == s.rs[l.r].pc.n then Public
      else if o == Public && s.insts[i].name == s.rs[l.r].name then ByRestarter(l.r)
      else o)
  {
    assert o == ByRestarter(l.r) <==> IsHeld(s, l.r, i);
    var s' := Next(s, l);
    forall r
      ensures r != l.r ==> (IsHeld(s', r, i) <==> IsHeld(s, r, i))
    {
    }
  }

  lemma OwnKill(s: State, l: Step, i: Inst, o: Owner)
    requires NameInv(s) && Enabled(s, l) && (l.KillHeld? || l.CloseKill?) && Owns(s, i, o)
    ensures var victim := if l.CloseKill? then l.i else Held(s.rs[l.r].pc).value;
      Owns(Next(s, l), i, if i == victim then Dead else o)
  {
    var s' := Next(s, l);
    if l.KillHeld? {
      assert o == ByRestarter(l.r) <==> IsHeld(s, l.r, i);
      forall r
        ensures r != l.r ==> (IsHeld(s', r, i) <==> IsHeld(s, r, i))
      {
      }
    } else {
      assert forall r :: IsHeld(s', r, i) <==> IsHeld(s, r, i);
    }
  }

  lemma OwnStart(s: State, l: Step, i: Inst, o: Owner)
    requires NameInv(s) && Enabled(s, l) && l.StartOk? && Owns(s, i, o)
    ensures Owns(Next(s, l), i, o)
  {
    var s' := Next(s, l);
    assert forall r :: IsHeld(s', r, i) <==> IsHeld(s, r, i);
  }

  lemma OwnNew(s: State, l: Step)
    requires NameInv(s) && Enabled(s, l) && l.StartOk?
    ensures Owns(Next(s, l), l.n, ByRestarter(l.r))
  {
  }

  lemma OwnEmpty(s: State, l: Step, i: Inst, o: Owner)
    requires NameInv(s) && Enabled(s, l) && l.CloseEmpty? && Owns(s, i, o)
    ensures Owns(Next(s, l), i, if o == Public then ByClose else o)
  {
    var s' := Next(s, l);
    assert forall r :: IsHeld(s', r, i) <==> IsHeld(s, r, i);
    if i in s.published.Values {
      var name :| name in s.published && s.published[name] == i;
    }
  }

  lemma OwnMoves(s: State, l: Step, i: Inst, o: Owner)
    requires NameInv(s) && Enabled(s, l) && Owns(s, i, o) && MovesRestarter(l)
    ensures Owns(Next(s, l), i, o)
  {
    var s' := Next(s, l);
    assert forall r :: IsHeld(s', r, i) <==> IsHeld(s, r, i);
  }

  lemma OwnOther(s: State, l: Step, i: Inst, o: Owner)
    requires NameInv(s) && Enabled(s, l) && Owns(s, i, o) && !MovesRestarter(l)
    requires !l.StoreMap? && !l.KillHeld? && !l.CloseKill? && !l.StartOk? && !l.CloseEmpty?
    ensures Owns(Next(s, l), i, o)
  {
    var s' := Next(s, l);
    assert forall r :: IsHeld(s', r, i) <==> IsHeld(s, r, i);
  }

  /** Whoever owns a process before a step, someone owns it after. */
  lemma OwnStep(s: State, l: Step, i: Inst, o: Owner) returns (o': Owner)
    requires LockInv(s) && NameInv(s) && Enabled(s, l) && Owns(s, i, o)
    ensures Owns(Next(s, l), i, o')
  {
    if l.StoreMap? {
      OwnStore(s, l, i, o);
      o' := if i == s.rs[l.r].pc.n then Public
            else if o == Public && s.insts[i].name == s.rs[l.r].name then ByRestarter(l.r) else o;
    } else if l.KillHeld? || l.CloseKill? {
      OwnKill(s, l, i, o);
      o' := if i == (if l.CloseKill? then l.i else Held(s.rs[l.r].pc).value) then Dead else o;
    } else if l.StartOk? {
      OwnStart(s, l, i, o);
      o' := o;
    } else if l.CloseEmpty? {
      OwnEmpty(s, l, i, o);
      o' := if o == Public then ByClose else o;
    } else if MovesRestarter(l) {
      OwnMoves(s, l, i, o);
      o' := o;
    } else {
      OwnOther(s, l, i, o);
      o' := o;
    }
  }

  lemma {:induction false} SafeRun(s0: State, ls: seq<Step>, s: State)
    requires IsInit(s0) && Exec(s0, ls) == Some(s)
    ensures LockInv(s) && NameInv(s)
    decreases |ls|
  {
    if ls != [] {
      var m, l := Exec(s0, ls[..|ls| - 1]).value, ls[|ls| - 1];
      SafeRun(s0, ls[..|ls| - 1], m);
      LockStep(m, l);
      if l.MarkFailed? {
        NameStepMark(m, l);
      } else if MovesRestarter(l) {
        NameStepMoves(m, l);
      } else if l.StoreMap? {
        NameStepStore(m, l);
      } else if l.StartOk? {
        NameStepStart(m, l);
      } else if IsCloseStep(l) {
        NameStepClose(m, l);
      } else {
        NameStepOther(m, l);
      }
    }
  }

  lemma NewInstances(s: State, l: Step, i: Inst)
    requires Enabled(s, l) && i !in s.insts && i in Next(s, l).insts
    ensures l.StartOk? && l.n == i
  {
  }

  /** In every interleaving of callers, restarts and Close, every process ever started is in
      exactly one place: published, held by one restart goroutine, being killed by Close, or killed. */
  lemma {:induction false} EveryProcessHasOneOwner(s0: State, ls: seq<Step>, s: State, i: Inst) returns (o: Owner)
    requires IsInit(s0) && Exec(s0, ls) == Some(s) && i in s.insts
    ensures Owns(s, i, o)
    decreases |ls|
  {
    if ls == [] {
      o := Public;
      assert i in s.published.Values;
    } else {
      var m, l := Exec(s0, ls[..|ls| - 1]).value, ls[|ls| - 1];
      SafeRun(s0, ls[..|ls| - 1], m);
      if i in m.insts {
        var o' := EveryProcessHasOneOwner(s0, ls[..|ls| - 1], m, i);
        o := OwnStep(m, l, i, o');
      } else {
        NewInstances(m, l, i);
        OwnNew(m, l);
        o := ByRestarter(l.r);
      }
    }
  }

  /** Once Close has emptied the map, nothing is ever published again. */
  lemma NothingPublishedAfterClose(s0: State, ls: seq<Step>, s: State)
    requires IsInit(s0) && Exec(s0, ls) == Some(s) && Emptied(s)
    ensures s.published == map[]
  {
    SafeRun(s0, ls, s);
  }

  /** So when Close has returned and every restart goroutine has finished, every process that
      was ever started has been killed. */
  lemma AllProcessesKilledInTheEnd(s0: State, ls: seq<Step>, s: State, i: Inst)
    requires IsInit(s0) && Exec(s0, ls) == Some(s) && i in s.insts
    requires s.closing.Returned? && forall r :: r in s.rs ==> s.rs[r].pc.Finished?
    ensures s.insts[i].killed
  {
    var o := EveryProcessHasOneOwner(s0, ls, s, i);
    SafeRun(s0, ls, s);
    assert forall r :: !IsHeld(s, r, i);
  }

  // ---------------------------------------------------------------- one restart loop per plugin

  /** Still trying to replace the crashed instance, or about to mark it failed. */
  predicate InLoop(pc: Pc) { !pc.KillNew? && !pc.KillOld? && !pc.Finished? }

  /** Each instance spawns at most one restart goroutine. */
  ghost predicate CauseInv(s: State) {
    && (forall r :: r in s.rs ==>
         s.rs[r].cause in s.seen && s.rs[r].cause in s.insts && s.insts[s.rs[r].cause].restarting &&
         s.insts[s.rs[r].cause].name == s.rs[r].name)
    && (forall r, r' :: r in s.rs && r' in s.rs && s.rs[r].cause == s.rs[r'].cause ==> r == r')
    && s.seen <= s.insts.Keys
    && (forall i :: i in s.observers ==> i in s.seen)
    && (forall name :: name in s.published ==> s.published[name] in s.seen)
  }

  lemma CauseSpawn(s: State, l: Step)
    requires CauseInv(s) && Enabled(s, l) && l.CompareAndSwap?
    ensures CauseInv(Next(s, l))
  {
  }

  lemma CauseStore(s: State, l: Step)
    requires LockInv(s) && NameInv(s) && CauseInv(s) && Enabled(s, l) && l.StoreMap?
    ensures CauseInv(Next(s, l))
  {
    assert Held(s.rs[l.r].pc) == Some(s.rs[l.r].pc.n);
  }

  /** Steps of a restart goroutine that take, hold or release the lock. */
  predicate MovesLock(l: Step) { l.Acquire? || l.CheckClosed? || l.CopyMap? || l.AcquireToMark? }

  lemma CauseLock(s: State, l: Step)
    requires CauseInv(s) && Enabled(s, l) && MovesLock(l)
    ensures CauseInv(Next(s, l))
  {
  }

  lemma CauseMoves(s: State, l: Step)
    requires CauseInv(s) && Enabled(s, l) && (l.Cancelled? || l.StartFailed?)
    ensures CauseInv(Next(s, l))
  {
  }

  lemma CauseMark(s: State, l: Step)
    requires CauseInv(s) && Enabled(s, l) && l.MarkFailed?
    ensures CauseInv(Next(s, l))
  {
  }

  lemma CauseClose(s: State, l: Step)
    requires CauseInv(s) && Enabled(s, l) && IsCloseStep(l)
    ensures CauseInv(Next(s, l))
  {
  }

  lemma CauseOther(s: State, l: Step)
    requires CauseInv(s) && Enabled(s, l) && !l.CompareAndSwap? && !l.StoreMap? && !MovesRestarter(l) && !IsCloseStep(l)
    ensures CauseInv(Next(s, l))
  {
  }

  /** Until the map is emptied: a running loop's crashed instance is the published one, and
      whatever was published before has its restarting flag set. */
  ghost predicate LoopInv(s: State) {
    && (!Emptied(s) ==> forall r :: r in s.rs && InLoop(s.rs[r].pc) ==>
         s.rs[r].name in s.published && s.published[s.rs[r].name] == s.rs[r].cause)
    && (!Emptied(s) ==> forall i :: i in s.seen && i in s.insts && !s.insts[i].restarting ==> IsPublished(s, i))
    && (forall r :: r in s.rs && s.rs[r].pc.KillOld? ==> s.rs[r].pc.o == s.rs[r].cause)
  }

  lemma LoopSpawn(s: State, l: Step)
    requires CauseInv(s) && LoopInv(s) && Enabled(s, l) && l.CompareAndSwap?
    ensures LoopInv(Next(s, l))
  {
  }

  lemma LoopStore(s: State, l: Step)
    requires LockInv(s) && NameInv(s) && CauseInv(s) && LoopInv(s) && Enabled(s, l) && l.StoreMap?
    ensures LoopInv(Next(s, l))
  {
  }

  lemma LoopLock(s: State, l: Step)
    requires LoopInv(s) && Enabled(s, l) && MovesLock(l)
    ensures LoopInv(Next(s, l))
  {
  }

  lemma LoopMoves(s: State, l: Step)
    requires LoopInv(s) && Enabled(s, l) && (l.Cancelled? || l.StartFailed?)
    ensures LoopInv(Next(s, l))
  {
  }

  lemma LoopMark(s: State, l: Step)
    requires CauseInv(s) && LoopInv(s) && Enabled(s, l) && l.MarkFailed?
    ensures LoopInv(Next(s, l))
  {
  }

  lemma LoopClose(s: State, l: Step)
    requires LockInv(s) && NameInv(s) && CauseInv(s) && LoopInv(s) && Enabled(s, l) && IsCloseStep(l)
    ensures LoopInv(Next(s, l))
  {
  }

  lemma LoopStart(s: State, l: Step)
    requires CauseInv(s) && LoopInv(s) && Enabled(s, l) && l.StartOk?
    ensures LoopInv(Next(s, l))
  {
  }

  lemma LoopOther(s: State, l: Step)
    requires CauseInv(s) && LoopInv(s) && Enabled(s, l) && (l.Crash? || l.Observe? || l.KillHeld?)
    ensures LoopInv(Next(s, l))
  {
  }

  lemma CauseStep(s: State, l: Step)
    requires LockInv(s) && NameInv(s) && CauseInv(s) && Enabled(s, l)
    ensures CauseInv(Next(s, l))
  {
    if l.CompareAndSwap? {
      CauseSpawn(s, l);
    } else if l.StoreMap? {
      CauseStore(s, l);
    } else if l.MarkFailed? {
      CauseMark(s, l);
    } else if MovesLock(l) {
      CauseLock(s, l);
    } else if l.Cancelled? || l.StartFailed? {
      CauseMoves(s, l);
    } else if IsCloseStep(l) {
      CauseClose(s, l);
    } else {
      CauseOther(s, l);
    }
  }

  lemma LoopStep(s: State, l: Step)
    requires LockInv(s) && NameInv(s) && CauseInv(s) && LoopInv(s) && Enabled(s, l)
    ensures LoopInv(Next(s, l))
  {
    if l.CompareAndSwap? {
      LoopSpawn(s, l);
    } else if l.StoreMap? {
      LoopStore(s, l);
    } else if l.MarkFailed? {
      LoopMark(s, l);
    } else if MovesLock(l) {
      LoopLock(s, l);
    } else if l.Cancelled? || l.StartFailed? {
      LoopMoves(s, l);
    } else if l.StartOk? {
      LoopStart(s, l);
    } else if l.Crash? || l.Observe? || l.KillHeld? {
      LoopOther(s, l);
    } else {
      LoopClose(s, l);
    }
  }

  lemma {:induction false} LoopRun(s0: State, ls: seq<Step>, s: State)
    requires IsInit(s0) && Exec(s0, ls) == Some(s)
    ensures CauseInv(s) && LoopInv(s)
    decreases |ls|
  {
    if ls == [] {
      InitLoops(s);
    } else {
      var m, l := Exec(s0, ls[..|ls| - 1]).value, ls[|ls| - 1];
      LoopRun(s0, ls[..|ls| - 1], m);
      SafeRun(s0, ls[..|ls| - 1], m);
      CauseStep(m, l);
      LoopStep(m, l);
    }
  }

  lemma InitLoops(s: State)
    requires IsInit(s)
    ensures CauseInv(s) && LoopInv(s)
  {
    forall i | i in s.seen ensures IsPublished(s, i) {
      var name :| name in s.published && s.published[name] == i;
    }
  }

  /** Until Close empties the map, even with callers on stale snapshots: a plugin has at most
      one restart loop, and while it runs the published instance is the one whose crash
      spawned it. */
  lemma OneRestartLoopPerPlugin(s0: State, ls: seq<Step>, s: State, r: Rid, r': Rid)
    requires IsInit(s0) && Exec(s0, ls) == Some(s) && !Emptied(s)
    requires r in s.rs && InLoop(s.rs[r].pc)
    ensures s.rs[r].name in s.published && s.published[s.rs[r].name] == s.rs[r].cause
    ensures r' in s.rs && InLoop(s.rs[r'].pc) && s.rs[r'].name == s.rs[r].name ==> r' == r
  {
    LoopRun(s0, ls, s);
  }

  /** A swap replaces exactly the crashed instance and changes no other plugin's entry, and
      what its goroutine then kills is the crashed instance. */
  lemma SwapReplacesTheCrashed(s0: State, ls: seq<Step>, s: State, r: Rid)
    requires IsInit(s0) && Exec(s0, ls) == Some(s) && Enabled(s, StoreMap(r))
    ensures var name, n := s.rs[r].name, s.rs[r].pc.n;
      && Next(s, StoreMap(r)).published == s.published[name := n]
      && name in s.published && s.published[name] == s.rs[r].cause
      && Next(s, StoreMap(r)).rs[r].pc == KillOld(s.rs[r].cause)
  {
    SafeRun(s0, ls, s);
    LoopRun(s0, ls, s);
  }

  /** The permanent-failure mark lands on the crashed instance, or nowhere once the map is empty. */
  lemma FailureMarkLandsOnTheCrashed(s0: State, ls: seq<Step>, s: State, r: Rid)
    requires IsInit(s0) && Exec(s0, ls) == Some(s) && Enabled(s, MarkFailed(r))
    ensures var i := s.rs[r].cause;
      i in s.insts && Next(s, MarkFailed(r)).insts ==
        if Emptied(s) then s.insts else s.insts[i := s.insts[i].(failed := true)]
  {
    SafeRun(s0, ls, s);
    LoopRun(s0, ls, s);
  }

  // ---------------------------------------------------------------- who is restarted

  /** Whoever is about to be restarted, or has been, has exited. */
  ghost predicate ExitInv(s: State) {
    && (forall i :: i in s.observers && i in s.insts ==> s.insts[i].exited)
    && (forall r :: r in s.rs && s.rs[r].cause in s.insts ==> s.insts[s.rs[r].cause].exited)
  }

  lemma ExitStays(s: State, l: Step, i: Inst)
    requires Enabled(s, l) && i in s.insts && s.insts[i].exited
    ensures i in Next(s, l).insts && Next(s, l).insts[i].exited
  {
  }

  lemma {:induction false} OnlyTheExitedAreRestarted(s0: State, ls: seq<Step>, s: State)
    requires IsInit(s0) && Exec(s0, ls) == Some(s)
    ensures ExitInv(s)
    decreases |ls|
  {
    if ls != [] {
      var m, l := Exec(s0, ls[..|ls| - 1]).value, ls[|ls| - 1];
      OnlyTheExitedAreRestarted(s0, ls[..|ls| - 1], m);
      LoopRun(s0, ls[..|ls| - 1], m);
      forall i | i in m.insts && m.insts[i].exited ensures i in s.insts && s.insts[i].exited {
        ExitStays(m, l, i);
      }
      ExitStep(m, l);
    }
  }

  lemma ExitStep(s: State, l: Step)
    requires Enabled(s, l) && CauseInv(s) && ExitInv(s)
    requires forall i :: i in s.insts && s.insts[i].exited ==> i in Next(s, l).insts && Next(s, l).insts[i].exited
    ensures ExitInv(Next(s, l))
  {
    var t := Next(s, l);
    forall r | r in t.rs && t.rs[r].cause in t.insts ensures t.insts[t.rs[r].cause].exited {
      NewRestarter(s, l, r);
    }
    forall i | i in t.observers && i in t.insts ensures t.insts[i].exited {
      NewObserver(s, l, i);
    }
  }

  lemma NewRestarter(s: State, l: Step, r: Rid)
    requires Enabled(s, l) && r in Next(s, l).rs
    ensures (r in s.rs && Next(s, l).rs[r].cause == s.rs[r].cause) ||
      (l.CompareAndSwap? && l.r == r && Next(s, l).rs[r].cause == l.i && l.i in s.observers)
  {
  }

  lemma NewObserver(s: State, l: Step, i: Inst)
    requires Enabled(s, l) && i in Next(s, l).observers
    ensures i in s.observers || (l == Observe(i) && i in s.insts && s.insts[i].exited)
  {
  }

  /** Any instance that callers have can exit; a caller finds that out and, if nobody is restarting it
      and it is not given up, can start the one restart goroutine for it. */
  lemma ExitedCanBeRestarted(s: State, i: Inst, r: Rid)
    requires i in s.seen && i in s.insts && !s.insts[i].failed && r !in s.rs
    ensures var t := Exec(s, [Crash(i), Observe(i), CompareAndSwap(i, r)]);
      && t.Some? && i in t.value.insts && t.value.insts[i].exited && t.value.insts[i].restarting
      && t.value.rs == (if s.insts[i].restarting then s.rs else s.rs[r := Restarter(s.insts[i].name, i, Waiting(0))])
  {
    var s1 := Next(s, Crash(i));
    var ls := [Crash(i), Observe(i), CompareAndSwap(i, r)];
    assert ls[..2] == [Crash(i), Observe(i)] && ls[..2][..1] == [Crash(i)] && ls[..2][..1][..0] == [];
    assert Exec(s, ls[..2][..1]) == Some(s1);
    assert Exec(s, ls[..2]) == Some(Next(s1, Observe(i)));
  }

  // ---------------------------------------------------------------- it all comes to an end

  /** The steps of restart goroutine r once it is spawned. */
  predicate IsStepOf(l: Step, r: Rid) {
    (MovesRestarter(l) || l.StartOk? || l.StoreMap? || l.KillHeld?) && l.r == r
  }

  predicate IsUnderWay(s: State, r: Rid) { r in s.rs && !s.rs[r].pc.Finished? }

  predicate CloseUnderWay(s: State) { !s.closing.NotCalled? && !s.closing.Returned? }

  /** Close, or a restart goroutine that is under way, can take the step `l`. */
  ghost predicate CanGoOn(s: State, l: Step) {
    Enabled(s, l) && ((IsCloseStep(l) && CloseUnderWay(s)) || exists r :: IsUnderWay(s, r) && IsStepOf(l, r))
  }

  lemma RestarterGoesOn(s: State, r: Rid) returns (l: Step)
    requires NameInv(s) && IsUnderWay(s, r)
    requires s.mu.Free? || InCritical(s.rs[r].pc)
    ensures CanGoOn(s, l)
  {
    l := match s.rs[r].pc
      case Waiting(k) => if k < ATTEMPTS then StartFailed(r) else AcquireToMark(r)
      case Started(_) => Acquire(r)
      case Locked(_) => CheckClosed(r)
      case Passed(_) => CopyMap(r)
      case Copied(_, _) => StoreMap(r)
      case Marking => MarkFailed(r)
      case _ => KillHeld(r);
    assert IsStepOf(l, r);
  }

  lemma CloseGoesOn(s: State) returns (l: Step)
    requires NameInv(s) && CloseUnderWay(s) && (s.mu.Free? || !s.closing.FlagSet?)
    ensures CanGoOn(s, l)
  {
    match s.closing
    case DoneClosed => l := CloseFlag;
    case FlagSet => l := CloseAcquire;
    case CloseLocked => l := CloseEmpty;
    case Killing(left) =>
      if i :| i in left {
        assert IsClosing(s, i);
        l := CloseKill(i);
      } else {
        l := CloseReturn;
      }
  }

  /** No deadlock: as long as Close or a restart goroutine is under way, one of them can go on. */
  lemma NeverStuck(s0: State, ls: seq<Step>, s: State) returns (l: Step)
    requires IsInit(s0) && Exec(s0, ls) == Some(s) && (CloseUnderWay(s) || exists r :: IsUnderWay(s, r))
    ensures CanGoOn(s, l)
  {
    SafeRun(s0, ls, s);
    if s.mu.HeldBy? {
      l := RestarterGoesOn(s, s.mu.r);
    } else if CloseUnderWay(s) {
      l := CloseGoesOn(s);
    } else {
      var r :| IsUnderWay(s, r);
      l := RestarterGoesOn(s, r);
    }
  }

  function StepsOf(ls: seq<Step>, r: Rid): nat
    decreases |ls|
  {
    if ls == [] then 0 else StepsOf(ls[..|ls| - 1], r) + if IsStepOf(ls[|ls| - 1], r) then 1 else 0
  }

  /** The most steps a restart goroutine has left. */
  function Left(pc: Pc): nat {
    match pc
    case Waiting(k) => if k < ATTEMPTS then 10 - k else 2
    case Started(_) => 5
    case Locked(_) => 4
    case Passed(_) => 3
    case Copied(_, _) => 2
    case KillNew(_) => 1
    case KillOld(_) => 1
    case Marking => 1
    case Finished => 0
  }

  function Budget(s: State, r: Rid): nat { if r in s.rs then Left(s.rs[r].pc) else 10 }

  lemma OthersStepLeaves(s: State, l: Step, r: Rid)
    requires Enabled(s, l) && !IsStepOf(l, r)
    ensures Budget(Next(s, l), r) <= Budget(s, r)
  {
  }

  lemma OwnStepLeaves(s: State, l: Step, r: Rid)
    requires Enabled(s, l) && IsStepOf(l, r)
    ensures Budget(Next(s, l), r) + 1 <= Budget(s, r)
  {
  }

  /** A restart goroutine takes at most ten steps. */
  lemma {:induction false} RestartsAreBounded(s0: State, ls: seq<Step>, s: State, r: Rid)
    requires IsInit(s0) && Exec(s0, ls) == Some(s)
    ensures StepsOf(ls, r) + Budget(s, r) <= 10
    decreases |ls|
  {
    if ls != [] {
      var m, l := Exec(s0, ls[..|ls| - 1]).value, ls[|ls| - 1];
      RestartsAreBounded(s0, ls[..|ls| - 1], m, r);
      if IsStepOf(l, r) {
        OwnStepLeaves(m, l, r);
      } else {
        OthersStepLeaves(m, l, r);
      }
    }
  }

  function CloseSteps(ls: seq<Step>): nat
    decreases |ls|
  {
    if ls == [] then 0 else CloseSteps(ls[..|ls| - 1]) + if IsCloseStep(ls[|ls| - 1]) then 1 else 0
  }

  /** The most steps Close has left with n plugins configured. */
  function LeftToClose(closing: Closing, n: nat): nat {
    match closing
    case NotCalled => 5 + n
    case DoneClosed => 4 + n
    case FlagSet => 3 + n
    case CloseLocked => 2 + n
    case Killing(left) => 1 + |left|
    case Returned => 0
  }

  lemma {:induction false} FewerValues(m: map<Name, Inst>)
    ensures |m.Values| <= |m.Keys|
    decreases |m|
  {
    if name :| name in m {
      var rest := m - {name};
      FewerValues(rest);
      assert m.Keys == rest.Keys + {name};
      forall i | i in m.Values ensures i in rest.Values + {m[name]} {
        var k :| k in m && m[k] == i;
        assert k != name ==> k in rest && rest[k] == i;
      }
      SmallerSet(m.Values, rest.Values + {m[name]});
    } else {
      assert m.Values == {};
    }
  }

  lemma SmallerSet(a: set<Inst>, b: set<Inst>)
    requires a <= b
    ensures |a| <= |b|
  {
    assert b == a + (b - a);
  }

  lemma NamesStep(s: State, l: Step)
    requires LockInv(s) && LoopInv(s) && Enabled(s, l) && !Emptied(Next(s, l))
    ensures !Emptied(s) && Next(s, l).published.Keys == s.published.Keys
  {
  }

  /** Until Close empties the map it holds exactly the configured plugins. */
  lemma {:induction false} ConfiguredStayPublished(s0: State, ls: seq<Step>, s: State)
    requires IsInit(s0) && Exec(s0, ls) == Some(s) && !Emptied(s)
    ensures s.published.Keys == s0.published.Keys
    decreases |ls|
  {
    if ls != [] {
      var m, l := Exec(s0, ls[..|ls| - 1]).value, ls[|ls| - 1];
      SafeRun(s0, ls[..|ls| - 1], m);
      LoopRun(s0, ls[..|ls| - 1], m);
      NamesStep(m, l);
      ConfiguredStayPublished(s0, ls[..|ls| - 1], m);
    }
  }

  lemma CloseStepLeaves(s: State, l: Step, n: nat)
    requires Enabled(s, l) && |s.published.Values| <= n
    ensures LeftToClose(Next(s, l).closing, n) + (if IsCloseStep(l) then 1 else 0) <= LeftToClose(s.closing, n)
  {
    if l.CloseKill? {
      KillLeaves(s, l, n);
    } else if !IsCloseStep(l) {
      OthersKeepClosing(s, l);
    }
  }

  lemma OthersKeepClosing(s: State, l: Step)
    requires Enabled(s, l) && !IsCloseStep(l)
    ensures Next(s, l).closing == s.closing
  {
  }

  lemma KillLeaves(s: State, l: Step, n: nat)
    requires Enabled(s, l) && l.CloseKill?
    ensures LeftToClose(Next(s, l).closing, n) + 1 <= LeftToClose(s.closing, n)
  {
    assert s.closing.left == (s.closing.left - {l.i}) + {l.i};
  }

  /** Close takes at most five steps and one for each configured plugin. */
  lemma {:induction false} CloseIsBounded(s0: State, ls: seq<Step>, s: State)
    requires IsInit(s0) && Exec(s0, ls) == Some(s)
    ensures CloseSteps(ls) + LeftToClose(s.closing, |s0.published|) <= 5 + |s0.published|
    decreases |ls|
  {
    if ls != [] {
      var m, l := Exec(s0, ls[..|ls| - 1]).value, ls[|ls| - 1];
      CloseIsBounded(s0, ls[..|ls| - 1], m);
      if Emptied(m) {
        NothingPublishedAfterClose(s0, ls[..|ls| - 1], m);
      } else {
        ConfiguredStayPublished(s0, ls[..|ls| - 1], m);
      }
      FewerValues(m.published);
      CloseStepLeaves(m, l, |s0.published|);
    }
  }

  /** So once Close has been called and neither it nor a restart goroutine can go on, which is so
      after finitely many steps of each, every process ever started has been killed. */
  lemma StoppedMeansKilled(s0: State, ls: seq<Step>, s: State, i: Inst)
    requires IsInit(s0) && Exec(s0, ls) == Some(s) && i in s.insts
    requires !s.closing.NotCalled? && forall l :: !CanGoOn(s, l)
    ensures s.insts[i].killed
  {
    if CloseUnderWay(s) || exists r :: IsUnderWay(s, r) {
      var l := NeverStuck(s0, ls, s);
      assert false;
    }
    assert forall r :: r in s.rs ==> !IsUnderWay(s, r);
    AllProcessesKilledInTheEnd(s0, ls, s, i);
  }

  // ---------------------------------------------------------------- when a plugin is given up

  /** How often restart goroutine r failed to start a process. */
  function FailedStarts(ls: seq<Step>, r: Rid): nat
    decreases |ls|
  {
    if ls == [] then 0
    else FailedStarts(ls[..|ls| - 1], r) + if ls[|ls| - 1] == StartFailed(r) then 1 else 0
  }

  ghost predicate GivenUp(ls: seq<Step>, s: State, i: Inst) {
    exists r :: r in s.rs && s.rs[r].cause == i && FailedStarts(ls, r) == 5
  }

  /** What goroutine r's position says about its failed starts. */
  ghost predicate Counted(ls: seq<Step>, s: State, r: Rid) {
    && (r !in s.rs ==> FailedStarts(ls, r) == 0)
    && (r in s.rs && s.rs[r].pc.Waiting? ==>
         s.rs[r].pc.attempt <= ATTEMPTS && FailedStarts(ls, r) == s.rs[r].pc.attempt)
    && (r in s.rs && s.rs[r].pc.Marking? ==> FailedStarts(ls, r) == ATTEMPTS)
  }

  lemma CountedStep(ls: seq<Step>, s: State, l: Step, r: Rid)
    requires Counted(ls, s, r) && Enabled(s, l)
    ensures Counted(ls + [l], Next(s, l), r)
  {
    assert (ls + [l])[..|ls|] == ls;
  }

  lemma {:induction false} CountedRun(s0: State, ls: seq<Step>, s: State, r: Rid)
    requires IsInit(s0) && Exec(s0, ls) == Some(s)
    ensures Counted(ls, s, r)
    decreases |ls|
  {
    if ls != [] {
      var p, l := ls[..|ls| - 1], ls[|ls| - 1];
      CountedRun(s0, p, Exec(s0, p).value, r);
      CountedStep(p, Exec(s0, p).value, l, r);
      assert p + [l] == ls;
    }
  }

  /** A goroutine that had exhausted its attempts still has. */
  lemma GivenUpStays(ls: seq<Step>, s: State, l: Step, i: Inst)
    requires GivenUp(ls, s, i) && Enabled(s, l) && forall r :: Counted(ls, s, r)
    ensures GivenUp(ls + [l], Next(s, l), i)
  {
    var r :| r in s.rs && s.rs[r].cause == i && FailedStarts(ls, r) == ATTEMPTS;
    assert (ls + [l])[..|ls|] == ls;
    assert Counted(ls, s, r);
    var s' := Next(s, l);
    assert r in s'.rs && s'.rs[r].cause == i && FailedStarts(ls + [l], r) == ATTEMPTS;
  }

  lemma MarkMeansGivenUp(ls: seq<Step>, s: State, l: Step, i: Inst)
    requires CauseInv(s) && LoopInv(s) && LockInv(s) && Enabled(s, l) && l.MarkFailed? && Counted(ls, s, l.r)
    requires i in s.insts && !s.insts[i].failed && Next(s, l).insts[i].failed
    ensures GivenUp(ls + [l], Next(s, l), i)
  {
    assert (ls + [l])[..|ls|] == ls;
    var s' := Next(s, l);
    assert l.r in s'.rs && s'.rs[l.r].cause == i && FailedStarts(ls + [l], l.r) == ATTEMPTS;
  }

  lemma OnlyMarkFails(s: State, l: Step, i: Inst)
    requires Enabled(s, l) && i in Next(s, l).insts && Next(s, l).insts[i].failed
    ensures i in s.insts && (s.insts[i].failed || l.MarkFailed?)
  {
  }

  /** An instance is marked permanently failed only after the goroutine its crash spawned has
      failed all five of its starts. */
  lemma {:induction false} FailedOnlyAfterAllAttempts(s0: State, ls: seq<Step>, s: State, i: Inst)
    requires IsInit(s0) && Exec(s0, ls) == Some(s) && i in s.insts
    ensures s.insts[i].failed ==> GivenUp(ls, s, i)
    decreases |ls|
  {
    if ls == [] {
      var name :| name in s.published && s.published[name] == i;
    } else if s.insts[i].failed {
      var p, l := ls[..|ls| - 1], ls[|ls| - 1];
      var m := Exec(s0, p).value;
      assert p + [l] == ls;
      OnlyMarkFails(m, l, i);
      forall r ensures Counted(p, m, r) {
        CountedRun(s0, p, m, r);
      }
      if m.insts[i].failed {
        FailedOnlyAfterAllAttempts(s0, p, m, i);
        GivenUpStays(p, m, l, i);
      } else {
        SafeRun(s0, p, m);
        LoopRun(s0, p, m);
        MarkMeansGivenUp(p, m, l, i);
      }
    }
  }
}
