/**
  Crash restart racing with Close in the plugin manager, as atomic steps.

  Callers hold snapshots of the plugin map of any age.  One that saw its instance's
  process exited tries to set the instance's restarting flag; whoever sets it spawns
  the restart goroutine.  Close runs once.
 */
module PluginManager {
  import opened Wrappers

  /** Plugin names, that is role names; only their equality matters. */
  type Name = nat
  type Inst = nat
  type Rid = nat

  /** The restart delays: five attempts. */
  const ATTEMPTS := 5

  datatype Instance = Instance(name: Name, restarting: bool, failed: bool, exited: bool, killed: bool)

  /** Where a restart goroutine is. */
  datatype Pc =
    | Waiting(attempt: nat)                 // in the backoff loop; ATTEMPTS: fallen out of it
    | Started(n: Inst)                      // holds a fresh process, wants writeMu
    | Locked(n: Inst)                       // holds writeMu, before the closed check
    | Passed(n: Inst)                       // saw closed unset
    | Copied(n: Inst, snap: map<Name, Inst>)  // swapPlugin: map copied, not yet stored
    | KillNew(n: Inst)                      // released writeMu, must kill its own process
    | KillOld(o: Inst)                      // released writeMu, must kill the replaced process
    | Marking                               // holds writeMu after exhausting all attempts
    | Finished

  /** `cause` is the instance whose crash spawned this goroutine. */
  datatype Restarter = Restarter(name: Name, cause: Inst, pc: Pc)

  datatype Mutex = Free | HeldBy(r: Rid) | HeldByClose

  datatype Closing = NotCalled | DoneClosed | FlagSet | CloseLocked | Killing(left: set<Inst>) | Returned

  datatype State = State(
    insts: map<Inst, Instance>,
    published: map<Name, Inst>,
    seen: set<Inst>,              // every instance that was ever published
    observers: multiset<Inst>,    // callers that saw this instance exited and not failed
    rs: map<Rid, Restarter>,
    mu: Mutex,
    closing: Closing)

  datatype Step =
    | Crash(i: Inst)
    | Observe(i: Inst)
    | CompareAndSwap(i: Inst, r: Rid)
    | Cancelled(r: Rid)
    | StartOk(r: Rid, n: Inst)
    | StartFailed(r: Rid)
    | Acquire(r: Rid)
    | CheckClosed(r: Rid)
    | CopyMap(r: Rid)
    | StoreMap(r: Rid)
    | KillHeld(r: Rid)
    | AcquireToMark(r: Rid)
    | MarkFailed(r: Rid)
    | CloseDone
    | CloseFlag
    | CloseAcquire
    | CloseEmpty
    | CloseKill(i: Inst)
    | CloseReturn

  /** The atomic closed flag. */
  predicate IsClosed(s: State) { !s.closing.NotCalled? && !s.closing.DoneClosed? }

  /** Close has replaced the map by an empty one. */
  predicate Emptied(s: State) { s.closing.Killing? || s.closing.Returned? }

  predicate At(s: State, r: Rid) { r in s.rs }

  predicate Enabled(s: State, l: Step) {
    match l
    case Crash(i) => i in s.insts
    case Observe(i) => i in s.seen && i in s.insts && s.insts[i].exited && !s.insts[i].failed
    case CompareAndSwap(i, r) => i in s.observers && i in s.insts && r !in s.rs
    case Cancelled(r) => At(s, r) && s.rs[r].pc.Waiting? && s.rs[r].pc.attempt < ATTEMPTS && !s.closing.NotCalled?
    case StartOk(r, n) => At(s, r) && s.rs[r].pc.Waiting? && s.rs[r].pc.attempt < ATTEMPTS && n !in s.insts
    case StartFailed(r) => At(s, r) && s.rs[r].pc.Waiting? && s.rs[r].pc.attempt < ATTEMPTS
    case Acquire(r) => At(s, r) && s.rs[r].pc.Started? && s.mu.Free?
    case CheckClosed(r) => At(s, r) && s.rs[r].pc.Locked?
    case CopyMap(r) => At(s, r) && s.rs[r].pc.Passed?
    case StoreMap(r) => At(s, r) && s.rs[r].pc.Copied?
    case KillHeld(r) =>
      At(s, r) && ((s.rs[r].pc.KillNew? && s.rs[r].pc.n in s.insts) || (s.rs[r].pc.KillOld? && s.rs[r].pc.o in s.insts))
    case AcquireToMark(r) => At(s, r) && s.rs[r].pc.Waiting? && s.rs[r].pc.attempt >= ATTEMPTS && s.mu.Free?
    case MarkFailed(r) => At(s, r) && s.rs[r].pc.Marking?
    case CloseDone => s.closing.NotCalled?
    case CloseFlag => s.closing.DoneClosed?
    case CloseAcquire => s.closing.FlagSet? && s.mu.Free?
    case CloseEmpty => s.closing.CloseLocked?
    case CloseKill(i) => s.closing.Killing? && i in s.closing.left && i in s.insts
    case CloseReturn => s.closing.Killing? && s.closing.left == {}
  }

  function Go(s: State, r: Rid, pc: Pc): State
    requires At(s, r)
  {
    s.(rs := s.rs[r := s.rs[r].(pc := pc)])
  }

  function Kill(s: State, i: Inst): State
    requires i in s.insts
  {
    s.(insts := s.insts[i := s.insts[i].(exited := true, killed := true)])
  }

  function Next(s: State, l: Step): State
    requires Enabled(s, l)
  {
    match l
    case Crash(i) => s.(insts := s.insts[i := s.insts[i].(exited := true)])
    case Observe(i) => s.(observers := s.observers + multiset{i})
    case CompareAndSwap(i, r) =>
      var s' := s.(observers := s.observers - multiset{i});
      if s.insts[i].restarting then s'
      else
        s'.(insts := s.insts[i := s.insts[i].(restarting := true)],
            rs := s.rs[r := Restarter(s.insts[i].name, i, Waiting(0))])
    case Cancelled(r) => Go(s, r, Finished)
    case StartOk(r, n) =>
      Go(s.(insts := s.insts[n := Instance(s.rs[r].name, false, false, false, false)]), r, Started(n))
    case StartFailed(r) => Go(s, r, Waiting(s.rs[r].pc.attempt + 1))
    case Acquire(r) => Go(s.(mu := HeldBy(r)), r, Locked(s.rs[r].pc.n))
    case CheckClosed(r) =>
      if IsClosed(s) then Go(s.(mu := Free), r, KillNew(s.rs[r].pc.n)) else Go(s, r, Passed(s.rs[r].pc.n))
    case CopyMap(r) => Go(s, r, Copied(s.rs[r].pc.n, s.published))
    case StoreMap(r) =>
      var name, n, snap := s.rs[r].name, s.rs[r].pc.n, s.rs[r].pc.snap;
      Go(s.(published := snap[name := n], seen := s.seen + {n}, mu := Free), r,
         if name in snap then KillOld(snap[name]) else Finished)
    case KillHeld(r) =>
      Go(Kill(s, if s.rs[r].pc.KillNew? then s.rs[r].pc.n else s.rs[r].pc.o), r, Finished)
    case AcquireToMark(r) => Go(s.(mu := HeldBy(r)), r, Marking)
    case MarkFailed(r) =>
      var name := s.rs[r].name;
      var s' := Go(s.(mu := Free), r, Finished);
      if name in s.published && s.published[name] in s.insts
      then s'.(insts := s.insts[s.published[name] := s.insts[s.published[name]].(failed := true)]) else s'
    case CloseDone => s.(closing := DoneClosed)
    case CloseFlag => s.(closing := FlagSet)
    case CloseAcquire => s.(closing := CloseLocked, mu := HeldByClose)
    case CloseEmpty => s.(closing := Killing(s.published.Values), published := map[])
    case CloseKill(i) => Kill(s, i).(closing := Killing(s.closing.left - {i}))
    case CloseReturn => s.(closing := Returned, mu := Free)
  }

  /** NewManager started one process per configured plugin and published them all. */
  ghost predicate IsInit(s: State) {
    && s.seen == s.published.Values == s.insts.Keys
    && (forall name :: name in s.published ==>
         s.published[name] in s.insts && s.insts[s.published[name]] == Instance(name, false, false, false, false))
    && s.observers == multiset{} && s.rs == map[] && s.mu == Free && s.closing == NotCalled
  }

  function Exec(s: State, ls: seq<Step>): Option<State>
    decreases |ls|
  {
    if ls == [] then Some(s)
    else
      match Exec(s, ls[..|ls| - 1])
      case None => None
      case Some(m) => if Enabled(m, ls[|ls| - 1]) then Some(Next(m, ls[|ls| - 1])) else None
  }
}
