/**
  The audit log pipeline: a bounded entry queue with a counting semaphore of the
  same capacity, many producers, one flusher and a Close, as atomic steps.

  A request is a thread `t`, used once.  In fail-open mode it publishes; in
  fail-closed mode it reserves, goes upstream and commits.  A run is a list of
  steps; `Exec` says which lists can happen and where they end.
 */
module AuditLog {
  import opened Wrappers

  datatype Entry = Entry(requestID: string, verb: string, path: string, statusCode: int)

  type Tid = nat

  /** `blocking` is enqueueTimeout > 0; `cap` is the capacity of both the queue and the semaphore. */
  datatype Config = Config(cap: nat, blocking: bool)

  /** Where the flusher goroutine is: in its select, inside writeEntry, before the
      permit release, in the drain loop after the stop signal, or gone. */
  datatype Flusher =
    | Selecting
    | Writing(e: Entry, draining: bool)
    | Releasing(draining: bool)
    | Draining
    | Exited

  /** How far Close has come: not called, closed flag set, stop channel closed, returned. */
  datatype Closer = Running | Flagged | Stopped | Returned

  datatype State = State(
    queue: seq<Entry>,
    permits: nat,
    publishers: set<(Tid, Entry)>, // past the closed check, read lock held, not yet sent
    reservers: set<Tid>,          // past the closed check, read lock held, no permit yet
    reserved: set<Tid>,           // permit held, upstream not yet called
    served: set<Tid>,             // permit held, upstream called, commit pending
    used: set<Tid>,               // every request that ever started
    flusher: Flusher,
    reopenPending: bool,
    files: seq<seq<Entry>>,       // what each file's encoder was handed, in rotation order
    closer: Closer,
    dropped: nat,                 // AuditDroppedTotal
    writeErrors: nat)             // AuditWriteErrorsTotal

  datatype Step =
    | PublishEnter(t: Tid, e: Entry)
    | PublishRefused(t: Tid, e: Entry)
    | PublishSend(t: Tid, e: Entry)
    | PublishDrop(t: Tid, e: Entry)
    | ReserveEnter(t: Tid)
    | ReserveRefused(t: Tid)
    | ReserveAcquire(t: Tid)
    | ReserveReject(t: Tid)
    | Upstream(t: Tid)
    | Commit(t: Tid, e: Entry)
    | Receive
    | Write(ok: bool)
    | Release
    | ReopenSignal
    | Reopen(ok: bool)
    | StopSeen
    | DrainReceive
    | DrainExit
    | CloseFlag
    | CloseStop
    | CloseReturn

  const Init := State([], 0, {}, {}, {}, {}, {}, Selecting, false, [[]], Running, 0, 0)

  /** Whether a step can be taken.  A send on a full queue and an acquire on a full
      semaphore are blocked.  In non-blocking mode a drop or a rejection needs the
      queue or the semaphore full; in blocking mode the timer may win at any time. */
  predicate Enabled(c: Config, s: State, l: Step) {
    match l
    case PublishEnter(t, _) => t !in s.used && s.closer.Running?
    case PublishRefused(t, _) => t !in s.used && !s.closer.Running?
    case PublishSend(t, e) => (t, e) in s.publishers && |s.queue| < c.cap
    case PublishDrop(t, e) => (t, e) in s.publishers && (c.blocking || |s.queue| >= c.cap)
    case ReserveEnter(t) => t !in s.used && s.closer.Running?
    case ReserveRefused(t) => t !in s.used && !s.closer.Running?
    case ReserveAcquire(t) => t in s.reservers && s.permits < c.cap
    case ReserveReject(t) => t in s.reservers && (c.blocking || s.permits >= c.cap)
    case Upstream(t) => t in s.reserved
    case Commit(t, _) => t in s.served && |s.queue| < c.cap
    case Receive => s.flusher.Selecting? && s.queue != []
    case Write(_) => s.flusher.Writing? && s.files != []
    case Release => s.flusher.Releasing?
    case ReopenSignal => true
    case Reopen(_) => s.flusher.Selecting? && s.reopenPending
    case StopSeen => s.flusher.Selecting? && (s.closer.Stopped? || s.closer.Returned?)
    case DrainReceive => s.flusher.Draining? && s.queue != []
    case DrainExit => s.flusher.Draining? && s.queue == []
    case CloseFlag => s.closer.Running? && s.publishers == {} && s.reservers == {}
    case CloseStop => s.closer.Flagged?
    case CloseReturn => s.closer.Stopped? && s.flusher.Exited?
  }

  function Next(c: Config, s: State, l: Step): State
    requires Enabled(c, s, l)
  {
    match l
    case PublishEnter(t, e) => s.(used := s.used + {t}, publishers := s.publishers + {(t, e)})
    case PublishRefused(t, _) =>
      s.(used := s.used + {t}, dropped := s.dropped + 1, writeErrors := s.writeErrors + 1)
    case PublishSend(t, e) => s.(publishers := s.publishers - {(t, e)}, queue := s.queue + [e])
    case PublishDrop(t, e) =>
      s.(publishers := s.publishers - {(t, e)}, dropped := s.dropped + 1, writeErrors := s.writeErrors + 1)
    case ReserveEnter(t) => s.(used := s.used + {t}, reservers := s.reservers + {t})
    // A failed Reserve is counted once by the logger and once more by the middleware.
    case ReserveRefused(t) => s.(used := s.used + {t}, dropped := s.dropped + 2)
    case ReserveAcquire(t) =>
      s.(reservers := s.reservers - {t}, permits := s.permits + 1, reserved := s.reserved + {t})
    case ReserveReject(t) => s.(reservers := s.reservers - {t}, dropped := s.dropped + 2)
    case Upstream(t) => s.(reserved := s.reserved - {t}, served := s.served + {t})
    case Commit(t, e) => s.(served := s.served - {t}, queue := s.queue + [e])
    case Receive => s.(queue := s.queue[1..], flusher := Writing(s.queue[0], false))
    case Write(ok) =>
      s.(flusher := Releasing(s.flusher.draining),
         files := s.files[|s.files| - 1 := s.files[|s.files| - 1] + [s.flusher.e]],
         writeErrors := if ok then s.writeErrors else s.writeErrors + 1)
    case Release =>
      s.(flusher := if s.flusher.draining then Draining else Selecting,
         permits := if s.permits > 0 then s.permits - 1 else 0)
    case ReopenSignal => s.(reopenPending := true)
    case Reopen(ok) => s.(reopenPending := false, files := if ok then s.files + [[]] else s.files)
    case StopSeen => s.(flusher := Draining)
    case DrainReceive => s.(queue := s.queue[1..], flusher := Writing(s.queue[0], true))
    case DrainExit => s.(flusher := Exited)
    case CloseFlag => s.(closer := Flagged)
    case CloseStop => s.(closer := Stopped)
    case CloseReturn => s.(closer := Returned)
  }

  /** The state after the steps `ls` from `s`, or None if some step was not enabled. */
  function Exec(c: Config, s: State, ls: seq<Step>): Option<State>
    decreases |ls|
  {
    if ls == [] then Some(s)
    else
      match Exec(c, s, ls[..|ls| - 1])
      case None => None
      case Some(m) =>
        var l := ls[|ls| - 1];
        if Enabled(c, m, l) then Some(Next(c, m, l)) else None
  }

  lemma {:induction false} ExecAppend(c: Config, s: State, a: seq<Step>, b: seq<Step>)
    ensures Exec(c, s, a + b) == match Exec(c, s, a) case None => None case Some(m) => Exec(c, m, b)
    decreases |b|
  {
    if b == [] {
      assert a + b == a;
    } else {
      var b' := b[..|b| - 1];
      assert (a + b)[..|a + b| - 1] == a + b';
      ExecAppend(c, s, a, b');
    }
  }

  /** One more step at the end of a run. */
  lemma ExecSnoc(c: Config, s: State, a: seq<Step>, l: Step)
    ensures Exec(c, s, a + [l]) == match Exec(c, s, a)
      case None => None
      case Some(m) => if Enabled(c, m, l) then Some(Next(c, m, l)) else None
  {
    assert (a + [l])[..|a + [l]| - 1] == a;
  }

  // ---------------------------------------------------------------- what a run's steps say

  /** The values `f` picks from the steps of a run, in order. */
  function Picked<T>(ls: seq<Step>, f: Step -> Option<T>): seq<T>
    decreases |ls|
  {
    if ls == [] then []
    else Picked(ls[..|ls| - 1], f) + (match f(ls[|ls| - 1]) case Some(v) => [v] case None => [])
  }

  lemma PickedSnoc<T>(ls: seq<Step>, l: Step, f: Step -> Option<T>)
    ensures Picked(ls + [l], f) == Picked(ls, f) + (match f(l) case Some(v) => [v] case None => [])
  {
    assert (ls + [l])[..|ls + [l]| - 1] == ls;
  }

  /** Entries accepted into the queue, by whom: a Publish that returned nil, or a commit. */
  function Accepting(l: Step): Option<(Tid, Entry)> {
    match l case PublishSend(t, e) => Some((t, e)) case Commit(t, e) => Some((t, e)) case _ => None
  }

  /** Publish calls. */
  function Publishing(l: Step): Option<(Tid, Entry)> {
    match l case PublishEnter(t, e) => Some((t, e)) case PublishRefused(t, e) => Some((t, e)) case _ => None
  }

  /** Publish calls that returned an error. */
  function Dropping(l: Step): Option<(Tid, Entry)> {
    match l case PublishDrop(t, e) => Some((t, e)) case PublishRefused(t, e) => Some((t, e)) case _ => None
  }

  /** Requests sent upstream under a reservation. */
  function Forwarding(l: Step): Option<Tid> {
    if l.Upstream? then Some(l.t) else None
  }

  /** Requests turned away with 503. */
  function Rejecting(l: Step): Option<Tid> {
    match l case ReserveRefused(t) => Some(t) case ReserveReject(t) => Some(t) case _ => None
  }

  function Entries(ps: seq<(Tid, Entry)>): seq<Entry> { seq(|ps|, i requires 0 <= i < |ps| => ps[i].1) }

  function Callers(ps: seq<(Tid, Entry)>): seq<Tid> { seq(|ps|, i requires 0 <= i < |ps| => ps[i].0) }

  /** The accepted entries in acceptance order. */
  function Accepted(ls: seq<Step>): seq<Entry> { Entries(Picked(ls, Accepting)) }

  predicate IsPublishStep(l: Step) {
    l.PublishEnter? || l.PublishRefused? || l.PublishSend? || l.PublishDrop?
  }

  predicate IsReserveStep(l: Step) {
    l.ReserveEnter? || l.ReserveRefused? || l.ReserveAcquire? || l.ReserveReject? || l.Upstream? || l.Commit?
  }

  /** The middleware only ever reserves, or only ever publishes, in one process. */
  predicate FailClosed(ls: seq<Step>) { forall i :: 0 <= i < |ls| ==> !IsPublishStep(ls[i]) }
  predicate FailOpen(ls: seq<Step>) { forall i :: 0 <= i < |ls| ==> !IsReserveStep(ls[i]) }

  function Flatten(fs: seq<seq<Entry>>): seq<Entry> {
    if fs == [] then [] else Flatten(fs[..|fs| - 1]) + fs[|fs| - 1]
  }

  function InFlight(f: Flusher): seq<Entry> { if f.Writing? then [f.e] else [] }

  function Busy(f: Flusher): nat { if f.Writing? || f.Releasing? then 1 else 0 }

  function Outstanding(s: State): set<Tid> { s.reserved + s.served }
}
