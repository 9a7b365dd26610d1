/** Theorems over every run of the audit log pipeline. */
module AuditLogTheorems {
  import opened Wrappers
  import opened AuditLog

  // ---------------------------------------------------------------- permit accounting

  ghost predicate PermitInv(c: Config, s: State) {
    && s.publishers == {}
    && s.reserved !! s.served
    && s.reservers <= s.used && s.reserved <= s.used && s.served <= s.used
    && s.reservers !! s.reserved && s.reservers !! s.served
    && s.permits == |s.reserved| + |s.served| + |s.queue| + Busy(s.flusher)
    && s.permits <= c.cap
  }

  lemma PermitReserve(c: Config, s: State, l: Step)
    requires PermitInv(c, s) && Enabled(c, s, l) && IsReserveStep(l)
    ensures PermitInv(c, Next(c, s, l))
  {
  }

  lemma PermitOther(c: Config, s: State, l: Step)
    requires PermitInv(c, s) && Enabled(c, s, l) && !IsPublishStep(l) && !IsReserveStep(l)
    ensures PermitInv(c, Next(c, s, l))
  {
  }

  lemma PermitStep(c: Config, s: State, l: Step)
    requires PermitInv(c, s) && Enabled(c, s, l) && !IsPublishStep(l)
    ensures PermitInv(c, Next(c, s, l))
  {
    if IsReserveStep(l) {
      PermitReserve(c, s, l);
    } else {
      PermitOther(c, s, l);
    }
  }

  lemma {:induction false} PermitRun(c: Config, ls: seq<Step>)
    requires FailClosed(ls) && Exec(c, Init, ls).Some?
    ensures PermitInv(c, Exec(c, Init, ls).value)
    decreases |ls|
  {
    if ls != [] {
      var p := ls[..|ls| - 1];
      PermitRun(c, p);
      PermitStep(c, Exec(c, Init, p).value, ls[|ls| - 1]);
    }
  }

  /** In every fail-closed run the permits held are exactly the outstanding
      reservations, the queued entries and the entry being written. */
  lemma PermitAccounting(c: Config, ls: seq<Step>, s: State)
    requires FailClosed(ls) && Exec(c, Init, ls) == Some(s)
    ensures s.permits == |Outstanding(s)| + |s.queue| + Busy(s.flusher) <= c.cap
  {
    PermitRun(c, ls);
  }

  /** A request that went upstream can always commit at once: before, during and after Close. */
  lemma CommitNeverBlocks(c: Config, ls: seq<Step>, s: State, t: Tid, e: Entry)
    requires FailClosed(ls) && Exec(c, Init, ls) == Some(s) && t in s.served
    ensures Enabled(c, s, Commit(t, e))
  {
    PermitRun(c, ls);
    assert s.served == {t} + (s.served - {t});
  }

  /** The receive on the semaphore after a write never takes its default branch. */
  lemma ReleaseFindsPermit(c: Config, ls: seq<Step>, s: State)
    requires FailClosed(ls) && Exec(c, Init, ls) == Some(s) && Enabled(c, s, Release)
    ensures s.permits > 0 && Next(c, s, Release).permits == s.permits - 1
  {
    PermitRun(c, ls);
  }

  lemma Extend(c: Config, ls: seq<Step>, s: State, l: Step) returns (ls': seq<Step>, s': State)
    requires Exec(c, Init, ls) == Some(s) && Enabled(c, s, l)
    ensures s' == Next(c, s, l) && Exec(c, Init, ls') == Some(s')
  {
    ls', s' := ls + [l], Next(c, s, l);
    ExecSnoc(c, Init, ls, l);
  }

  /** A request holds a permit while a published entry waits in the queue. */
  lemma MixedModesStart(c: Config, e: Entry) returns (ls: seq<Step>, s: State)
    requires c == Config(1, false)
    ensures Exec(c, Init, ls) == Some(s)
    ensures s == Init.(used := {1, 2}, served := {1}, permits := 1, queue := [e])
  {
    ls, s := [], Init;
    ls, s := Extend(c, ls, s, ReserveEnter(1));
    ls, s := Extend(c, ls, s, ReserveAcquire(1));
    ls, s := Extend(c, ls, s, Upstream(1));
    ls, s := Extend(c, ls, s, PublishEnter(2, e));
    ls, s := Extend(c, ls, s, PublishSend(2, e));
  }

  /** Writing that entry gives the request's permit away. */
  lemma MixedModesRelease(c: Config, e: Entry) returns (ls: seq<Step>, s: State)
    requires c == Config(1, false)
    ensures Exec(c, Init, ls) == Some(s)
    ensures s.used == {1, 2} && s.served == {1} && s.permits == 0 && s.queue == []
    ensures s.reservers == s.reserved == {} && s.closer == Running
  {
    ls, s := MixedModesStart(c, e);
    ls, s := Extend(c, ls, s, Receive);
    ls, s := Extend(c, ls, s, Write(true));
    ls, s := Extend(c, ls, s, Release);
  }

  /** If publishing and reserving share a logger, the release after a published
      entry frees a permit someone else holds, and a commit can then block. */
  lemma MixedModesBlockCommit(e: Entry) returns (ls: seq<Step>, s: State)
    ensures Exec(Config(1, false), Init, ls) == Some(s)
    ensures 3 in s.served && !Enabled(Config(1, false), s, Commit(3, e))
  {
    var c := Config(1, false);
    ls, s := MixedModesRelease(c, e);
    ls, s := Extend(c, ls, s, ReserveEnter(3));
    ls, s := Extend(c, ls, s, ReserveAcquire(3));
    ls, s := Extend(c, ls, s, Upstream(3));
    ls, s := Extend(c, ls, s, Commit(1, e));
  }

  // ---------------------------------------------------------------- order and conservation

  ghost predicate OrderInv(ls: seq<Step>, s: State) {
    && s.files != []
    && Flatten(s.files) + InFlight(s.flusher) + s.queue == Accepted(ls)
  }

  lemma FlattenAppend(fs: seq<seq<Entry>>, e: Entry)
    requires fs != []
    ensures Flatten(fs[|fs| - 1 := fs[|fs| - 1] + [e]]) == Flatten(fs) + [e]
  {
    var gs := fs[|fs| - 1 := fs[|fs| - 1] + [e]];
    assert gs[..|gs| - 1] == fs[..|fs| - 1];
  }

  lemma FlattenRotate(fs: seq<seq<Entry>>)
    ensures Flatten(fs + [[]]) == Flatten(fs)
  {
    assert (fs + [[]])[..|fs|] == fs;
  }

  lemma AcceptedSnoc(ls: seq<Step>, l: Step)
    ensures Accepted(ls + [l]) == Accepted(ls) + (match Accepting(l) case Some(p) => [p.1] case None => [])
  {
    PickedSnoc(ls, l, Accepting);
  }

  lemma OrderFiles(c: Config, ls: seq<Step>, s: State, l: Step)
    requires OrderInv(ls, s) && Enabled(c, s, l) && (l.Write? || l.Reopen?)
    ensures OrderInv(ls + [l], Next(c, s, l))
  {
    AcceptedSnoc(ls, l);
    assert Accepted(ls) + [] == Accepted(ls);
    FilesStep(c, s, l);
  }

  /** Writing and reopening move nothing but the entry in flight. */
  lemma FilesStep(c: Config, s: State, l: Step)
    requires s.files != [] && Enabled(c, s, l) && (l.Write? || l.Reopen?)
    ensures var t := Next(c, s, l);
      t.files != [] && t.queue == s.queue && Flatten(t.files) + InFlight(t.flusher) == Flatten(s.files) + InFlight(s.flusher)
  {
    if l.Write? {
      FlattenAppend(s.files, s.flusher.e);
    } else {
      FlattenRotate(s.files);
    }
  }

  lemma SendKeepsOrder(written: seq<Entry>, flying: seq<Entry>, queue: seq<Entry>, e: Entry)
    ensures written + flying + (queue + [e]) == (written + flying + queue) + [e]
  {
  }

  lemma TakeKeepsOrder(written: seq<Entry>, queue: seq<Entry>)
    requires queue != []
    ensures written + [queue[0]] + queue[1..] == written + [] + queue
  {
  }

  lemma OrderSend(c: Config, ls: seq<Step>, s: State, l: Step)
    requires OrderInv(ls, s) && Enabled(c, s, l) && (l.PublishSend? || l.Commit?)
    ensures OrderInv(ls + [l], Next(c, s, l))
  {
    AcceptedSnoc(ls, l);
    SendKeepsOrder(Flatten(s.files), InFlight(s.flusher), s.queue, l.e);
  }

  lemma OrderTake(c: Config, ls: seq<Step>, s: State, l: Step)
    requires OrderInv(ls, s) && Enabled(c, s, l) && (l.Receive? || l.DrainReceive?)
    ensures OrderInv(ls + [l], Next(c, s, l))
  {
    AcceptedSnoc(ls, l);
    TakeKeepsOrder(Flatten(s.files), s.queue);
  }

  lemma OrderStep(c: Config, ls: seq<Step>, s: State, l: Step)
    requires OrderInv(ls, s) && Enabled(c, s, l)
    ensures OrderInv(ls + [l], Next(c, s, l))
  {
    if l.Write? || l.Reopen? {
      OrderFiles(c, ls, s, l);
    } else if l.PublishSend? || l.Commit? {
      OrderSend(c, ls, s, l);
    } else if l.Receive? || l.DrainReceive? {
      OrderTake(c, ls, s, l);
    } else {
      AcceptedSnoc(ls, l);
    }
  }

  /** In every run, in either mode and across successful and failed reopens: what the
      files' encoders were handed, then the entry in flight, then the queue, is what
      was accepted, in the order it was accepted. */
  lemma {:induction false} WrittenInAcceptanceOrder(c: Config, ls: seq<Step>, s: State)
    requires Exec(c, Init, ls) == Some(s)
    ensures Flatten(s.files) + InFlight(s.flusher) + s.queue == Accepted(ls)
    ensures s.files != []
    decreases |ls|
  {
    if ls != [] {
      var p, l := ls[..|ls| - 1], ls[|ls| - 1];
      assert p + [l] == ls;
      WrittenInAcceptanceOrder(c, p, Exec(c, Init, p).value);
      OrderStep(c, p, Exec(c, Init, p).value, l);
    }
  }

  // ---------------------------------------------------------------- what Close leaves behind

  predicate InDrain(f: Flusher) {
    f.Draining? || f.Exited? || ((f.Writing? || f.Releasing?) && f.draining)
  }

  /** The flusher drains only after Close closed the stop channel, and Close returns only after the flusher. */
  ghost predicate StopInv(s: State) {
    && (InDrain(s.flusher) ==> s.closer.Stopped? || s.closer.Returned?)
    && (s.closer.Returned? ==> s.flusher.Exited?)
    && (!s.closer.Running? ==> s.publishers == {} && s.reservers == {})
  }

  lemma StopStep(c: Config, s: State, l: Step)
    requires StopInv(s) && Enabled(c, s, l)
    ensures StopInv(Next(c, s, l))
  {
  }

  lemma {:induction false} StopRun(c: Config, ls: seq<Step>, s: State)
    requires Exec(c, Init, ls) == Some(s)
    ensures StopInv(s)
    decreases |ls|
  {
    if ls != [] {
      var m := Exec(c, Init, ls[..|ls| - 1]).value;
      StopRun(c, ls[..|ls| - 1], m);
      StopStep(c, m, ls[|ls| - 1]);
    }
  }

  /** What holds from Close's flag on if nobody then holds a reservation. */
  ghost predicate Quiet(s: State) {
    && StopInv(s)
    && !s.closer.Running?
    && Outstanding(s) == {}
    && (s.flusher.Exited? ==> s.queue == [])
  }

  lemma QuietStep(c: Config, s: State, l: Step)
    requires Quiet(s) && Enabled(c, s, l)
    ensures Quiet(Next(c, s, l))
  {
  }

  lemma {:induction false} QuietRun(c: Config, s: State, ls: seq<Step>, s': State)
    requires Quiet(s) && Exec(c, s, ls) == Some(s')
    ensures Quiet(s')
    decreases |ls|
  {
    if ls != [] {
      var m := Exec(c, s, ls[..|ls| - 1]).value;
      QuietRun(c, s, ls[..|ls| - 1], m);
      QuietStep(c, m, ls[|ls| - 1]);
    }
  }

  // Fail-open mode.

  /** Every Publish call is pending, accepted or dropped, and drops are counted. */
  ghost predicate PublishInv(ls: seq<Step>, s: State) {
    && (forall p :: p in s.publishers ==> p.0 in s.used)
    && s.dropped == |Picked(ls, Dropping)|
    && multiset(Picked(ls, Publishing)) ==
       multiset(Picked(ls, Accepting)) + multiset(Picked(ls, Dropping)) + multiset(s.publishers)
  }

  lemma PublishEntered(c: Config, ls: seq<Step>, s: State, t: Tid, e: Entry)
    requires PublishInv(ls, s) && Enabled(c, s, PublishEnter(t, e))
    ensures PublishInv(ls + [PublishEnter(t, e)], Next(c, s, PublishEnter(t, e)))
  {
    var l := PublishEnter(t, e);
    PickedSnoc(ls, l, Publishing);
    PickedSnoc(ls, l, Accepting);
    PickedSnoc(ls, l, Dropping);
    assert (t, e) !in s.publishers;
    assert multiset(s.publishers + {(t, e)}) == multiset(s.publishers) + multiset{(t, e)};
  }

  lemma PublishIsRefused(c: Config, ls: seq<Step>, s: State, t: Tid, e: Entry)
    requires PublishInv(ls, s) && Enabled(c, s, PublishRefused(t, e))
    ensures PublishInv(ls + [PublishRefused(t, e)], Next(c, s, PublishRefused(t, e)))
  {
    var l := PublishRefused(t, e);
    PickedSnoc(ls, l, Publishing);
    PickedSnoc(ls, l, Accepting);
    PickedSnoc(ls, l, Dropping);
  }

  lemma PublishSent(c: Config, ls: seq<Step>, s: State, t: Tid, e: Entry)
    requires PublishInv(ls, s) && Enabled(c, s, PublishSend(t, e))
    ensures PublishInv(ls + [PublishSend(t, e)], Next(c, s, PublishSend(t, e)))
  {
    var l := PublishSend(t, e);
    PickedSnoc(ls, l, Publishing);
    PickedSnoc(ls, l, Accepting);
    PickedSnoc(ls, l, Dropping);
  }

  lemma PublishDropped(c: Config, ls: seq<Step>, s: State, t: Tid, e: Entry)
    requires PublishInv(ls, s) && Enabled(c, s, PublishDrop(t, e))
    ensures PublishInv(ls + [PublishDrop(t, e)], Next(c, s, PublishDrop(t, e)))
  {
    var l := PublishDrop(t, e);
    PickedSnoc(ls, l, Publishing);
    PickedSnoc(ls, l, Accepting);
    PickedSnoc(ls, l, Dropping);
  }

  lemma PublishOther(c: Config, ls: seq<Step>, s: State, l: Step)
    requires PublishInv(ls, s) && Enabled(c, s, l) && !IsReserveStep(l) && !IsPublishStep(l)
    ensures PublishInv(ls + [l], Next(c, s, l))
  {
    PickedSnoc(ls, l, Publishing);
    PickedSnoc(ls, l, Accepting);
    PickedSnoc(ls, l, Dropping);
  }

  lemma PublishStep(c: Config, ls: seq<Step>, s: State, l: Step)
    requires PublishInv(ls, s) && Enabled(c, s, l) && !IsReserveStep(l)
    ensures PublishInv(ls + [l], Next(c, s, l))
  {
    if l.PublishEnter? {
      PublishEntered(c, ls, s, l.t, l.e);
    } else if l.PublishRefused? {
      PublishIsRefused(c, ls, s, l.t, l.e);
    } else if l.PublishSend? {
      PublishSent(c, ls, s, l.t, l.e);
    } else if l.PublishDrop? {
      PublishDropped(c, ls, s, l.t, l.e);
    } else {
      PublishOther(c, ls, s, l);
    }
  }

  lemma {:induction false} PublishRun(c: Config, ls: seq<Step>, s: State)
    requires FailOpen(ls) && Exec(c, Init, ls) == Some(s)
    ensures PublishInv(ls, s)
    decreases |ls|
  {
    if ls != [] {
      var p, l := ls[..|ls| - 1], ls[|ls| - 1];
      assert p + [l] == ls;
      PublishRun(c, p, Exec(c, Init, p).value);
      PublishStep(c, p, Exec(c, Init, p).value, l);
    }
  }

  /** Nobody reserves in fail-open mode, so Close always starts with nothing outstanding. */
  ghost predicate UnreservedInv(s: State) {
    && StopInv(s)
    && Outstanding(s) == {} && s.reservers == {}
    && (!s.closer.Running? ==> Quiet(s))
  }

  lemma UnreservedStep(c: Config, s: State, l: Step)
    requires UnreservedInv(s) && Enabled(c, s, l) && !IsReserveStep(l)
    ensures UnreservedInv(Next(c, s, l))
  {
    StopStep(c, s, l);
    if !s.closer.Running? {
      QuietStep(c, s, l);
    }
  }

  lemma {:induction false} UnreservedRun(c: Config, ls: seq<Step>, s: State)
    requires FailOpen(ls) && Exec(c, Init, ls) == Some(s)
    ensures UnreservedInv(s)
    decreases |ls|
  {
    if ls != [] {
      var m := Exec(c, Init, ls[..|ls| - 1]).value;
      UnreservedRun(c, ls[..|ls| - 1], m);
      UnreservedStep(c, m, ls[|ls| - 1]);
    }
  }

  lemma PublishesNew(c: Config, s: State, l: Step)
    requires Enabled(c, s, l)
    ensures s.used <= Next(c, s, l).used
    ensures Publishing(l).Some? ==> Publishing(l).value.0 !in s.used && Publishing(l).value.0 in Next(c, s, l).used
  {
  }

  /** Every request publishes at most once. */
  lemma {:induction false} PublishedOnce(c: Config, ls: seq<Step>, s: State, p: (Tid, Entry))
    requires Exec(c, Init, ls) == Some(s)
    ensures multiset(Picked(ls, Publishing))[p] <= 1
    ensures p in multiset(Picked(ls, Publishing)) ==> p.0 in s.used
    decreases |ls|
  {
    if ls != [] {
      var front, l := ls[..|ls| - 1], ls[|ls| - 1];
      assert front + [l] == ls;
      PublishedOnce(c, front, Exec(c, Init, front).value, p);
      PublishesNew(c, Exec(c, Init, front).value, l);
      PickedSnoc(front, l, Publishing);
    }
  }

  /** Fail-open: once Close has returned, every Publish call was either accepted, and
      then its entry has been handed to an encoder, or counted as dropped; never both. */
  lemma FailOpenLosesNothing(c: Config, ls: seq<Step>, s: State)
    requires FailOpen(ls) && Exec(c, Init, ls) == Some(s) && s.closer.Returned?
    ensures Flatten(s.files) == Accepted(ls)
    ensures multiset(Picked(ls, Publishing)) == multiset(Picked(ls, Accepting)) + multiset(Picked(ls, Dropping))
    ensures forall p :: multiset(Picked(ls, Publishing))[p] <= 1
    ensures s.dropped == |Picked(ls, Dropping)|
  {
    forall p ensures multiset(Picked(ls, Publishing))[p] <= 1 {
      PublishedOnce(c, ls, s, p);
    }
    PublishRun(c, ls, s);
    UnreservedRun(c, ls, s);
    AllWritten(c, ls, s);
    assert s.publishers == {};
  }

  lemma AllWritten(c: Config, ls: seq<Step>, s: State)
    requires Exec(c, Init, ls) == Some(s) && UnreservedInv(s) && s.closer.Returned?
    ensures Flatten(s.files) == Accepted(ls)
  {
    WrittenInAcceptanceOrder(c, ls, s);
    assert Flatten(s.files) + [] + [] == Flatten(s.files);
  }

  /** The steps that count as write errors besides drops, open a new file, serve and signal a reopen. */
  function FailedWrite(l: Step): Option<bool> { if l == Write(false) then Some(true) else None }
  function Opened(l: Step): Option<bool> { if l == Reopen(true) then Some(true) else None }
  function Served(l: Step): Option<bool> { if l.Reopen? then Some(true) else None }
  function Signalled(l: Step): Option<bool> { if l.ReopenSignal? then Some(true) else None }

  /** In every run: each dropped Publish call and each failed write is one write error; each reopen that
      succeeded opened one file; and no more reopens are served than were signalled. */
  lemma {:induction false} CountersTell(c: Config, ls: seq<Step>, s: State)
    requires Exec(c, Init, ls) == Some(s)
    ensures s.writeErrors == |Picked(ls, Dropping)| + |Picked(ls, FailedWrite)|
    ensures |s.files| == 1 + |Picked(ls, Opened)|
    ensures |Picked(ls, Served)| + (if s.reopenPending then 1 else 0) <= |Picked(ls, Signalled)|
    ensures s.reopenPending ==> |Picked(ls, Signalled)| > 0
    decreases |ls|
  {
    if ls != [] {
      var p, l := ls[..|ls| - 1], ls[|ls| - 1];
      CountersTell(c, p, Exec(c, Init, p).value);
      CountersStep(c, Exec(c, Init, p).value, l);
    }
  }

  lemma CountersStep(c: Config, s: State, l: Step)
    requires Enabled(c, s, l)
    ensures Next(c, s, l).writeErrors == s.writeErrors + (if Dropping(l).Some? || FailedWrite(l).Some? then 1 else 0)
    ensures |Next(c, s, l).files| == |s.files| + if Opened(l).Some? then 1 else 0
    ensures Next(c, s, l).reopenPending == (!l.Reopen? && (s.reopenPending || l.ReopenSignal?))
    ensures l.Reopen? ==> s.reopenPending
  {
  }

  // Fail-closed mode.

  /** The flusher's steps from its select or a half-done write into the drain loop. */
  function TowardsDrain(f: Flusher): seq<Step> {
    match f
    case Selecting => [StopSeen]
    case Writing(_, _) => [Write(true), Release, StopSeen]
    case Releasing(_) => [Release, StopSeen]
    case _ => []
  }

  /** The flusher's steps that empty a queue of `n` entries and leave the drain loop. */
  function DrainSteps(n: nat): seq<Step> {
    if n == 0 then [DrainExit] else [DrainReceive, Write(true), Release] + DrainSteps(n - 1)
  }

  /** Fail-closed: every request sent upstream is either still holding its slot or has
      committed, exactly once; a rejected request is never sent upstream. */
  ghost predicate ForwardInv(ls: seq<Step>, s: State) {
    Forwards(Picked(ls, Forwarding), Callers(Picked(ls, Accepting)), Picked(ls, Rejecting), s)
  }

  /** The same of the requests forwarded, committed and rejected. */
  ghost predicate Forwards(fwd: seq<Tid>, done: seq<Tid>, rej: seq<Tid>, s: State) {
    && s.reservers <= s.used && s.reserved <= s.used && s.served <= s.used
    && s.reserved !! s.served && s.reservers !! s.reserved && s.reservers !! s.served
    && multiset(fwd) == multiset(done) + multiset(s.served)
    && (forall t :: t in fwd ==> t in s.used && t !in s.reservers && t !in s.reserved)
    && (forall t :: t in rej ==> t in s.used && t !in s.reservers && t !in s.reserved && t !in fwd)
    && (forall t :: multiset(fwd)[t] <= 1)
    && s.dropped == 2 * |rej|
  }

  lemma CallersSnoc(ls: seq<Step>, l: Step)
    ensures Callers(Picked(ls + [l], Accepting)) ==
      Callers(Picked(ls, Accepting)) + (match Accepting(l) case Some(p) => [p.0] case None => [])
  {
    PickedSnoc(ls, l, Accepting);
  }

  lemma ForwardUpstream(c: Config, fwd: seq<Tid>, done: seq<Tid>, rej: seq<Tid>, s: State, t: Tid)
    requires Forwards(fwd, done, rej, s) && Enabled(c, s, Upstream(t))
    ensures Forwards(fwd + [t], done, rej, Next(c, s, Upstream(t)))
  {
    assert multiset(fwd + [t]) == multiset(fwd) + multiset{t};
    assert multiset(s.served + {t}) == multiset(s.served) + multiset{t};
    assert t !in fwd;
  }

  lemma ForwardCommit(c: Config, fwd: seq<Tid>, done: seq<Tid>, rej: seq<Tid>, s: State, t: Tid, e: Entry)
    requires Forwards(fwd, done, rej, s) && Enabled(c, s, Commit(t, e))
    ensures Forwards(fwd, done + [t], rej, Next(c, s, Commit(t, e)))
  {
    assert multiset(done + [t]) == multiset(done) + multiset{t};
    assert multiset(s.served) == multiset(s.served - {t}) + multiset{t};
  }

  lemma ForwardReject(c: Config, fwd: seq<Tid>, done: seq<Tid>, rej: seq<Tid>, s: State, l: Step)
    requires Forwards(fwd, done, rej, s) && Enabled(c, s, l) && (l.ReserveRefused? || l.ReserveReject?)
    ensures Forwards(fwd, done, rej + [l.t], Next(c, s, l))
  {
  }

  lemma ForwardOther(c: Config, fwd: seq<Tid>, done: seq<Tid>, rej: seq<Tid>, s: State, l: Step)
    requires Forwards(fwd, done, rej, s) && Enabled(c, s, l) && !IsPublishStep(l)
    requires !l.Upstream? && !l.Commit? && !l.ReserveRefused? && !l.ReserveReject?
    ensures Forwards(fwd, done, rej, Next(c, s, l))
  {
  }

  lemma ForwardStep(c: Config, ls: seq<Step>, s: State, l: Step)
    requires ForwardInv(ls, s) && Enabled(c, s, l) && !IsPublishStep(l)
    ensures ForwardInv(ls + [l], Next(c, s, l))
  {
    CallersSnoc(ls, l);
    PickedSnoc(ls, l, Forwarding);
    PickedSnoc(ls, l, Rejecting);
    var fwd, done, rej := Picked(ls, Forwarding), Callers(Picked(ls, Accepting)), Picked(ls, Rejecting);
    assert fwd + [] == fwd && done + [] == done && rej + [] == rej;
    match l
    case Upstream(t) => ForwardUpstream(c, fwd, done, rej, s, t);
    case Commit(t, e) => ForwardCommit(c, fwd, done, rej, s, t, e);
    case ReserveRefused(_) => ForwardReject(c, fwd, done, rej, s, l);
    case ReserveReject(_) => ForwardReject(c, fwd, done, rej, s, l);
    case _ => ForwardOther(c, fwd, done, rej, s, l);
  }

  lemma {:induction false} ForwardRun(c: Config, ls: seq<Step>, s: State)
    requires FailClosed(ls) && Exec(c, Init, ls) == Some(s)
    ensures ForwardInv(ls, s)
    decreases |ls|
  {
    if ls != [] {
      var p, l := ls[..|ls| - 1], ls[|ls| - 1];
      var m := Exec(c, Init, p).value;
      assert p + [l] == ls;
      ForwardRun(c, p, m);
      ForwardStep(c, p, m, l);
    }
  }

  /** Fail-closed: no request is sent upstream twice or after a rejection; each one sent
      upstream is either still holding its slot or has committed exactly once; and each
      rejection counts two drops. */
  lemma ForwardedCommitsExactlyOnce(c: Config, ls: seq<Step>, s: State)
    requires FailClosed(ls) && Exec(c, Init, ls) == Some(s)
    ensures multiset(Picked(ls, Forwarding)) == multiset(Callers(Picked(ls, Accepting))) + multiset(s.served)
    ensures forall t :: multiset(Picked(ls, Forwarding))[t] <= 1
    ensures forall t :: t in Picked(ls, Rejecting) ==> t !in Picked(ls, Forwarding)
    ensures s.dropped == 2 * |Picked(ls, Rejecting)|
  {
    ForwardRun(c, ls, s);
  }

  // ---------------------------------------------------------------- exactly when Close loses nothing

  /** `r` is reached from `s` by the flusher alone. */
  ghost predicate FlusherOnly(s: State, r: State) {
    && r.publishers == s.publishers && r.reservers == s.reservers && r.used == s.used
    && r.reserved == s.reserved && r.served == s.served && r.closer == s.closer
    && r.files != []
  }

  lemma DrainOne(c: Config, s: State) returns (r: State)
    requires s.flusher.Draining? && s.files != [] && s.queue != []
    ensures Exec(c, s, [DrainReceive, Write(true), Release]) == Some(r)
    ensures FlusherOnly(s, r) && r.flusher.Draining? && r.queue == s.queue[1..]
  {
    var r1 := Next(c, s, DrainReceive);
    var r2 := Next(c, r1, Write(true));
    r := Next(c, r2, Release);
    ExecSnoc(c, s, [], DrainReceive);
    ExecSnoc(c, s, [DrainReceive], Write(true));
    ExecSnoc(c, s, [DrainReceive, Write(true)], Release);
    assert [] + [DrainReceive] == [DrainReceive];
    assert [DrainReceive] + [Write(true)] == [DrainReceive, Write(true)];
    assert [DrainReceive, Write(true)] + [Release] == [DrainReceive, Write(true), Release];
  }

  /** Left alone, the drain loop empties the queue and exits. */
  lemma {:induction false} DrainEmpties(c: Config, s: State, n: nat) returns (r: State)
    requires s.flusher.Draining? && s.files != [] && |s.queue| == n
    ensures Exec(c, s, DrainSteps(n)) == Some(r)
    ensures FlusherOnly(s, r) && r.flusher.Exited? && r.queue == []
    decreases n
  {
    if n == 0 {
      r := Next(c, s, DrainExit);
      ExecSnoc(c, s, [], DrainExit);
      assert [] + [DrainExit] == DrainSteps(n);
    } else {
      var m := DrainOne(c, s);
      r := DrainEmpties(c, m, n - 1);
      ExecAppend(c, s, [DrainReceive, Write(true), Release], DrainSteps(n - 1));
    }
  }

  /** The flusher's steps that finish a write it is in the middle of. */
  function TowardsSelect(f: Flusher): seq<Step> {
    match f
    case Writing(_, _) => [Write(true), Release]
    case Releasing(_) => [Release]
    case _ => []
  }

  lemma ReachSelect(c: Config, s: State) returns (r: State)
    requires s.files != [] && !InDrain(s.flusher)
    ensures Exec(c, s, TowardsSelect(s.flusher)) == Some(r)
    ensures FlusherOnly(s, r) && r.flusher.Selecting?
  {
    r := s;
    if s.flusher.Writing? {
      r := WriteToSelect(c, s);
    } else if s.flusher.Releasing? {
      ExecSnoc(c, s, [], Release);
      r := Next(c, s, Release);
      assert [] + [Release] == TowardsSelect(s.flusher);
    }
  }

  lemma WriteToSelect(c: Config, s: State) returns (r: State)
    requires s.files != [] && s.flusher.Writing? && !s.flusher.draining
    ensures Exec(c, s, [Write(true), Release]) == Some(r)
    ensures FlusherOnly(s, r) && r.flusher.Selecting?
  {
    ExecSnoc(c, s, [], Write(true));
    ExecSnoc(c, s, [] + [Write(true)], Release);
    r := Next(c, Next(c, s, Write(true)), Release);
    assert [] + [Write(true)] + [Release] == [Write(true), Release];
  }

  /** In every run, as long as the flusher is not draining: a reopen that is signalled can be served
      next by the flusher alone, which finishes its write first; the file is swapped if the new one
      opens, and else kept, and nothing handed over is lost. */
  lemma ReopenCanBeServed(c: Config, ls: seq<Step>, s: State, ok: bool) returns (r: State)
    requires Exec(c, Init, ls) == Some(s) && !InDrain(s.flusher)
    ensures Exec(c, s, [ReopenSignal] + (TowardsSelect(s.flusher) + [Reopen(ok)])) == Some(r)
    ensures !r.reopenPending && |r.files| == |s.files| + (if ok then 1 else 0) && r.queue == s.queue
    ensures Flatten(r.files) == Flatten(s.files) + InFlight(s.flusher)
  {
    WrittenInAcceptanceOrder(c, ls, s);
    var s1 := Next(c, s, ReopenSignal);
    ExecSnoc(c, s, [], ReopenSignal);
    assert [] + [ReopenSignal] == [ReopenSignal];
    r := PendingIsServed(c, s1, ok);
    ExecAppend(c, s, [ReopenSignal], TowardsSelect(s.flusher) + [Reopen(ok)]);
  }

  lemma PendingIsServed(c: Config, s: State, ok: bool) returns (r: State)
    requires s.reopenPending && s.files != [] && !InDrain(s.flusher)
    ensures Exec(c, s, TowardsSelect(s.flusher) + [Reopen(ok)]) == Some(r)
    ensures !r.reopenPending && |r.files| == |s.files| + (if ok then 1 else 0) && r.queue == s.queue
    ensures Flatten(r.files) == Flatten(s.files) + InFlight(s.flusher)
  {
    var m := ReachSelect(c, s);
    SelectKeeps(c, s);
    ExecSnoc(c, s, TowardsSelect(s.flusher), Reopen(ok));
    r := Next(c, m, Reopen(ok));
    FlattenRotate(m.files);
  }

  lemma SelectKeeps(c: Config, s: State)
    requires s.files != [] && !InDrain(s.flusher) && Exec(c, s, TowardsSelect(s.flusher)).Some?
    ensures var m := Exec(c, s, TowardsSelect(s.flusher)).value;
      && m.reopenPending == s.reopenPending && |m.files| == |s.files| && m.queue == s.queue
      && Flatten(m.files) == Flatten(s.files) + InFlight(s.flusher)
  {
    if s.flusher.Writing? {
      WriteKeeps(c, s);
    } else if s.flusher.Releasing? {
      ExecSnoc(c, s, [], Release);
      assert [] + [Release] == [Release];
      assert Flatten(s.files) + [] == Flatten(s.files);
    } else {
      assert Flatten(s.files) + [] == Flatten(s.files);
    }
  }

  lemma WriteKeeps(c: Config, s: State)
    requires s.files != [] && s.flusher.Writing? && !s.flusher.draining
    ensures var m := Exec(c, s, [Write(true), Release]);
      && m.Some? && m.value.reopenPending == s.reopenPending && |m.value.files| == |s.files| && m.value.queue == s.queue
      && Flatten(m.value.files) == Flatten(s.files) + [s.flusher.e]
  {
    var m := Next(c, s, Write(true));
    ExecSnoc(c, s, [], Write(true));
    ExecSnoc(c, s, [] + [Write(true)], Release);
    assert [] + [Write(true)] + [Release] == [Write(true), Release];
    FlattenAppend(s.files, s.flusher.e);
    assert Next(c, m, Release).files == m.files;
  }

  lemma ReachDrain(c: Config, s: State) returns (r: State)
    requires s.closer.Stopped? && s.files != [] && !InDrain(s.flusher)
    ensures Exec(c, s, TowardsDrain(s.flusher)) == Some(r)
    ensures FlusherOnly(s, r) && r.flusher.Draining?
  {
    var m := ReachSelect(c, s);
    ExecSnoc(c, s, TowardsSelect(s.flusher), StopSeen);
    r := Next(c, m, StopSeen);
    assert TowardsSelect(s.flusher) + [StopSeen] == TowardsDrain(s.flusher);
  }

  /** Close can run to its return without any outstanding reservation being committed. */
  lemma CloseRunsAhead(c: Config, s: State) returns (ext: seq<Step>, r: State)
    requires s.closer.Flagged? && s.files != [] && !InDrain(s.flusher)
    ensures FailClosed(ext) && Exec(c, s, ext) == Some(r)
    ensures r.closer.Returned? && r.flusher.Exited? && r.queue == []
    ensures r.reserved == s.reserved && r.served == s.served
  {
    var s1 := Next(c, s, CloseStop);
    ExecSnoc(c, s, [], CloseStop);
    var s2 := ReachDrain(c, s1);
    ExecAppend(c, s, [] + [CloseStop], TowardsDrain(s1.flusher));
    var a := [] + [CloseStop] + TowardsDrain(s1.flusher);
    var s3 := DrainEmpties(c, s2, |s2.queue|);
    ExecAppend(c, s, a, DrainSteps(|s2.queue|));
    var b := a + DrainSteps(|s2.queue|);
    ExecSnoc(c, s, b, CloseReturn);
    ext, r := b + [CloseReturn], Next(c, s3, CloseReturn);
    DrainStepsFailClosed(|s2.queue|);
  }

  lemma {:induction false} DrainStepsFailClosed(n: nat)
    ensures FailClosed(DrainSteps(n))
  {
    if n > 0 {
      DrainStepsFailClosed(n - 1);
    }
  }

  /** Every fail-closed continuation of `ls` after Close's flag that gets Close to
      return has handed every accepted entry to an encoder. */
  ghost predicate LossFree(c: Config, ls: seq<Step>) {
    forall ext, s' :: FailClosed(ext) && Exec(c, Init, ls + [CloseFlag] + ext) == Some(s') && s'.closer.Returned? ==>
      Flatten(s'.files) == Accepted(ls + [CloseFlag] + ext)
  }

  /** A Close that starts with nothing outstanding stays quiet. */
  lemma QuietAfterClose(c: Config, ls: seq<Step>, s: State, ext: seq<Step>, s': State)
    requires Exec(c, Init, ls) == Some(s) && Enabled(c, s, CloseFlag) && Outstanding(s) == {}
    requires Exec(c, Init, ls + [CloseFlag] + ext) == Some(s')
    ensures Quiet(s')
  {
    StopRun(c, ls, s);
    ExecSnoc(c, Init, ls, CloseFlag);
    ExecAppend(c, Init, ls + [CloseFlag], ext);
    QuietRun(c, Next(c, s, CloseFlag), ext, s');
  }

  lemma QuietCloseIsLossFree(c: Config, ls: seq<Step>, s: State)
    requires Exec(c, Init, ls) == Some(s) && Enabled(c, s, CloseFlag) && Outstanding(s) == {}
    ensures LossFree(c, ls)
  {
    forall ext, s' | FailClosed(ext) && Exec(c, Init, ls + [CloseFlag] + ext) == Some(s') && s'.closer.Returned?
      ensures Flatten(s'.files) == Accepted(ls + [CloseFlag] + ext)
    {
      QuietAfterClose(c, ls, s, ext, s');
      WrittenInAcceptanceOrder(c, ls + [CloseFlag] + ext, s');
    }
  }

  /** Once the flusher is gone nothing more is written, whatever else happens. */
  lemma {:induction false} ExitedWritesNothing(c: Config, s: State, ls: seq<Step>, s': State)
    requires s.flusher.Exited? && Exec(c, s, ls) == Some(s')
    ensures s'.flusher.Exited? && s'.files == s.files && s.queue <= s'.queue
    decreases |ls|
  {
    if ls != [] {
      ExitedWritesNothing(c, s, ls[..|ls| - 1], Exec(c, s, ls[..|ls| - 1]).value);
    }
  }

  /** A request that still holds its reservation after the flusher is gone goes upstream and
      commits to a queue that nobody reads. */
  lemma CommitAfterExit(c: Config, r: State, t: Tid, e: Entry) returns (ext: seq<Step>, s': State)
    requires r.flusher.Exited? && r.queue == [] && c.cap > 0 && t in Outstanding(r)
    ensures FailClosed(ext) && Exec(c, r, ext) == Some(s') && Commit(t, e) in ext
    ensures s'.closer == r.closer && s'.flusher.Exited? && s'.queue == [e]
  {
    var up, m := GoUpstream(c, r, t);
    ExecSnoc(c, r, up, Commit(t, e));
    ext, s' := up + [Commit(t, e)], Next(c, m, Commit(t, e));
    assert ext[|up|] == Commit(t, e);
  }

  lemma GoUpstream(c: Config, r: State, t: Tid) returns (up: seq<Step>, m: State)
    requires t in Outstanding(r)
    ensures FailClosed(up) && Exec(c, r, up) == Some(m) && t in m.served
    ensures m.closer == r.closer && m.flusher == r.flusher && m.queue == r.queue
  {
    up, m := [], r;
    if t in r.reserved {
      ExecSnoc(c, r, [], Upstream(t));
      assert [] + [Upstream(t)] == [Upstream(t)];
      up, m := [Upstream(t)], Next(c, r, Upstream(t));
    }
  }

  lemma SomeCapacity(c: Config, ls: seq<Step>, s: State, t: Tid)
    requires FailClosed(ls) && Exec(c, Init, ls) == Some(s) && t in Outstanding(s)
    ensures c.cap > 0
  {
    PermitAccounting(c, ls, s);
    assert Outstanding(s) == {t} + (Outstanding(s) - {t});
  }

  /** A Close that starts with a reservation outstanding can run ahead of it: when all is over,
      the entry of that request is the one accepted entry that was not written. */
  lemma OutstandingCommitIsLost(c: Config, ls: seq<Step>, s: State, t: Tid, e: Entry) returns (ext: seq<Step>, s': State)
    requires FailClosed(ls) && Exec(c, Init, ls) == Some(s) && Enabled(c, s, CloseFlag) && t in Outstanding(s)
    ensures FailClosed(ext) && Exec(c, Init, ls + [CloseFlag] + ext) == Some(s') && s'.closer.Returned?
    ensures Commit(t, e) in ext && s'.flusher.Exited? && s'.queue == [e]
    ensures Flatten(s'.files) + [e] == Accepted(ls + [CloseFlag] + ext)
  {
    StopRun(c, ls, s);
    WrittenInAcceptanceOrder(c, ls, s);
    SomeCapacity(c, ls, s, t);
    ExecSnoc(c, Init, ls, CloseFlag);
    var f := Next(c, s, CloseFlag);
    var close, r := CloseRunsAhead(c, f);
    var late;
    late, s' := CommitAfterExit(c, r, t, e);
    ext := close + late;
    ExecAppend(c, f, close, late);
    ExecAppend(c, Init, ls + [CloseFlag], ext);
    WrittenInAcceptanceOrder(c, ls + [CloseFlag] + ext, s');
    assert InFlight(s'.flusher) == [] && Flatten(s'.files) + [] == Flatten(s'.files);
  }

  /** Fail-closed: a Close loses no accepted entry, however the run goes on, exactly
      when no reservation is outstanding as it sets its flag. */
  lemma CloseLosesNothingIff(c: Config, ls: seq<Step>, s: State)
    requires FailClosed(ls) && Exec(c, Init, ls) == Some(s) && Enabled(c, s, CloseFlag)
    ensures LossFree(c, ls) <==> Outstanding(s) == {}
  {
    if Outstanding(s) == {} {
      QuietCloseIsLossFree(c, ls, s);
    } else {
      var t :| t in Outstanding(s);
      var ext, s' := OutstandingCommitIsLost(c, ls, s, t, Entry("", "", "", 0));
      assert FailClosed(ext) && Exec(c, Init, ls + [CloseFlag] + ext) == Some(s') && s'.closer.Returned?;
    }
  }

  /** End to end: if Close starts with nothing outstanding, then once it has returned every
      request that was sent upstream has its entry handed to an encoder. */
  lemma EveryForwardedRequestIsAudited(c: Config, ls: seq<Step>, s: State, ext: seq<Step>, s': State, t: Tid)
    requires FailClosed(ls) && Exec(c, Init, ls) == Some(s) && Enabled(c, s, CloseFlag) && Outstanding(s) == {}
    requires FailClosed(ext) && Exec(c, Init, ls + [CloseFlag] + ext) == Some(s') && s'.closer.Returned?
    requires t in Picked(ls + [CloseFlag] + ext, Forwarding)
    ensures exists e :: (t, e) in Picked(ls + [CloseFlag] + ext, Accepting) && e in Flatten(s'.files)
  {
    var all := ls + [CloseFlag] + ext;
    QuietAfterClose(c, ls, s, ext, s');
    WrittenInAcceptanceOrder(c, all, s');
    ForwardedHasEntry(c, all, s', t);
  }

  lemma ForwardedHasEntry(c: Config, ls: seq<Step>, s: State, t: Tid)
    requires FailClosed(ls) && Exec(c, Init, ls) == Some(s) && t in Picked(ls, Forwarding) && t !in s.served
    ensures exists e :: (t, e) in Picked(ls, Accepting) && e in Accepted(ls)
  {
    ForwardedCommitsExactlyOnce(c, ls, s);
    assert t in multiset(Picked(ls, Forwarding));
    CallerHasEntry(ls, t);
  }

  lemma CallerHasEntry(ls: seq<Step>, t: Tid)
    requires t in multiset(Callers(Picked(ls, Accepting)))
    ensures exists e :: (t, e) in Picked(ls, Accepting) && e in Accepted(ls)
  {
    var ps := Picked(ls, Accepting);
    var i :| 0 <= i < |Callers(ps)| && Callers(ps)[i] == t;
    assert (t, ps[i].1) in ps && Accepted(ls)[i] == ps[i].1;
  }
}
