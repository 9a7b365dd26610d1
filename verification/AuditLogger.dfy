/** The file logger as an object.  Its state is at every moment the end of a run of
    the step machine, and each method says which steps it appends to that run. */
module AuditLogger {
  import opened Wrappers
  import opened AuditLog
  import opened AuditLogTheorems

  const DEFAULT_BUFFER_SIZE := 4096

  /** NewLogger gives no logger if the file does not open. */
  method NewLogger(opens: bool, bufSize: int, enqueueTimeout: int) returns (l: Option<Logger>)
    ensures l.Some? <==> opens
    ensures l.Some? ==> fresh(l.value) && l.value.Valid() && l.value.View() == Init
    ensures l.Some? ==> l.value.cfg == Config(if bufSize <= 0 then 4096 else bufSize, enqueueTimeout > 0)
  {
    if !opens {
      return None;
    }
    var logger := new Logger(bufSize, enqueueTimeout);
    return Some(logger);
  }

  class Logger {
    const cfg: Config
    var ch: seq<Entry>
    var sem: nat
    var reopen: bool
    var files: seq<seq<Entry>>
    var flusher: Flusher          // where the flusher goroutine is
    var closed: bool
    var droppedTotal: nat
    var writeErrorsTotal: nat

    // Where the other goroutines are, and what has happened so far.
    ghost var publishers: set<(Tid, Entry)>
    ghost var reservers: set<Tid>
    ghost var reserved: set<Tid>
    ghost var served: set<Tid>
    ghost var used: set<Tid>
    ghost var closer: Closer
    ghost var trace: seq<Step>

    ghost function View(): State
      reads this
    {
      State(ch, sem, publishers, reservers, reserved, served, used, flusher, reopen, files, closer,
            droppedTotal, writeErrorsTotal)
    }

    ghost predicate Valid()
      reads this
    {
      && cfg.cap > 0
      && files != []
      && (closed <==> !closer.Running?)
      && Exec(cfg, Init, trace) == Some(View())
    }

    constructor (bufSize: int, enqueueTimeout: int)
      ensures Valid() && trace == [] && View() == Init
      ensures cfg.cap == (if bufSize <= 0 then DEFAULT_BUFFER_SIZE else bufSize)
      ensures cfg.blocking <==> enqueueTimeout > 0
    {
      cfg := Config(if bufSize <= 0 then DEFAULT_BUFFER_SIZE else bufSize, enqueueTimeout > 0);
      ch, sem, reopen, files, closed := [], 0, false, [[]], false;
      droppedTotal, writeErrorsTotal := 0, 0;
      publishers, reservers, reserved, served, used := {}, {}, {}, {}, {};
      flusher, closer, trace := Selecting, Running, [];
    }

    /** The object has just taken the step `l`. */
    ghost method Took(l: Step, was: State)
      requires Exec(cfg, Init, trace) == Some(was) && Enabled(cfg, was, l) && View() == Next(cfg, was, l)
      modifies `trace
      ensures trace == old(trace) + [l] && Exec(cfg, Init, trace) == Some(View())
    {
      ExecSnoc(cfg, Init, trace, l);
      trace := trace + [l];
    }

    // The stretches between two points where another goroutine may run.

    /** Publish up to its select: read lock and closed check. */
    method EnterPublish(ghost t: Tid, e: Entry) returns (open: bool)
      requires Valid() && t !in used
      modifies `used, `publishers, `droppedTotal, `writeErrorsTotal, `trace
      ensures Valid() && open == !closed
      ensures open ==> (t, e) in publishers && trace == old(trace) + [PublishEnter(t, e)]
      ensures !open ==> trace == old(trace) + [PublishRefused(t, e)]
    {
      ghost var was := View();
      used := used + {t};
      open := !closed;
      if open {
        publishers := publishers + {(t, e)};
        Took(PublishEnter(t, e), was);
      } else {
        droppedTotal, writeErrorsTotal := droppedTotal + 1, writeErrorsTotal + 1;
        Took(PublishRefused(t, e), was);
      }
    }

    /** Publish's select: `timerFirst` is what it picks when both send and timer are ready. */
    method SendOrDrop(ghost t: Tid, e: Entry, timerFirst: bool) returns (ok: bool)
      requires Valid() && (t, e) in publishers
      modifies `publishers, `ch, `droppedTotal, `writeErrorsTotal, `trace
      ensures Valid()
      ensures ok <==> |old(ch)| < cfg.cap && !(cfg.blocking && timerFirst)
      ensures trace == old(trace) + [if ok then PublishSend(t, e) else PublishDrop(t, e)]
    {
      ghost var was := View();
      publishers := publishers - {(t, e)};
      ok := |ch| < cfg.cap && !(cfg.blocking && timerFirst);
      if ok {
        ch := ch + [e];
        Took(PublishSend(t, e), was);
      } else {
        droppedTotal, writeErrorsTotal := droppedTotal + 1, writeErrorsTotal + 1;
        Took(PublishDrop(t, e), was);
      }
    }

    method Publish(ghost t: Tid, e: Entry, timerFirst: bool) returns (ok: bool)
      requires Valid() && t !in used
      modifies `used, `publishers, `ch, `droppedTotal, `writeErrorsTotal, `trace
      ensures Valid()
      ensures ok <==> !closed && |old(ch)| < cfg.cap && !(cfg.blocking && timerFirst)
      ensures trace == old(trace) +
        (if closed then [PublishRefused(t, e)]
         else [PublishEnter(t, e), if ok then PublishSend(t, e) else PublishDrop(t, e)])
    {
      var open := EnterPublish(t, e);
      ok := false;
      if open {
        ok := SendOrDrop(t, e, timerFirst);
      }
    }

    /** Reserve up to its select. */
    method EnterReserve(ghost t: Tid) returns (open: bool)
      requires Valid() && t !in used
      modifies `used, `reservers, `droppedTotal, `trace
      ensures Valid() && open == !closed
      ensures open ==> t in reservers && trace == old(trace) + [ReserveEnter(t)]
      ensures !open ==> trace == old(trace) + [ReserveRefused(t)]
    {
      ghost var was := View();
      used := used + {t};
      open := !closed;
      if open {
        reservers := reservers + {t};
        Took(ReserveEnter(t), was);
      } else {
        droppedTotal := droppedTotal + 2;
        Took(ReserveRefused(t), was);
      }
    }

    /** Reserve's select. */
    method AcquireOrReject(ghost t: Tid, timerFirst: bool) returns (ok: bool)
      requires Valid() && t in reservers
      modifies `reservers, `reserved, `sem, `droppedTotal, `trace
      ensures Valid()
      ensures ok <==> old(sem) < cfg.cap && !(cfg.blocking && timerFirst)
      ensures ok ==> t in reserved
      ensures trace == old(trace) + [if ok then ReserveAcquire(t) else ReserveReject(t)]
    {
      ghost var was := View();
      reservers := reservers - {t};
      ok := sem < cfg.cap && !(cfg.blocking && timerFirst);
      if ok {
        sem := sem + 1;
        reserved := reserved + {t};
        Took(ReserveAcquire(t), was);
      } else {
        droppedTotal := droppedTotal + 2;
        Took(ReserveReject(t), was);
      }
    }

    /** Reserve, seen from the middleware: a failure also counts the middleware's own drop. */
    method Reserve(ghost t: Tid, timerFirst: bool) returns (ok: bool)
      requires Valid() && t !in used
      modifies `used, `reservers, `reserved, `sem, `droppedTotal, `trace
      ensures Valid()
      ensures ok <==> !closed && old(sem) < cfg.cap && !(cfg.blocking && timerFirst)
      ensures ok ==> t in reserved
      ensures trace == old(trace) +
        (if closed then [ReserveRefused(t)]
         else [ReserveEnter(t), if ok then ReserveAcquire(t) else ReserveReject(t)])
    {
      var open := EnterReserve(t);
      ok := false;
      if open {
        ok := AcquireOrReject(t, timerFirst);
      }
    }

    method Forward(ghost t: Tid)
      requires Valid() && t in reserved
      modifies `reserved, `served, `trace
      ensures Valid() && t in served && trace == old(trace) + [Upstream(t)]
    {
      ghost var was := View();
      reserved, served := reserved - {t}, served + {t};
      Took(Upstream(t), was);
    }

    /** The commit closure.  In a process that only reserves, its send cannot block. */
    method CommitEntry(ghost t: Tid, e: Entry)
      requires Valid() && t in served && FailClosed(trace)
      modifies `served, `ch, `trace
      ensures Valid() && ch == old(ch) + [e] && trace == old(trace) + [Commit(t, e)]
    {
      ghost var was := View();
      CommitNeverBlocks(cfg, trace, was, t, e);
      served := served - {t};
      ch := ch + [e];
      Took(Commit(t, e), was);
    }

    /** The middleware after a successful Reserve: call upstream, then commit, also when
        upstream panicked. */
    method ServeAndCommit(ghost t: Tid, e: Entry)
      requires Valid() && t in reserved && FailClosed(trace)
      modifies `reserved, `served, `ch, `trace
      ensures Valid() && ch == old(ch) + [e]
      ensures trace == old(trace) + [Upstream(t), Commit(t, e)]
    {
      Forward(t);
      CommitEntry(t, e);
    }

    /** The flusher takes the oldest entry, in its select or in the drain loop. */
    method Take() returns (e: Entry)
      requires Valid() && (flusher.Selecting? || flusher.Draining?) && ch != []
      modifies `ch, `flusher, `trace
      ensures Valid() && [e] + ch == old(ch) && flusher == Writing(e, old(flusher).Draining?)
    {
      ghost var was := View();
      e := ch[0];
      ch := ch[1..];
      var draining := flusher.Draining?;
      flusher := Writing(e, draining);
      Took(if draining then DrainReceive else Receive, was);
    }

    method WriteEntry(e: Entry, encodes: bool)
      requires Valid() && flusher.Writing? && flusher.e == e
      modifies `files, `writeErrorsTotal, `flusher, `trace
      ensures Valid() && flusher == Releasing(old(flusher).draining)
      ensures Flatten(files) == old(Flatten(files)) + [e] && |files| == |old(files)|
      ensures writeErrorsTotal == old(writeErrorsTotal) + if encodes then 0 else 1
    {
      ghost var was := View();
      FlattenAppend(files, e);
      files := files[|files| - 1 := files[|files| - 1] + [e]];
      if !encodes {
        writeErrorsTotal := writeErrorsTotal + 1;
      }
      flusher := Releasing(flusher.draining);
      Took(Write(encodes), was);
    }

    method ReleasePermit()
      requires Valid() && flusher.Releasing?
      modifies `sem, `flusher, `trace
      ensures Valid() && flusher == if old(flusher).draining then Draining else Selecting
      ensures sem == if old(sem) > 0 then old(sem) - 1 else 0
    {
      ghost var was := View();
      if sem > 0 {
        sem := sem - 1;
      }
      flusher := if flusher.draining then Draining else Selecting;
      Took(Release, was);
    }

    /** writeEntry, then the non-blocking receive on the semaphore. */
    method WriteAndRelease(e: Entry, encodes: bool)
      requires Valid() && flusher.Writing? && flusher.e == e
      modifies `files, `sem, `writeErrorsTotal, `flusher, `trace
      ensures Valid() && flusher == if old(flusher).draining then Draining else Selecting
      ensures Flatten(files) == old(Flatten(files)) + [e] && |files| == |old(files)|
      ensures sem == if old(sem) > 0 then old(sem) - 1 else 0
    {
      WriteEntry(e, encodes);
      ReleasePermit();
    }

    /** The reopen channel holds one signal; another one is dropped. */
    method SignalReopen()
      requires Valid()
      modifies `reopen, `trace
      ensures Valid() && reopen && trace == old(trace) + [ReopenSignal]
    {
      ghost var was := View();
      reopen := true;
      Took(ReopenSignal, was);
    }

    /** One reopen served by the flusher: the file is swapped only if the new one opened. */
    method ServeReopen(opens: bool)
      requires Valid() && flusher.Selecting? && reopen
      modifies `reopen, `files, `trace
      ensures Valid() && !reopen && Flatten(files) == Flatten(old(files))
      ensures files == if opens then old(files) + [[]] else old(files)
    {
      ghost var was := View();
      reopen := false;
      if opens {
        FlattenRotate(files);
        files := files + [[]];
      }
      Took(Reopen(opens), was);
    }

    method ExitDrain()
      requires Valid() && flusher.Draining? && ch == []
      modifies `flusher, `trace
      ensures Valid() && flusher.Exited?
    {
      ghost var was := View();
      flusher := Exited;
      Took(DrainExit, was);
    }

    /** One round of the drain loop. */
    method DrainOne(encodes: bool)
      requires Valid() && flusher.Draining? && ch != []
      modifies `ch, `files, `sem, `writeErrorsTotal, `flusher, `trace
      ensures Valid() && flusher.Draining? && |ch| == |old(ch)| - 1
      ensures Flatten(files) + ch == old(Flatten(files) + ch)
    {
      var e := Take();
      assert old(Flatten(files)) + old(ch) == (old(Flatten(files)) + [e]) + ch;
      WriteAndRelease(e, encodes);
    }

    /** The drain loop after the stop signal, with nobody else running; encodes(k) is whether the
        write of the entry with k entries left to go succeeds. */
    method Drain(encodes: nat -> bool)
      requires Valid() && flusher.Draining?
      modifies `ch, `files, `sem, `writeErrorsTotal, `flusher, `trace
      ensures Valid() && flusher.Exited?
      ensures ch == [] && Flatten(files) == old(Flatten(files) + ch)
    {
      while ch != []
        invariant Valid() && flusher.Draining?
        invariant Flatten(files) + ch == old(Flatten(files) + ch)
        decreases |ch|
      {
        DrainOne(encodes(|ch|));
      }
      ExitDrain();
    }

    method SetClosed()
      requires Valid() && !closed && publishers == {} && reservers == {}
      modifies `closed, `closer, `trace
      ensures Valid() && closed && closer.Flagged?
    {
      ghost var was := View();
      closed, closer := true, Flagged;
      Took(CloseFlag, was);
    }

    /** Close closes the stop channel and the flusher sees it from its select. */
    method SignalStop()
      requires Valid() && closer.Flagged? && flusher.Selecting?
      modifies `closer, `flusher, `trace
      ensures Valid() && closer.Stopped? && flusher.Draining?
    {
      ghost var s1 := View();
      closer := Stopped;
      Took(CloseStop, s1);
      ghost var s2 := View();
      flusher := Draining;
      Took(StopSeen, s2);
    }

    method ReturnFromClose()
      requires Valid() && closer.Stopped? && flusher.Exited?
      modifies `closer, `trace
      ensures Valid() && closer.Returned?
    {
      ghost var was := View();
      closer := Returned;
      Took(CloseReturn, was);
    }

    /** The flusher gets back to its select from wherever it is before the stop signal. */
    method FinishWrite(encodes: bool)
      requires Valid() && !InDrain(flusher)
      modifies `files, `sem, `writeErrorsTotal, `flusher, `trace
      ensures Valid() && flusher.Selecting? && Flatten(files) == old(Flatten(files) + InFlight(flusher))
    {
      if flusher.Writing? {
        WriteAndRelease(flusher.e, encodes);
      } else if flusher.Releasing? {
        ReleasePermit();
      }
    }

    /** Before Close nobody is draining. */
    lemma NotDraining()
      requires Valid() && !closed
      ensures !InDrain(flusher)
    {
      StopRun(cfg, trace, View());
    }

    /** Close called at any point of the flusher's work; it gets the write lock when no producer
        holds the read lock. */
    method Close(encodes: nat -> bool)
      requires Valid() && !closed && publishers == {} && reservers == {}
      modifies `closed, `closer, `ch, `files, `sem, `writeErrorsTotal, `flusher, `trace
      ensures Valid() && closed && closer.Returned?
      ensures ch == [] && Flatten(files) == old(Flatten(files) + InFlight(flusher) + ch)
    {
      NotDraining();
      SetClosed();
      FinishWrite(encodes(|ch|));
      SignalStop();
      Drain(encodes);
      ReturnFromClose();
    }
  }
}
