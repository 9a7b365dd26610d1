/** The plugin manager as an object.  Its state is at every moment the end of a run of the step
    machine; each method is what one goroutine does while the others stand still. */
module PluginManagerObject {
  import opened Wrappers
  import opened PluginManager

  lemma RunSnoc(s: State, ls: seq<Step>, l: Step, m: State)
    requires Exec(s, ls) == Some(m) && Enabled(m, l)
    ensures Exec(s, ls + [l]) == Some(Next(m, l))
  {
    assert (ls + [l])[..|ls + [l]| - 1] == ls;
  }

  /** NewManager's loop: starts[k] is the process plugin names[k] gets started, None if it fails
      to.  If one fails, exactly those started before it are killed. */
  method StartAll(names: seq<Name>, starts: seq<Option<Inst>>) returns (r: Option<map<Name, Inst>>, killed: set<Inst>)
    requires |names| == |starts| && forall i, j :: 0 <= i < j < |names| ==> names[i] != names[j]
    requires forall i, j :: 0 <= i < j < |starts| && starts[i].Some? ==> starts[i] != starts[j]
    ensures r.Some? <==> forall k :: 0 <= k < |starts| ==> starts[k].Some?
    ensures r.Some? ==> killed == {} && r.value.Keys == (set k | 0 <= k < |names| :: names[k])
    ensures r.Some? ==> forall k :: 0 <= k < |names| ==> names[k] in r.value && starts[k] == Some(r.value[names[k]])
    ensures r.None? ==> exists k :: FirstFailed(starts, k) && killed == set j | 0 <= j < k && starts[j].Some? :: starts[j].value
  {
    var started: map<Name, Inst> := map[];
    for k := 0 to |names|
      invariant forall j :: 0 <= j < k ==> starts[j].Some? && names[j] in started && started[names[j]] == starts[j].value
      invariant started.Keys == set j | 0 <= j < k :: names[j]
      invariant started.Values == set j | 0 <= j < k && starts[j].Some? :: starts[j].value
    {
      if starts[k].None? {
        assert FirstFailed(starts, k);
        return None, started.Values;
      }
      ghost var before := started;
      started := started[names[k] := starts[k].value];
      ValuesOf(before, names[k], starts[k].value);
    }
    return Some(started), {};
  }

  predicate FirstFailed(starts: seq<Option<Inst>>, k: nat) {
    k < |starts| && starts[k].None? && forall j :: 0 <= j < k ==> starts[j].Some?
  }

  lemma ValuesOf(m: map<Name, Inst>, name: Name, i: Inst)
    requires name !in m
    ensures m[name := i].Values == m.Values + {i}
  {
    var m' := m[name := i];
    forall v | v in m.Values + {i} ensures v in m'.Values {
      if v in m.Values {
        var n :| n in m && m[n] == v;
        assert m'[n] == v;
      } else {
        assert m'[name] == v;
      }
    }
  }

  class Manager {
    var plugins: map<Name, Inst>     // the atomic snapshot pointer
    var insts: map<Inst, Instance>   // the instances' flags and processes
    var done: bool
    var closed: bool

    ghost var seen: set<Inst>
    ghost var observers: multiset<Inst>
    ghost var rs: map<Rid, Restarter>
    ghost var mu: Mutex
    ghost var closing: Closing
    ghost const start: State
    ghost var trace: seq<Step>

    ghost function View(): State
      reads this
    {
      State(insts, plugins, seen, observers, rs, mu, closing)
    }

    ghost predicate Valid()
      reads this
    {
      && IsInit(start) && Exec(start, trace) == Some(View())
      && (done <==> !closing.NotCalled?) && (closed <==> IsClosed(View()))
      && forall name :: name in plugins ==> plugins[name] in insts
    }

    /** NewManager with one started process per configured plugin. */
    constructor (started: map<Name, Inst>)
      requires forall a, b :: a in started && b in started && started[a] == started[b] ==> a == b
      ensures Valid() && IsInit(start) && trace == [] && View() == start && plugins == started
    {
      var named: map<Inst, Name> := map name | name in started :: started[name] := name;
      plugins := started;
      insts := map i | i in started.Values :: Instance(named[i], false, false, false, false);
      done, closed := false, false;
      seen, observers, rs, mu, closing, trace := started.Values, multiset{}, map[], Free, NotCalled, [];
      start := State(map i | i in started.Values :: Instance(named[i], false, false, false, false),
                     started, started.Values, multiset{}, map[], Free, NotCalled);
    }

    /** The object has just taken the step `l`. */
    ghost method Took(l: Step, was: State)
      requires Exec(start, trace) == Some(was) && Enabled(was, l) && View() == Next(was, l)
      modifies `trace
      ensures trace == old(trace) + [l] && Exec(start, trace) == Some(View())
    {
      RunSnoc(start, trace, l, was);
      trace := trace + [l];
    }

    /** callPlugin after a failed call of an instance it saw exited: the flag decides who restarts. */
    method TryRestart(i: Inst, ghost r: Rid) returns (spawn: bool)
      requires Valid() && i in observers && i in insts && r !in rs
      modifies `insts, `observers, `rs, `trace
      ensures Valid() && spawn == !old(insts)[i].restarting && i in insts && insts[i].restarting
      ensures rs == if spawn then old(rs)[r := Restarter(old(insts)[i].name, i, Waiting(0))] else old(rs)
    {
      ghost var was := View();
      observers := observers - multiset{i};
      spawn := !insts[i].restarting;
      if spawn {
        insts := insts[i := insts[i].(restarting := true)];
        rs := rs[r := Restarter(insts[i].name, i, Waiting(0))];
      }
      Took(CompareAndSwap(i, r), was);
    }

    ghost method GoTo(r: Rid, pc: Pc)
      requires r in rs
      modifies `rs
      ensures rs == old(rs)[r := old(rs)[r].(pc := pc)]
    {
      rs := rs[r := rs[r].(pc := pc)];
    }

    /** The closed check under writeMu. */
    method LockAndCheck(ghost r: Rid, n: Inst) returns (open: bool)
      requires Valid() && r in rs && rs[r].pc == Started(n) && mu.Free?
      modifies `rs, `mu, `trace
      ensures Valid() && open == !closed && r in rs && rs[r].name == old(rs)[r].name
      ensures rs[r].pc == (if open then Passed(n) else KillNew(n)) && (!open ==> mu.Free?)
    {
      ghost var s1 := View();
      mu := HeldBy(r);
      GoTo(r, Locked(n));
      Took(Acquire(r), s1);
      ghost var s2 := View();
      open := !closed;
      if open {
        GoTo(r, Passed(n));
      } else {
        mu := Free;
        GoTo(r, KillNew(n));
      }
      Took(CheckClosed(r), s2);
    }

    method Copy(ghost r: Rid, n: Inst) returns (copy: map<Name, Inst>)
      requires Valid() && r in rs && rs[r].pc == Passed(n)
      modifies `rs, `trace
      ensures Valid() && copy == plugins && rs == old(rs)[r := old(rs)[r].(pc := Copied(n, copy))]
    {
      ghost var was := View();
      copy := plugins;
      GoTo(r, Copied(n, copy));
      Took(CopyMap(r), was);
    }

    method Store(ghost r: Rid, name: Name, n: Inst, copy: map<Name, Inst>)
      requires Valid() && r in rs && rs[r].name == name && rs[r].pc == Copied(n, copy) && n in insts
      requires forall other :: other in copy ==> copy[other] in insts
      modifies `plugins, `seen, `mu, `rs, `trace
      ensures Valid() && mu.Free? && plugins == copy[name := n]
      ensures r in rs && rs[r].pc == if name in copy then KillOld(copy[name]) else Finished
    {
      ghost var was := View();
      plugins := copy[name := n];
      seen, mu := seen + {n}, Free;
      GoTo(r, if name in copy then KillOld(copy[name]) else Finished);
      Took(StoreMap(r), was);
    }

    /** swapPlugin: copy the map, replace one entry, store the copy. */
    method SwapPlugin(ghost r: Rid, name: Name, n: Inst) returns (replaced: Option<Inst>)
      requires Valid() && r in rs && rs[r].name == name && rs[r].pc == Passed(n) && n in insts
      modifies `plugins, `seen, `mu, `rs, `trace
      ensures Valid() && mu.Free? && plugins == old(plugins)[name := n]
      ensures replaced == if name in old(plugins) then Some(old(plugins)[name]) else None
      ensures r in rs && rs[r].pc == if replaced.Some? then KillOld(replaced.value) else Finished
    {
      var copy := Copy(r, n);
      replaced := if name in copy then Some(copy[name]) else None;
      Store(r, name, n, copy);
    }

    /** A restart goroutine kills the process it is left with. */
    method KillProcess(ghost r: Rid, i: Inst)
      requires Valid() && r in rs && (rs[r].pc == KillNew(i) || rs[r].pc == KillOld(i)) && i in insts
      modifies `insts, `rs, `trace
      ensures Valid() && insts == old(insts)[i := old(insts)[i].(exited := true, killed := true)]
      ensures r in rs && rs[r].pc.Finished?
    {
      ghost var was := View();
      insts := insts[i := insts[i].(exited := true, killed := true)];
      GoTo(r, Finished);
      Took(KillHeld(r), was);
    }

    /** What restartPlugin does with a process it got started. */
    method Install(ghost r: Rid, name: Name, n: Inst)
      requires Valid() && r in rs && rs[r].name == name && rs[r].pc == Started(n) && mu.Free? && n in insts
      modifies `plugins, `insts, `seen, `mu, `rs, `trace
      ensures Valid() && mu.Free? && r in rs && rs[r].pc.Finished?
      ensures closed ==> plugins == old(plugins) && n in insts && insts[n].killed
      ensures !closed ==> plugins == old(plugins)[name := n]
      ensures !closed && name in old(plugins) ==> old(plugins)[name] in insts && insts[old(plugins)[name]].killed
    {
      var open := LockAndCheck(r, n);
      if !open {
        KillProcess(r, n);
        return;
      }
      var replaced := SwapPlugin(r, name, n);
      if replaced.Some? {
        KillProcess(r, replaced.value);
      }
    }

    /** One failed start. */
    method CountFailedStart(ghost r: Rid, ghost attempt: nat)
      requires Valid() && r in rs && rs[r].pc == Waiting(attempt) && attempt < ATTEMPTS
      modifies `rs, `trace
      ensures Valid() && rs == old(rs)[r := old(rs)[r].(pc := Waiting(attempt + 1))]
    {
      ghost var was := View();
      GoTo(r, Waiting(attempt + 1));
      Took(StartFailed(r), was);
    }

    /** One started process. */
    method AddProcess(ghost r: Rid, ghost attempt: nat, name: Name, n: Inst)
      requires Valid() && r in rs && rs[r].name == name && rs[r].pc == Waiting(attempt) && attempt < ATTEMPTS && n !in insts
      modifies `insts, `rs, `trace
      ensures Valid() && insts == old(insts)[n := Instance(name, false, false, false, false)]
      ensures rs == old(rs)[r := old(rs)[r].(pc := Started(n))]
    {
      ghost var was := View();
      insts := insts[n := Instance(name, false, false, false, false)];
      GoTo(r, Started(n));
      Took(StartOk(r, n), was);
    }

    method Cancel(ghost r: Rid, ghost attempt: nat)
      requires Valid() && r in rs && rs[r].pc == Waiting(attempt) && attempt < ATTEMPTS && done
      modifies `rs, `trace
      ensures Valid() && r in rs && rs[r].pc.Finished?
    {
      ghost var was := View();
      GoTo(r, Finished);
      Took(Cancelled(r), was);
    }

    method LockToMark(ghost r: Rid)
      requires Valid() && r in rs && rs[r].pc == Waiting(ATTEMPTS) && mu.Free?
      modifies `mu, `rs, `trace
      ensures Valid() && rs == old(rs)[r := old(rs)[r].(pc := Marking)]
    {
      ghost var was := View();
      mu := HeldBy(r);
      GoTo(r, Marking);
      Took(AcquireToMark(r), was);
    }

    /** After the last attempt: the published instance of that name is marked as failed. */
    method GiveUp(ghost r: Rid, name: Name)
      requires Valid() && r in rs && rs[r].name == name && rs[r].pc == Waiting(ATTEMPTS) && mu.Free?
      modifies `insts, `mu, `rs, `trace
      ensures Valid() && mu.Free? && r in rs && rs[r].pc.Finished?
      ensures insts == if name !in plugins then old(insts)
        else old(insts)[plugins[name] := old(insts)[plugins[name]].(failed := true)]
    {
      LockToMark(r);
      ghost var was := View();
      if name in plugins {
        insts := insts[plugins[name] := insts[plugins[name]].(failed := true)];
      }
      mu := Free;
      GoTo(r, Finished);
      Took(MarkFailed(r), was);
    }

    /** The whole restart goroutine run without interruption; starts[k] is the process attempt k
        gets started, None if it fails to. */
    method RestartPlugin(ghost r: Rid, name: Name, starts: seq<Option<Inst>>)
      requires Valid() && r in rs && rs[r].name == name && rs[r].pc == Waiting(0) && mu.Free?
      requires |starts| == ATTEMPTS && forall k :: 0 <= k < |starts| && starts[k].Some? ==> starts[k].value !in insts
      modifies `plugins, `insts, `seen, `mu, `rs, `trace
      ensures Valid() && mu.Free? && r in rs && rs[r].pc.Finished?
      ensures done ==> plugins == old(plugins) && insts == old(insts)
      ensures !done && (forall k :: 0 <= k < |starts| ==> starts[k].None?) ==>
        plugins == old(plugins) && (name in plugins ==> plugins[name] in insts && insts[plugins[name]].failed)
      ensures forall k :: !done && 0 <= k < |starts| && starts[k].Some? && (forall j :: 0 <= j < k ==> starts[j].None?) ==>
        plugins == old(plugins)[name := starts[k].value] &&
        (name in old(plugins) ==> old(plugins)[name] in insts && insts[old(plugins)[name]].killed)
    {
      for attempt := 0 to ATTEMPTS
        invariant Valid() && mu.Free? && r in rs && rs[r].name == name && rs[r].pc == Waiting(attempt)
        invariant insts == old(insts) && plugins == old(plugins) && done == old(done)
        invariant attempt > 0 ==> !done
        invariant forall k :: 0 <= k < attempt ==> starts[k].None?
      {
        if done {
          Cancel(r, attempt);
          return;
        }
        if starts[attempt].None? {
          CountFailedStart(r, attempt);
        } else {
          AddProcess(r, attempt, name, starts[attempt].value);
          Install(r, name, starts[attempt].value);
          return;
        }
      }
      GiveUp(r, name);
    }

    method SignalDone()
      requires Valid() && !done
      modifies `done, `closing, `trace
      ensures Valid() && closing.DoneClosed?
    {
      ghost var was := View();
      done, closing := true, DoneClosed;
      Took(CloseDone, was);
    }

    method SetClosed()
      requires Valid() && closing.DoneClosed?
      modifies `closed, `closing, `trace
      ensures Valid() && closing.FlagSet?
    {
      ghost var was := View();
      closed, closing := true, FlagSet;
      Took(CloseFlag, was);
    }

    method LockToClose()
      requires Valid() && closing.FlagSet? && mu.Free?
      modifies `mu, `closing, `trace
      ensures Valid() && closing.CloseLocked?
    {
      ghost var was := View();
      mu, closing := HeldByClose, CloseLocked;
      Took(CloseAcquire, was);
    }

    method EmptyMap() returns (snap: map<Name, Inst>)
      requires Valid() && closing.CloseLocked?
      modifies `plugins, `closing, `trace
      ensures Valid() && plugins == map[] && snap == old(plugins) && closing == Killing(snap.Values)
    {
      ghost var was := View();
      snap := plugins;
      plugins, closing := map[], Killing(snap.Values);
      Took(CloseEmpty, was);
    }

    method KillPublished(i: Inst)
      requires Valid() && closing.Killing? && i in closing.left && i in insts
      modifies `insts, `closing, `trace
      ensures Valid() && insts == old(insts)[i := old(insts)[i].(exited := true, killed := true)]
      ensures closing == Killing(old(closing).left - {i})
    {
      ghost var was := View();
      insts := insts[i := insts[i].(exited := true, killed := true)];
      closing := Killing(closing.left - {i});
      Took(CloseKill(i), was);
    }

    /** Kills the instances of the map Close took, in any order. */
    method KillAll(snap: set<Inst>)
      requires Valid() && closing == Killing(snap) && snap <= insts.Keys
      modifies `insts, `closing, `trace
      ensures Valid() && closing == Killing({}) && insts.Keys == old(insts).Keys
      ensures forall i :: i in insts ==> if i in snap then insts[i].killed else insts[i] == old(insts)[i]
    {
      var left := snap;
      while left != {}
        invariant Valid() && closing == Killing(left) && left <= snap && insts.Keys == old(insts).Keys
        invariant forall i :: i in insts && i in snap ==> i in left || insts[i].killed
        invariant forall i :: i in insts && i !in snap ==> insts[i] == old(insts)[i]
        decreases |left|
      {
        var i :| i in left;
        KillPublished(i);
        left := left - {i};
      }
    }

    method ReturnFromClose()
      requires Valid() && closing == Killing({})
      modifies `mu, `closing, `trace
      ensures Valid() && closing.Returned? && mu.Free?
    {
      ghost var was := View();
      mu, closing := Free, Returned;
      Took(CloseReturn, was);
    }

    method Close()
      requires Valid() && !done && mu.Free?
      modifies `done, `closed, `plugins, `insts, `mu, `closing, `trace
      ensures Valid() && closing.Returned? && plugins == map[] && insts.Keys == old(insts).Keys
      ensures forall i :: i in insts ==> if i in old(plugins).Values then insts[i].killed else insts[i] == old(insts)[i]
    {
      SignalDone();
      SetClosed();
      LockToClose();
      var snap := EmptyMap();
      KillAll(snap.Values);
      ReturnFromClose();
    }
  }
}
