/**
  callPlugin: many concurrent calls of one plugin instance, each asking the circuit breaker,
  waiting for the plugin and reporting back.  A run is a list of steps on the instance; its
  `history` is what the breaker saw.
 */
module PluginCall {
  import opened Wrappers
  import opened CircuitBreakers

  /** How the plugin call comes back.  Cancelled: with an error after the request's context
      ended; TimedOut and Errored: with an error before; NoReply: no error, no response.
      Panicked: not at all, the worker recovers and denies. */
  datatype Outcome =
    | Reply(allow: bool)
    | NoReply
    | Cancelled
    | Panicked
    | TimedOut
    | Errored(exited: bool)

  datatype Instance = Instance(
    breaker: Breaker,
    failed: bool,             // all restart attempts exhausted
    restarting: bool,
    restarts: nat,            // restart loops started for this instance
    inFlight: set<nat>,       // calls admitted and not yet back
    used: set<nat>,           // every call that asked
    allowed: set<nat>,        // calls decided as allow
    history: seq<Event>)

  const Started := Instance(Fresh, false, false, 0, {}, {}, {}, [])

  datatype Step =
    | Ask(call: nat, now: int)
    | Return(call: nat, outcome: Outcome, now: int)
    | GiveUp

  predicate Enabled(s: Instance, l: Step) {
    match l
    case Ask(call, _) => call !in s.used
    case Return(call, _, _) => call in s.inFlight
    case GiveUp => s.restarting
  }

  /** What a finished call tells the breaker. */
  function Recorded(call: nat, o: Outcome, now: int): Option<Event> {
    match o
    case Cancelled => None
    case Panicked => None
    case Reply(_) => Some(Success(call))
    case _ => Some(Failure(now, call))
  }

  function Told(c: Config, s: Instance, ev: Event): Instance {
    s.(breaker := CircuitBreakers.Step(c, s.breaker, ev), history := s.history + [ev])
  }

  function Next(c: Config, s: Instance, l: Step): Instance
    requires Enabled(s, l)
  {
    match l
    case Ask(call, now) =>
      var s1 := s.(used := s.used + {call});
      if s.failed then s1
      else if Admits(c, s.breaker, Allow(now, call)) then Told(c, s1, Allow(now, call)).(inFlight := s.inFlight + {call})
      else Told(c, s1, Allow(now, call))
    case Return(call, o, now) =>
      var s1 := s.(inFlight := s.inFlight - {call});
      var s2 := match Recorded(call, o, now) case None => s1 case Some(ev) => Told(c, s1, ev);
      if o == Reply(true) then s2.(allowed := s2.allowed + {call})
      else if o == Errored(true) && !s.failed && !s.restarting then s2.(restarting := true, restarts := s2.restarts + 1)
      else s2
    case GiveUp => s.(failed := true)
  }

  function Exec(c: Config, s: Instance, ls: seq<Step>): Option<Instance>
    decreases |ls|
  {
    if ls == [] then Some(s)
    else
      match Exec(c, s, ls[..|ls| - 1])
      case None => None
      case Some(m) => if Enabled(m, ls[|ls| - 1]) then Some(Next(c, m, ls[|ls| - 1])) else None
  }

  /** One more step at the end of a run. */
  lemma RunSnoc(c: Config, s: Instance, ls: seq<Step>, l: Step)
    requires Exec(c, s, ls).Some? && Enabled(Exec(c, s, ls).value, l)
    ensures Exec(c, s, ls + [l]) == Some(Next(c, Exec(c, s, ls).value, l))
  {
    assert (ls + [l])[..|ls + [l]| - 1] == ls;
  }

  // ---------------------------------------------------------------- what every run keeps

  /** The calls of `h` admitted so far. */
  ghost function Admitted(c: Config, h: seq<Event>): set<nat> { AdmittedCalls(c, h, 0) }

  /** Each record in `h` is the first of a call admitted before it. */
  ghost predicate Disciplined(c: Config, h: seq<Event>) {
    forall k :: 0 <= k < |h| && !h[k].Allow? ==>
      h[k].call in Admitted(c, h[..k]) && h[k].call !in RecordedCalls(h[..k])
  }

  ghost predicate CallInv(c: Config, s: Instance) {
    && s.breaker == After(c, s.history)
    && Disciplined(c, s.history)
    && s.inFlight <= Admitted(c, s.history) <= s.used
    && s.inFlight !! RecordedCalls(s.history)
    && s.allowed <= RecordedCalls(s.history) <= Admitted(c, s.history)
    && s.restarts == (if s.restarting then 1 else 0)
  }

  lemma HistorySnoc(c: Config, h: seq<Event>, ev: Event)
    ensures After(c, h + [ev]) == CircuitBreakers.Step(c, After(c, h), ev)
    ensures Admitted(c, h + [ev]) == Admitted(c, h) + if Admits(c, After(c, h), ev) then {ev.call} else {}
    ensures RecordedCalls(h + [ev]) == RecordedCalls(h) + if ev.Allow? then {} else {ev.call}
    ensures Disciplined(c, h) && (ev.Allow? || (ev.call in Admitted(c, h) && ev.call !in RecordedCalls(h)))
      ==> Disciplined(c, h + [ev])
  {
    var g := h + [ev];
    ExecSnoc(c, Fresh, h, ev);
    assert g[..|g| - 1] == h;
    assert forall k :: 0 <= k <= |h| ==> g[..k] == h[..k];
    assert h[..|h|] == h;
  }

  lemma AskStep(c: Config, s: Instance, call: nat, now: int)
    requires CallInv(c, s) && Enabled(s, Ask(call, now))
    ensures CallInv(c, Next(c, s, Ask(call, now)))
  {
    HistorySnoc(c, s.history, Allow(now, call));
  }

  /** A call comes back and tells the breaker `ev`. */
  lemma RecordStep(c: Config, s: Instance, call: nat, ev: Event)
    requires CallInv(c, s) && call in s.inFlight && !ev.Allow? && ev.call == call
    ensures CallInv(c, Told(c, s.(inFlight := s.inFlight - {call}), ev))
    ensures call in RecordedCalls(s.history + [ev])
  {
    HistorySnoc(c, s.history, ev);
  }

  lemma ReturnStep(c: Config, s: Instance, call: nat, o: Outcome, now: int)
    requires CallInv(c, s) && Enabled(s, Return(call, o, now))
    ensures CallInv(c, Next(c, s, Return(call, o, now)))
  {
    match Recorded(call, o, now)
    case Some(ev) => RecordStep(c, s, call, ev);
    case None =>
  }

  lemma CallStep(c: Config, s: Instance, l: Step)
    requires CallInv(c, s) && Enabled(s, l)
    ensures CallInv(c, Next(c, s, l))
  {
    match l
    case Ask(call, now) => AskStep(c, s, call, now);
    case Return(call, o, now) => ReturnStep(c, s, call, o, now);
    case GiveUp =>
  }

  /** In every run: the breaker is where its history puts it, each record is the only one of a
      call that was admitted before, a call is decided as allow only if it was admitted and came
      back, and at most one restart loop is started. */
  lemma {:induction false} EveryRunIsDisciplined(c: Config, ls: seq<Step>)
    requires Exec(c, Started, ls).Some?
    ensures CallInv(c, Exec(c, Started, ls).value)
    decreases |ls|
  {
    if ls == [] {
      assert RecordedCalls([]) == {} && Admitted(c, []) == {};
    } else {
      EveryRunIsDisciplined(c, ls[..|ls| - 1]);
      CallStep(c, Exec(c, Started, ls[..|ls| - 1]).value, ls[|ls| - 1]);
    }
  }

  // ---------------------------------------------------------------- what each outcome does

  predicate Returns(l: Step, call: nat, o: Outcome) { l.Return? && l.call == call && l.outcome == o }

  /** A call is decided as allow exactly if the plugin answered it with ALLOW. */
  lemma {:induction false} AllowedExactly(c: Config, ls: seq<Step>, call: nat)
    requires Exec(c, Started, ls).Some?
    ensures call in Exec(c, Started, ls).value.allowed <==> exists i :: 0 <= i < |ls| && Returns(ls[i], call, Reply(true))
    decreases |ls|
  {
    if ls != [] {
      var n := |ls| - 1;
      AllowedExactly(c, ls[..n], call);
      if call in Exec(c, Started, ls[..n]).value.allowed {
        var i :| 0 <= i < n && Returns(ls[..n][i], call, Reply(true));
        assert Returns(ls[i], call, Reply(true));
      } else if Returns(ls[n], call, Reply(true)) {
        assert call in Exec(c, Started, ls).value.allowed;
      } else {
        assert forall i :: 0 <= i < n ==> ls[..n][i] == ls[i];
      }
    }
  }

  /** The records of a history. */
  function Records(h: seq<Event>): seq<Event>
    decreases |h|
  {
    if h == [] then [] else Records(h[..|h| - 1]) + if h[|h| - 1].Allow? then [] else [h[|h| - 1]]
  }

  /** What a step reports: a success for any answer, a failure for no answer, a timeout or an error,
      nothing for a cancelled or panicked call. */
  function Reported(l: Step): seq<Event> {
    match l
    case Return(call, Reply(_), _) => [Success(call)]
    case Return(call, NoReply, now) => [Failure(now, call)]
    case Return(call, TimedOut, now) => [Failure(now, call)]
    case Return(call, Errored(_), now) => [Failure(now, call)]
    case _ => []
  }

  function Reports(ls: seq<Step>): seq<Event>
    decreases |ls|
  {
    if ls == [] then [] else Reports(ls[..|ls| - 1]) + Reported(ls[|ls| - 1])
  }

  lemma HistoryGrows(c: Config, s: Instance, l: Step)
    requires Enabled(s, l)
    ensures Next(c, s, l).history ==
      s.history + if l.Ask? && !s.failed then [Allow(l.now, l.call)] else Reported(l)
  {
  }

  lemma RecordsGrow(h: seq<Event>, l: Step)
    ensures Records(h + Reported(l)) == Records(h) + Reported(l)
  {
    if Reported(l) == [] {
      assert h + [] == h;
    } else {
      assert Reported(l) == [Reported(l)[0]];
      RecordsSnoc(h, Reported(l)[0]);
    }
  }

  lemma RecordsSnoc(h: seq<Event>, ev: Event)
    ensures Records(h + [ev]) == Records(h) + if ev.Allow? then [] else [ev]
  {
    assert (h + [ev])[..|h|] == h;
  }

  /** The breaker's records are what the calls of the run reported, in the order they came back. */
  lemma {:induction false} RecordsAreReports(c: Config, ls: seq<Step>)
    requires Exec(c, Started, ls).Some?
    ensures Records(Exec(c, Started, ls).value.history) == Reports(ls)
    decreases |ls|
  {
    if ls != [] {
      var p, l := ls[..|ls| - 1], ls[|ls| - 1];
      var s := Exec(c, Started, p).value;
      RecordsAreReports(c, p);
      HistoryGrows(c, s, l);
      if l.Ask? && !s.failed {
        RecordsSnoc(s.history, Allow(l.now, l.call));
      } else {
        RecordsGrow(s.history, l);
      }
    }
  }

  predicate FoundExited(l: Step) { l.Return? && l.outcome == Errored(true) }

  /** A restart loop is started exactly when a call finds the process exited for the first time. */
  lemma {:induction false} RestartsExactlyOnExit(c: Config, ls: seq<Step>)
    requires Exec(c, Started, ls).Some?
    ensures var s := Exec(c, Started, ls).value;
      && (s.restarting <==> exists i :: 0 <= i < |ls| && FoundExited(ls[i]))
      && s.restarts == (if s.restarting then 1 else 0)
      && (s.failed <==> exists i :: 0 <= i < |ls| && ls[i].GiveUp?)
      && (s.failed ==> s.restarting)
    decreases |ls|
  {
    if ls != [] {
      var p, l := ls[..|ls| - 1], ls[|ls| - 1];
      RestartsExactlyOnExit(c, p);
      var m := Exec(c, Started, p).value;
      HappenedSnoc(p, ls, FoundExited);
      HappenedSnoc(p, ls, (k: Step) => k.GiveUp?);
      assert m.restarting <==> exists i :: 0 <= i < |p| && FoundExited(p[i]);
    }
  }

  lemma HappenedSnoc(p: seq<Step>, ls: seq<Step>, f: Step -> bool)
    requires ls != [] && p == ls[..|ls| - 1]
    ensures (exists i :: 0 <= i < |ls| && f(ls[i])) <==> (exists i :: 0 <= i < |p| && f(p[i])) || f(ls[|ls| - 1])
  {
    if i :| 0 <= i < |p| && f(p[i]) {
      assert f(ls[i]);
    }
    if i :| 0 <= i < |ls| && f(ls[i]) {
      assert i < |p| ==> f(p[i]);
    }
  }

  ghost function CameBack(ls: seq<Step>): set<nat>
    decreases |ls|
  {
    if ls == [] then {} else CameBack(ls[..|ls| - 1]) + if ls[|ls| - 1].Return? then {ls[|ls| - 1].call} else {}
  }

  /** The calls that are out are those admitted that have not come back. */
  lemma {:induction false} OutExactly(c: Config, ls: seq<Step>)
    requires Exec(c, Started, ls).Some?
    ensures var s := Exec(c, Started, ls).value;
      s.inFlight == Admitted(c, s.history) - CameBack(ls) && CameBack(ls) <= s.used
    decreases |ls|
  {
    if ls == [] {
      assert Admitted(c, []) == {};
    } else {
      var p, l := ls[..|ls| - 1], ls[|ls| - 1];
      OutExactly(c, p);
      EveryRunIsDisciplined(c, p);
      OutStep(c, Exec(c, Started, p).value, l, CameBack(p));
    }
  }

  lemma OutStep(c: Config, s: Instance, l: Step, back: set<nat>)
    requires Enabled(s, l) && CallInv(c, s) && s.inFlight == Admitted(c, s.history) - back && back <= s.used
    ensures var t, back' := Next(c, s, l), back + if l.Return? then {l.call} else {};
      t.inFlight == Admitted(c, t.history) - back' && back' <= t.used
  {
    match l
    case Ask(call, now) => OutAsk(c, s, call, now, back);
    case Return(_, _, _) => OutReturn(c, s, l, back);
    case GiveUp =>
  }

  lemma OutAsk(c: Config, s: Instance, call: nat, now: int, back: set<nat>)
    requires Enabled(s, Ask(call, now)) && CallInv(c, s) && s.inFlight == Admitted(c, s.history) - back && back <= s.used
    ensures var t := Next(c, s, Ask(call, now)); t.inFlight == Admitted(c, t.history) - back && back <= t.used
  {
    HistorySnoc(c, s.history, Allow(now, call));
  }

  lemma RecordsAdmitNobody(c: Config, h: seq<Event>, l: Step)
    ensures Admitted(c, h + Reported(l)) == Admitted(c, h)
  {
    if Reported(l) == [] {
      assert h + [] == h;
    } else {
      assert Reported(l) == [Reported(l)[0]];
      HistorySnoc(c, h, Reported(l)[0]);
    }
  }

  lemma OutReturn(c: Config, s: Instance, l: Step, back: set<nat>)
    requires l.Return? && Enabled(s, l) && CallInv(c, s) && s.inFlight == Admitted(c, s.history) - back && back <= s.used
    ensures var t, back' := Next(c, s, l), back + {l.call}; t.inFlight == Admitted(c, t.history) - back' && back' <= t.used
  {
    HistoryGrows(c, s, l);
    RecordsAdmitNobody(c, s.history, l);
  }

  // ---------------------------------------------------------------- one probe in flight

  /** `ls` can happen from `s` and the breaker is half-open all along. */
  ghost predicate HalfOpenThroughout(c: Config, s: Instance, ls: seq<Step>) {
    forall k :: 0 <= k <= |ls| ==> Exec(c, s, ls[..k]).Some? && Exec(c, s, ls[..k]).value.breaker.state == HalfOpen
  }

  /** However the half-open epoch that began in `s` goes on, at most one of its own calls is out;
      `out` are the calls that were out before it began. */
  ghost predicate AtMostOneProbe(c: Config, s: Instance, out: set<nat>) {
    forall ls :: HalfOpenThroughout(c, s, ls) ==> Exec(c, s, ls).Some? && |Exec(c, s, ls).value.inFlight - out| <= 1
  }

  /** The epoch's calls that are out and the unused token are at most one; with earlier calls
      out there is no token. */
  ghost predicate ProbeInv(s: Instance, out: set<nat>) {
    && |s.inFlight - out| + (if s.breaker.halfOpenAllowed then 1 else 0) <= 1
    && (out != {} ==> !s.breaker.halfOpenAllowed)
    && s.breaker.consecutiveSuccesses >= 0
  }

  lemma ProbeAsk(c: Config, s: Instance, call: nat, now: int, out: set<nat>)
    requires ProbeInv(s, out) && Enabled(s, Ask(call, now)) && s.breaker.state == HalfOpen
    ensures ProbeInv(Next(c, s, Ask(call, now)), out)
  {
    var rest := s.inFlight - out;
    var now' := Next(c, s, Ask(call, now)).inFlight - out;
    if !s.failed && s.breaker.halfOpenAllowed {
      assert rest == {};
      assert now' <= {call};
      Smaller(now', {call});
    } else {
      assert now' == rest;
    }
  }

  lemma ProbeReturn(c: Config, s: Instance, call: nat, o: Outcome, now: int, out: set<nat>)
    requires ProbeInv(s, out) && Enabled(s, Return(call, o, now)) && (out == {} || c.successThreshold <= 1)
    requires s.breaker.state == HalfOpen && Next(c, s, Return(call, o, now)).breaker.state == HalfOpen
    ensures ProbeInv(Next(c, s, Return(call, o, now)), out)
  {
    Without(s.inFlight, call, out);
    var b := s.breaker;
    var b' := Next(c, s, Return(call, o, now)).breaker;
    assert b' == match Recorded(call, o, now) case None => b case Some(ev) => CircuitBreakers.Step(c, b, ev);
    if out != {} {
      assert b' == b;
    }
  }

  lemma Without(calls: set<nat>, call: nat, out: set<nat>)
    requires call in calls
    ensures |(calls - {call}) - out| <= |calls - out|
    ensures out == {} ==> |(calls - {call}) - out| == |calls - out| - 1
  {
    var rest := calls - out;
    assert (calls - {call}) - out == rest - {call};
    if call in rest {
      assert rest == (rest - {call}) + {call};
    }
  }

  lemma ProbeStep(c: Config, s: Instance, l: Step, out: set<nat>)
    requires ProbeInv(s, out) && Enabled(s, l) && (out == {} || c.successThreshold <= 1)
    requires s.breaker.state == HalfOpen && Next(c, s, l).breaker.state == HalfOpen
    ensures ProbeInv(Next(c, s, l), out)
  {
    match l
    case Ask(call, now) => ProbeAsk(c, s, call, now, out);
    case Return(call, o, now) => ProbeReturn(c, s, call, o, now, out);
    case GiveUp =>
  }

  lemma Smaller(a: set<nat>, b: set<nat>)
    requires a <= b
    ensures |a| <= |b|
  {
    assert b == a + (b - a);
  }

  lemma {:induction false} ProbeRun(c: Config, s: Instance, ls: seq<Step>, out: set<nat>)
    requires ProbeInv(s, out) && (out == {} || c.successThreshold <= 1) && HalfOpenThroughout(c, s, ls)
    ensures Exec(c, s, ls).Some? && ProbeInv(Exec(c, s, ls).value, out)
    decreases |ls|
  {
    assert ls[..|ls|] == ls;
    if ls != [] {
      var p := ls[..|ls| - 1];
      assert forall k :: 0 <= k <= |p| ==> p[..k] == ls[..k];
      ProbeRun(c, s, p, out);
      ProbeStep(c, Exec(c, s, p).value, ls[|ls| - 1], out);
    }
  }

  lemma UnusedCall(used: set<nat>) returns (n: nat)
    ensures forall m :: m in used ==> m < n
    decreases |used|
  {
    if used == {} {
      n := 0;
    } else {
      var m :| m in used;
      n := UnusedCall(used - {m});
      n := if n > m then n else m + 1;
      assert forall k :: k in used ==> k == m || k in used - {m};
    }
  }

  /** The state in which an open breaker has just admitted its probe. */
  ghost predicate ProbeStarts(c: Config, s: Instance, call: nat, now: int) {
    && s.breaker.state == Open && !s.failed && s.inFlight <= s.used
    && Enabled(s, Ask(call, now)) && Admits(c, s.breaker, Allow(now, call))
  }

  /** An earlier call that is still out comes back with a success, and a second probe goes out. */
  lemma LateSuccessLetsTwoOut(c: Config, s: Instance, call: nat, now: int)
    requires ProbeStarts(c, s, call, now) && s.inFlight != {} && c.successThreshold > 1
    ensures !AtMostOneProbe(c, Next(c, s, Ask(call, now)), s.inFlight)
  {
    var s0 := Next(c, s, Ask(call, now));
    var late :| late in s.inFlight;
    var second := UnusedCall(s0.used);
    var back, ask := Return(late, Reply(true), now), Ask(second, now);
    TwoOut(c, s, call, now, late, second);
    TwoSteps(c, s0, back, ask);
    TwoAreTooMany(c, s0, [back, ask], s.inFlight);
  }

  lemma TwoAreTooMany(c: Config, s: Instance, ls: seq<Step>, out: set<nat>)
    requires HalfOpenThroughout(c, s, ls) && Exec(c, s, ls).Some? && |Exec(c, s, ls).value.inFlight - out| >= 2
    ensures !AtMostOneProbe(c, s, out)
  {
  }

  lemma TwoSteps(c: Config, s: Instance, l: Step, k: Step)
    requires Enabled(s, l) && Enabled(Next(c, s, l), k)
    requires s.breaker.state == Next(c, s, l).breaker.state == Next(c, Next(c, s, l), k).breaker.state == HalfOpen
    ensures HalfOpenThroughout(c, s, [l, k]) && Exec(c, s, [l, k]) == Some(Next(c, Next(c, s, l), k))
  {
    RunSnoc(c, s, [], l);
    RunSnoc(c, s, [] + [l], k);
    assert [] + [l] == [l] && [l] + [k] == [l, k];
    HalfOpenPair(c, s, [l, k], Next(c, s, l), Next(c, Next(c, s, l), k));
  }

  lemma HalfOpenPair(c: Config, s: Instance, ls: seq<Step>, m: Instance, t: Instance)
    requires |ls| == 2 && Exec(c, s, [ls[0]]) == Some(m) && Exec(c, s, ls) == Some(t)
    requires s.breaker.state == m.breaker.state == t.breaker.state == HalfOpen
    ensures HalfOpenThroughout(c, s, ls)
  {
    assert ls[..0] == [] && ls[..1] == [ls[0]] && ls[..2] == ls;
  }

  lemma TwoOut(c: Config, s: Instance, call: nat, now: int, late: nat, second: nat)
    requires ProbeStarts(c, s, call, now) && late in s.inFlight && c.successThreshold > 1
    requires second !in s.used && second != call
    ensures var s1 := Next(c, Next(c, s, Ask(call, now)), Return(late, Reply(true), now));
      && s1.breaker.state == HalfOpen && Enabled(s1, Ask(second, now))
      && Next(c, s1, Ask(second, now)).breaker.state == HalfOpen
      && |Next(c, s1, Ask(second, now)).inFlight - s.inFlight| >= 2
  {
    var s1 := Next(c, Next(c, s, Ask(call, now)), Return(late, Reply(true), now));
    assert s1.breaker == Breaker(HalfOpen, 0, 1, s.breaker.lastFailure, true);
    assert s1.inFlight == s.inFlight + {call} - {late};
    var probes := Next(c, s1, Ask(second, now)).inFlight - s.inFlight;
    assert {call, second} <= probes;
    Smaller({call, second}, probes);
  }

  /** In every run of callPlugin, cancelled and panicked calls included: when an open breaker
      admits a probe, at most one of the epoch's calls is out however it goes on, exactly when
      nobody else is out at that moment or a single success closes the breaker. */
  lemma OneProbeIff(c: Config, ls: seq<Step>, call: nat, now: int)
    requires Exec(c, Started, ls).Some? && ProbeStarts(c, Exec(c, Started, ls).value, call, now)
    ensures var s := Exec(c, Started, ls).value;
      AtMostOneProbe(c, Next(c, s, Ask(call, now)), s.inFlight) <==> s.inFlight == {} || c.successThreshold <= 1
  {
    var s := Exec(c, Started, ls).value;
    var s0 := Next(c, s, Ask(call, now));
    if s.inFlight == {} || c.successThreshold <= 1 {
      assert s0.inFlight - s.inFlight == {call};
      forall more | HalfOpenThroughout(c, s0, more)
        ensures Exec(c, s0, more).Some? && |Exec(c, s0, more).value.inFlight - s.inFlight| <= 1
      {
        ProbeRun(c, s0, more, s.inFlight);
      }
    } else {
      LateSuccessLetsTwoOut(c, s, call, now);
    }
  }

  /** So if nobody is out when the epoch begins, at most one call is out throughout it. */
  lemma OneProbeAfterQuiescence(c: Config, ls: seq<Step>, call: nat, now: int, more: seq<Step>)
    requires Exec(c, Started, ls).Some? && ProbeStarts(c, Exec(c, Started, ls).value, call, now)
    requires Exec(c, Started, ls).value.inFlight == {}
    requires HalfOpenThroughout(c, Next(c, Exec(c, Started, ls).value, Ask(call, now)), more)
    ensures var t := Exec(c, Next(c, Exec(c, Started, ls).value, Ask(call, now)), more);
      t.Some? && |t.value.inFlight| <= 1
  {
    OneProbeIff(c, ls, call, now);
    var t := Exec(c, Next(c, Exec(c, Started, ls).value, Ask(call, now)), more).value;
    assert t.inFlight - {} == t.inFlight;
  }

  // ---------------------------------------------------------------- a lost probe

  /** Healthy's test of one instance whose process is alive. */
  predicate Healthy(s: Instance) { !s.failed && s.breaker.state != Open }

  /** It says that the instance is not given up and its breaker is half-open or would admit a call at
      any time; an open breaker is one that would not. */
  lemma HealthyIff(c: Config, s: Instance)
    ensures Healthy(s) <==>
      !s.failed && (s.breaker.state == HalfOpen || forall now, call :: Admits(c, s.breaker, Allow(now, call)))
  {
    assert s.breaker.state == Open ==> !Admits(c, s.breaker, Allow(s.breaker.lastFailure + c.cooldown, 0));
  }

  /** The plugin will never answer again: the probe is spent and nobody is out to report. */
  predicate Lost(s: Instance) { Wedged(s.breaker) && s.inFlight == {} }

  /** From a lost instance no run ever admits a call, decides an allow or starts a restart; the
      instance goes on counting as healthy unless a restart loop already running gives it up. */
  lemma {:induction false} LostDeniesForever(c: Config, s: Instance, ls: seq<Step>)
    requires Lost(s) && Exec(c, s, ls).Some?
    ensures var t := Exec(c, s, ls).value;
      && Lost(t) && t.breaker == s.breaker
      && t.allowed == s.allowed && t.restarts == s.restarts && t.restarting == s.restarting
      && (!s.restarting && !s.failed ==> Healthy(t))
    decreases |ls|
  {
    if ls != [] {
      LostDeniesForever(c, s, ls[..|ls| - 1]);
    }
  }

  /** Some run from `s`, whose steps are not before `from`, admits a call that had not asked yet. */
  ghost predicate Recovers(c: Config, s: Instance, from: int) {
    exists ls, call ::
      NotBefore(from, ls) && Exec(c, s, ls).Some? && call in Exec(c, s, ls).value.inFlight && call !in s.used
  }

  predicate NotBefore(from: int, ls: seq<Step>) {
    forall i :: 0 <= i < |ls| && !ls[i].GiveUp? ==> from <= ls[i].now
  }

  lemma {:induction false} FailedAdmitsNobody(c: Config, s: Instance, ls: seq<Step>)
    requires s.failed && Exec(c, s, ls).Some?
    ensures Exec(c, s, ls).value.failed && Exec(c, s, ls).value.inFlight <= s.inFlight
    decreases |ls|
  {
    if ls != [] {
      FailedAdmitsNobody(c, s, ls[..|ls| - 1]);
    }
  }

  lemma WedgedCanRecover(c: Config, s: Instance, call: nat, from: int)
    requires Wedged(s.breaker) && !s.failed && call in s.inFlight
    ensures Recovers(c, s, from)
  {
    var next := UnusedCall(s.used);
    var back := Return(call, NoReply, from);
    var ask := Ask(next, from + if c.cooldown < 0 then 1 else c.cooldown + 1);
    RunSnoc(c, s, [], back);
    RunSnoc(c, s, [] + [back], ask);
    var ls := [] + [back] + [ask];
    assert NotBefore(from, ls);
    assert next in Exec(c, s, ls).value.inFlight;
  }

  /** From whatever time on, a wedged instance admits a later call in some run exactly when some
      call is still out and the instance has not been given up. */
  lemma WedgedRecoversIff(c: Config, s: Instance, from: int)
    requires Wedged(s.breaker) && s.inFlight <= s.used
    ensures Recovers(c, s, from) <==> s.inFlight != {} && !s.failed
  {
    if s.inFlight != {} && !s.failed {
      var call :| call in s.inFlight;
      WedgedCanRecover(c, s, call, from);
    } else {
      forall ls | Exec(c, s, ls).Some? ensures Exec(c, s, ls).value.inFlight <= s.used {
        if s.failed {
          FailedAdmitsNobody(c, s, ls);
        } else {
          LostDeniesForever(c, s, ls);
        }
      }
    }
  }

  /** Two roles race once the cooldown is over: this plugin's probe is out when the other role
      allows, so its call is cancelled. */
  const LostRace: seq<Step> := [Ask(0, 0), Return(0, NoReply, 1), Ask(1, 20), Return(1, Cancelled, 21)]

  /** A run that loses a plugin: one failure and one cancelled probe suffice. */
  lemma CancelledProbeLosesPlugin(c: Config)
    requires c == Config(1, 1, 10)
    ensures Exec(c, Started, LostRace).Some?
    ensures Lost(Exec(c, Started, LostRace).value) && Healthy(Exec(c, Started, LostRace).value)
  {
    var r := LostRace;
    RunSnoc(c, Started, [], r[0]);
    RunSnoc(c, Started, [] + [r[0]], r[1]);
    RunSnoc(c, Started, [] + [r[0]] + [r[1]], r[2]);
    RunSnoc(c, Started, [] + [r[0]] + [r[1]] + [r[2]], r[3]);
    assert r == [] + [r[0]] + [r[1]] + [r[2]] + [r[3]];
  }

  // ---------------------------------------------------------------- the object

  datatype Label = Allowed | Denied | Failed | CircuitOpen | Canceled | Timeout | Error

  function LabelOf(o: Outcome): Label {
    match o
    case Reply(allow) => if allow then Allowed else Denied
    case Cancelled => Canceled
    case TimedOut => Timeout
    case _ => Error
  }

  /** The label tells an allow, a deny, a cancelled call, a timeout and an error apart. */
  lemma LabelTells(o: Outcome)
    ensures LabelOf(o) == Allowed <==> o == Reply(true)
    ensures LabelOf(o) == Denied <==> o == Reply(false)
    ensures LabelOf(o) == Canceled <==> o == Cancelled
    ensures LabelOf(o) == Timeout <==> o == TimedOut
    ensures LabelOf(o) == Error <==> o == NoReply || o == Panicked || o.Errored?
  {
  }

  class PluginInstance {
    const breaker: CircuitBreaker
    var failed: bool
    var restarting: bool
    ghost var calls: Instance

    ghost predicate Valid()
      reads this, breaker
    {
      calls.breaker == breaker.View() && calls.failed == failed && calls.restarting == restarting
    }

    constructor (cfg: Config)
      ensures Valid() && fresh(breaker) && breaker.cfg == cfg && calls == Started
    {
      breaker := new CircuitBreaker(cfg);
      failed, restarting, calls := false, false, Started;
    }

    /** callPlugin up to the plugin's own call: the failed flag, then the breaker. */
    method Ask(now: int, ghost call: nat) returns (refused: Option<Label>)
      requires Valid() && Enabled(calls, Step.Ask(call, now))
      modifies this, breaker
      ensures Valid() && calls == Next(breaker.cfg, old(calls), Step.Ask(call, now))
      ensures refused.None? <==> !old(failed) && Admits(breaker.cfg, old(breaker.View()), Allow(now, call))
      ensures refused.Some? ==> refused.value == if old(failed) then Failed else CircuitOpen
    {
      ghost var before := calls;
      calls := Next(breaker.cfg, before, Step.Ask(call, now));
      if failed {
        return Some(Failed);
      }
      var ok := breaker.Allow(now, call);
      return if ok then None else Some(CircuitOpen);
    }

    /** callPlugin from the plugin's answer on; `restart` says that a restart loop is started. */
    method Return(now: int, o: Outcome, ghost call: nat) returns (verdict: Label, restart: bool)
      requires Valid() && Enabled(calls, Step.Return(call, o, now))
      modifies this, breaker
      ensures Valid() && calls == Next(breaker.cfg, old(calls), Step.Return(call, o, now))
      ensures verdict == LabelOf(o)
      ensures verdict == Allowed <==> o == Reply(true)
      ensures call !in old(calls.allowed) ==> (verdict == Allowed <==> call in calls.allowed)
      ensures restart <==> o == Errored(true) && !old(failed) && !old(restarting)
      ensures restart <==> calls.restarts > old(calls.restarts)
    {
      ghost var before := calls;
      calls := Next(breaker.cfg, before, Step.Return(call, o, now));
      restart := false;
      match o
      case Reply(allow) =>
        breaker.RecordSuccess(call);
        verdict := if allow then Allowed else Denied;
      case NoReply =>
        breaker.RecordFailure(now, call);
        verdict := Error;
      case Cancelled =>
        verdict := Canceled;
      case Panicked =>
        verdict := Error;
      case TimedOut =>
        breaker.RecordFailure(now, call);
        verdict := Timeout;
      case Errored(exited) =>
        breaker.RecordFailure(now, call);
        if exited && !failed && !restarting {
          restarting := true;
          restart := true;
        }
        verdict := Error;
    }
  }
}
