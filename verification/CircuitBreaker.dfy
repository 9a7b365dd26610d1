/**
  The per-plugin circuit breaker.  A history is the list of its calls in lock order:
  Allow questions and the records of finished calls, which may come late.  The
  theorems describe the breaker by what is in its history, not by its counters.
 */
module CircuitBreakers {
  import opened Wrappers

  datatype CBState = Closed | HalfOpen | Open

  datatype Config = Config(failureThreshold: int, successThreshold: int, cooldown: int)

  datatype Breaker = Breaker(
    state: CBState,
    consecutiveFailures: int,
    consecutiveSuccesses: int,
    lastFailure: int,
    halfOpenAllowed: bool)

  /** `call` names the plugin call that asks or reports. */
  datatype Event =
    | Allow(now: int, call: nat)
    | Success(call: nat)
    | Failure(now: int, call: nat)

  const Fresh := Breaker(Closed, 0, 0, 0, false)

  function Moved(b: Breaker, to: CBState): Breaker {
    b.(state := to, consecutiveFailures := 0, consecutiveSuccesses := 0, halfOpenAllowed := to == HalfOpen)
  }

  /** Whether the call asking in `ev` may proceed. */
  predicate Admits(c: Config, b: Breaker, ev: Event) {
    ev.Allow? && match b.state
      case Closed => true
      case Open => ev.now - b.lastFailure > c.cooldown
      case HalfOpen => b.halfOpenAllowed
  }

  function Step(c: Config, b: Breaker, ev: Event): Breaker {
    match ev
    case Allow(now, _) =>
      if !Admits(c, b, ev) then b
      else if b.state == Open then Moved(b, HalfOpen).(halfOpenAllowed := false)
      else if b.state == HalfOpen then b.(halfOpenAllowed := false)
      else b
    case Success(_) =>
      var b1 := b.(consecutiveFailures := 0);
      if b.state != HalfOpen then b1
      else
        var b2 := b1.(consecutiveSuccesses := b1.consecutiveSuccesses + 1);
        if b2.consecutiveSuccesses >= c.successThreshold then Moved(b2, Closed)
        else b2.(halfOpenAllowed := true)
    case Failure(now, _) =>
      var b1 := b.(consecutiveSuccesses := 0, consecutiveFailures := b.consecutiveFailures + 1, lastFailure := now);
      if b.state == HalfOpen || (b.state == Closed && b1.consecutiveFailures >= c.failureThreshold)
      then Moved(b1, Open) else b1
  }

  /** The breaker after the history `h`, starting from `b`. */
  function Exec(c: Config, b: Breaker, h: seq<Event>): Breaker
    decreases |h|
  {
    if h == [] then b else Step(c, Exec(c, b, h[..|h| - 1]), h[|h| - 1])
  }

  function After(c: Config, h: seq<Event>): Breaker { Exec(c, Fresh, h) }

  function Max(a: int, b: int): int { if a < b then b else a }

  lemma ExecSnoc(c: Config, b: Breaker, h: seq<Event>, ev: Event)
    ensures Exec(c, b, h + [ev]) == Step(c, Exec(c, b, h), ev)
  {
    assert (h + [ev])[..|h|] == h;
  }

  // ---------------------------------------------------------------- opening

  function CountFailures(h: seq<Event>): nat
    decreases |h|
  {
    if h == [] then 0 else CountFailures(h[..|h| - 1]) + if h[|h| - 1].Failure? then 1 else 0
  }

  /** Since position `i` the breaker has been closed and no success was recorded, and `i`
      is where that began: the start, the moment it closed, or a recorded success. */
  ghost predicate FailureWindow(c: Config, h: seq<Event>, i: nat) {
    && i <= |h|
    && (forall k :: i <= k <= |h| ==> After(c, h[..k]).state == Closed)
    && (forall k :: i <= k < |h| ==> !h[k].Success?)
    && (i == 0 || After(c, h[..i - 1]).state != Closed || h[i - 1].Success?)
  }

  lemma {:induction false} FailuresCounted(c: Config, h: seq<Event>, i: nat)
    requires FailureWindow(c, h, i)
    ensures After(c, h).consecutiveFailures == CountFailures(h[i..])
    decreases |h|
  {
    assert h[..|h|] == h;
    if |h| == i {
      assert h[..i] == h;
      if i > 0 {
        assert h[..i - 1] == h[..|h| - 1];
      }
    } else {
      var p := h[..|h| - 1];
      assert forall k :: i <= k <= |p| ==> p[..k] == h[..k];
      if i > 0 {
        assert p[..i - 1] == h[..i - 1];
      }
      FailuresCounted(c, p, i);
      assert h[i..][..|h[i..]| - 1] == p[i..];
    }
  }

  /** A closed breaker opens on a failure exactly when it is the max(1, failureThreshold)-th
      failure with no success in between since it closed. */
  lemma OpensExactlyAtThreshold(c: Config, h: seq<Event>, i: nat, now: int, call: nat)
    requires FailureWindow(c, h, i)
    ensures After(c, h + [Failure(now, call)]).state ==
      if CountFailures(h[i..]) + 1 >= Max(1, c.failureThreshold) then Open else Closed
  {
    FailuresCounted(c, h, i);
    assert h[..|h|] == h;
    ExecSnoc(c, Fresh, h, Failure(now, call));
  }

  /** Every closed history has such a window, so the count is always defined; and its
      failures stay below the threshold. */
  lemma {:induction false} ClosedHasWindow(c: Config, h: seq<Event>) returns (i: nat)
    requires After(c, h).state == Closed
    ensures FailureWindow(c, h, i) && CountFailures(h[i..]) < Max(1, c.failureThreshold)
    decreases |h|
  {
    assert h[..|h|] == h;
    if h == [] || h[|h| - 1].Success? || After(c, h[..|h| - 1]).state != Closed {
      i := |h|;
      assert h[i..] == [];
    } else {
      var p := h[..|h| - 1];
      i := ClosedHasWindow(c, p);
      assert forall k :: i <= k <= |p| ==> p[..k] == h[..k];
      if i > 0 {
        assert p[..i - 1] == h[..i - 1];
      }
      FailuresCounted(c, p, i);
      assert h[i..][..|h[i..]| - 1] == p[i..];
    }
  }

  // ---------------------------------------------------------------- staying open

  /** The time of the latest recorded failure, late ones included. */
  function LatestFailure(h: seq<Event>): Option<int>
    decreases |h|
  {
    if h == [] then None
    else if h[|h| - 1].Failure? then Some(h[|h| - 1].now)
    else LatestFailure(h[..|h| - 1])
  }

  lemma {:induction false} OpenHasFailed(c: Config, h: seq<Event>)
    ensures LatestFailure(h).Some? ==> After(c, h).lastFailure == LatestFailure(h).value
    ensures LatestFailure(h).None? ==> After(c, h).state == Closed
    decreases |h|
  {
    if h != [] {
      OpenHasFailed(c, h[..|h| - 1]);
    }
  }

  /** An open breaker admits a call exactly when more than the cooldown has passed since the
      latest recorded failure; otherwise it stays open. */
  lemma {:induction false} OpenAdmitsOnlyAfterCooldown(c: Config, h: seq<Event>, now: int, call: nat)
    requires After(c, h).state == Open
    ensures LatestFailure(h).Some?
    ensures Admits(c, After(c, h), Allow(now, call)) <==> now - LatestFailure(h).value > c.cooldown
    ensures After(c, h + [Allow(now, call)]).state ==
      if now - LatestFailure(h).value > c.cooldown then HalfOpen else Open
  {
    OpenHasFailed(c, h);
    ExecSnoc(c, Fresh, h, Allow(now, call));
  }

  /** A failure recorded while open, from a call of any epoch, restarts the cooldown. */
  lemma {:induction false} LateFailurePushesWindow(c: Config, h: seq<Event>, late: Event, now: int, call: nat)
    requires After(c, h).state == Open && late.Failure?
    ensures After(c, h + [late]).state == Open
    ensures Admits(c, After(c, h + [late]), Allow(now, call)) <==> now - late.now > c.cooldown
  {
    ExecSnoc(c, Fresh, h, late);
  }

  /** A closed breaker admits everybody, and neither that nor a success opens it. */
  lemma ClosedAdmits(c: Config, h: seq<Event>, now: int, call: nat)
    requires After(c, h).state == Closed
    ensures Admits(c, After(c, h), Allow(now, call)) && After(c, h + [Allow(now, call)]) == After(c, h)
    ensures After(c, h + [Success(call)]).state == Closed
  {
    ExecSnoc(c, Fresh, h, Allow(now, call));
    ExecSnoc(c, Fresh, h, Success(call));
  }

  /** Questions not later than the cooldown after `since`, and records of failures not before it. */
  ghost predicate Within(c: Config, more: seq<Event>, since: int) {
    forall k :: 0 <= k < |more| ==>
      (more[k].Allow? ==> more[k].now - since <= c.cooldown) && (more[k].Failure? ==> more[k].now >= since)
  }

  lemma {:induction false} StaysOpen(c: Config, b: Breaker, more: seq<Event>, since: int)
    requires b.state == Open && b.lastFailure >= since && Within(c, more, since)
    ensures Exec(c, b, more).state == Open && Exec(c, b, more).lastFailure >= since
    decreases |more|
  {
    if more != [] {
      StaysOpen(c, b, more[..|more| - 1], since);
    }
  }

  lemma {:induction false} ExecAppend(c: Config, b: Breaker, g: seq<Event>, h: seq<Event>)
    ensures Exec(c, b, g + h) == Exec(c, Exec(c, b, g), h)
    decreases |h|
  {
    if h == [] {
      assert g + h == g;
    } else {
      ExecAppend(c, b, g, h[..|h| - 1]);
      assert (g + h)[..|g + h| - 1] == g + h[..|h| - 1];
    }
  }

  /** Whenever a recorded failure leaves the breaker open, every question is denied until more than
      the cooldown has passed since, whatever else is recorded meanwhile. */
  lemma OpenDeniesUntilCooldown(c: Config, h: seq<Event>, since: int, call: nat, more: seq<Event>, ask: Event)
    requires After(c, h + [Failure(since, call)]).state == Open && Within(c, more, since)
    requires ask.Allow? && ask.now - since <= c.cooldown
    ensures !Admits(c, After(c, h + [Failure(since, call)] + more), ask)
    ensures After(c, h + [Failure(since, call)] + more).state == Open
  {
    var g := h + [Failure(since, call)];
    ExecSnoc(c, Fresh, h, Failure(since, call));
    ExecAppend(c, Fresh, g, more);
    StaysOpen(c, After(c, g), more, since);
  }

  /** A failure recorded while half-open opens the breaker again, and starts a new cooldown. */
  lemma FailedProbeReopens(c: Config, h: seq<Event>, since: int, call: nat, more: seq<Event>, ask: Event)
    requires After(c, h).state == HalfOpen
    ensures After(c, h + [Failure(since, call)]).state == Open
    ensures Within(c, more, since) && ask.Allow? && ask.now - since <= c.cooldown ==>
      !Admits(c, After(c, h + [Failure(since, call)] + more), ask)
  {
    ExecSnoc(c, Fresh, h, Failure(since, call));
    if Within(c, more, since) && ask.Allow? && ask.now - since <= c.cooldown {
      OpenDeniesUntilCooldown(c, h, since, call, more, ask);
    }
  }

  // ---------------------------------------------------------------- half-open epochs

  /** A half-open epoch began with the call admitted at `h[i - 1]` and still lasts. */
  ghost predicate Epoch(c: Config, h: seq<Event>, i: nat) {
    && 1 <= i <= |h|
    && After(c, h[..i - 1]).state == Open && Admits(c, After(c, h[..i - 1]), h[i - 1])
    && forall k :: i <= k <= |h| ==> After(c, h[..k]).state == HalfOpen
  }

  /** The calls admitted from position `i` on. */
  function Admissions(c: Config, h: seq<Event>, i: nat): nat
    requires i <= |h|
    decreases |h|
  {
    if |h| == i then 0
    else
      Admissions(c, h[..|h| - 1], i) + if Admits(c, After(c, h[..|h| - 1]), h[|h| - 1]) then 1 else 0
  }

  function CountSuccesses(h: seq<Event>): nat
    decreases |h|
  {
    if h == [] then 0 else CountSuccesses(h[..|h| - 1]) + if h[|h| - 1].Success? then 1 else 0
  }

  lemma EpochPrefix(c: Config, h: seq<Event>, i: nat)
    requires Epoch(c, h, i) && i < |h|
    ensures Epoch(c, h[..|h| - 1], i)
  {
    var p := h[..|h| - 1];
    assert forall k :: i <= k <= |p| ==> p[..k] == h[..k];
    assert p[..i - 1] == h[..i - 1];
  }

  /** What a half-open breaker's fields say about its epoch. */
  lemma {:induction false} EpochCounted(c: Config, h: seq<Event>, i: nat)
    requires Epoch(c, h, i)
    ensures After(c, h).consecutiveSuccesses == CountSuccesses(h[i..])
    ensures Admissions(c, h, i - 1) + (if After(c, h).halfOpenAllowed then 1 else 0) <= 1 + CountSuccesses(h[i..])
    ensures CountSuccesses(h[i..]) < Max(1, c.successThreshold)
    decreases |h|
  {
    assert h[..|h|] == h;
    var p := h[..|h| - 1];
    if |h| == i {
      assert p == h[..i - 1];
      assert h[i..] == [];
    } else {
      EpochPrefix(c, h, i);
      EpochCounted(c, p, i);
      assert h[i..][..|h[i..]| - 1] == p[i..];
      assert p == h[..|h| - 1];
    }
  }

  /** In every run, late records included: each half-open epoch admits at most
      max(1, successThreshold) calls, and admissions plus an unused token never exceed one
      more than the successes recorded in it. */
  lemma EpochBudget(c: Config, h: seq<Event>, i: nat)
    requires Epoch(c, h, i)
    ensures Admissions(c, h, i - 1) <= Max(1, c.successThreshold)
    ensures Admissions(c, h, i - 1) + (if After(c, h).halfOpenAllowed then 1 else 0) <= 1 + CountSuccesses(h[i..])
  {
    EpochCounted(c, h, i);
  }

  /** Every half-open history is in such an epoch. */
  lemma {:induction false} HalfOpenHasEpoch(c: Config, h: seq<Event>) returns (i: nat)
    requires After(c, h).state == HalfOpen
    ensures Epoch(c, h, i)
    decreases |h|
  {
    assert h[..|h|] == h;
    var p := h[..|h| - 1];
    if After(c, p).state == HalfOpen {
      i := HalfOpenHasEpoch(c, p);
      assert forall k :: i <= k <= |p| ==> p[..k] == h[..k];
      assert p[..i - 1] == h[..i - 1];
    } else {
      i := |h|;
    }
  }

  ghost predicate AdmittedAt(c: Config, h: seq<Event>, m: nat)
    requires m < |h|
  {
    Admits(c, After(c, h[..m]), h[m])
  }

  /** A success is recorded at `k` and nobody admitted since. */
  ghost predicate TokenFrom(c: Config, h: seq<Event>, k: nat) {
    k < |h| && h[k].Success? && forall m :: k < m < |h| ==> !AdmittedAt(c, h, m)
  }

  /** The last thing since position `i` that matters to the next probe is a success. */
  ghost predicate TokenOut(c: Config, h: seq<Event>, i: nat) {
    exists k :: i <= k && TokenFrom(c, h, k)
  }

  lemma TokenSnoc(c: Config, h: seq<Event>, k: nat)
    requires k < |h| - 1
    ensures TokenFrom(c, h, k) <==> TokenFrom(c, h[..|h| - 1], k) && !AdmittedAt(c, h, |h| - 1)
  {
    var p := h[..|h| - 1];
    forall m | 0 <= m < |p| ensures AdmittedAt(c, h, m) == AdmittedAt(c, p, m) {
      assert p[..m] == h[..m];
    }
    if TokenFrom(c, p, k) && !AdmittedAt(c, h, |h| - 1) {
      forall m | k < m < |h| ensures !AdmittedAt(c, h, m) {
        if m < |p| {
          assert !AdmittedAt(c, p, m);
        }
      }
    }
    if TokenFrom(c, h, k) {
      forall m | k < m < |p| ensures !AdmittedAt(c, p, m) {
        assert !AdmittedAt(c, h, m);
      }
    }
  }

  lemma TokenStays(c: Config, h: seq<Event>, i: nat)
    requires i < |h| && !h[|h| - 1].Success?
    ensures TokenOut(c, h, i) <==> TokenOut(c, h[..|h| - 1], i) && !AdmittedAt(c, h, |h| - 1)
  {
    var p := h[..|h| - 1];
    if k :| i <= k && TokenFrom(c, h, k) {
      TokenSnoc(c, h, k);
    }
    if k :| i <= k && TokenFrom(c, p, k) {
      TokenSnoc(c, h, k);
    }
  }

  lemma {:induction false} TokenIff(c: Config, h: seq<Event>, i: nat)
    requires Epoch(c, h, i)
    ensures After(c, h).halfOpenAllowed <==> TokenOut(c, h, i)
    decreases |h|
  {
    assert h[..|h|] == h;
    var p := h[..|h| - 1];
    if |h| == i {
      assert p == h[..i - 1];
    } else {
      EpochPrefix(c, h, i);
      TokenIff(c, p, i);
      if h[|h| - 1].Success? {
        assert TokenFrom(c, h, |h| - 1);
      } else {
        TokenStays(c, h, i);
      }
    }
  }

  /** What ends a half-open epoch, and whom it admits, by its history alone: a failure opens the
      breaker, the success that reaches the threshold closes it, nothing else ends it; a call is
      admitted exactly if a success has been recorded and nobody admitted since. */
  lemma HalfOpenExactly(c: Config, h: seq<Event>, i: nat, ev: Event)
    requires Epoch(c, h, i)
    ensures After(c, h + [ev]).state ==
      if ev.Failure? then Open
      else if ev.Success? && CountSuccesses(h[i..]) + 1 >= c.successThreshold then Closed
      else HalfOpen
    ensures Admits(c, After(c, h), ev) <==> ev.Allow? && TokenOut(c, h, i)
  {
    assert h[..|h|] == h;
    ExecSnoc(c, Fresh, h, ev);
    EpochCounted(c, h, i);
    TokenIff(c, h, i);
  }

  // The probes in flight.

  ghost function AdmittedCalls(c: Config, h: seq<Event>, i: nat): set<nat>
    requires i <= |h|
    decreases |h|
  {
    if |h| == i then {}
    else
      AdmittedCalls(c, h[..|h| - 1], i) +
      if Admits(c, After(c, h[..|h| - 1]), h[|h| - 1]) then {h[|h| - 1].call} else {}
  }

  ghost function RecordedCalls(h: seq<Event>): set<nat>
    decreases |h|
  {
    if h == [] then {} else RecordedCalls(h[..|h| - 1]) + if h[|h| - 1].Allow? then {} else {h[|h| - 1].call}
  }

  /** Every success recorded in the epoch is the first record of a call the epoch admitted. */
  ghost predicate OwnRecords(c: Config, h: seq<Event>, i: nat) {
    1 <= i <= |h| && forall k :: i <= k < |h| && h[k].Success? ==>
      h[k].call in AdmittedCalls(c, h[..k], i - 1) && h[k].call !in RecordedCalls(h[i..k])
  }

  lemma OwnRecordsPrefix(c: Config, h: seq<Event>, i: nat)
    requires OwnRecords(c, h, i) && i < |h|
    ensures OwnRecords(c, h[..|h| - 1], i)
    ensures h[|h| - 1].Success? ==>
      h[|h| - 1].call in AdmittedCalls(c, h[..|h| - 1], i - 1) && h[|h| - 1].call !in RecordedCalls(h[i..|h| - 1])
  {
    var p := h[..|h| - 1];
    forall k | i <= k < |p| ensures p[..k] == h[..k] && p[i..k] == h[i..k] {}
  }

  lemma {:induction false} OwnRecordsCounted(c: Config, h: seq<Event>, i: nat)
    requires Epoch(c, h, i) && OwnRecords(c, h, i)
    ensures |AdmittedCalls(c, h, i - 1)| <= Admissions(c, h, i - 1)
    ensures RecordedCalls(h[i..]) <= AdmittedCalls(c, h, i - 1)
    ensures |RecordedCalls(h[i..])| == CountSuccesses(h[i..])
    decreases |h|
  {
    assert h[..|h|] == h;
    var p := h[..|h| - 1];
    if |h| == i {
      assert h[i..] == [];
      assert AdmittedCalls(c, p, i - 1) == {};
    } else {
      EpochPrefix(c, h, i);
      OwnRecordsPrefix(c, h, i);
      OwnRecordsCounted(c, p, i);
      TailSnoc(h, i);
      NoFailureInEpoch(c, h, i);
      if h[|h| - 1].Success? {
        assert h[|h| - 1].call !in RecordedCalls(p[i..]);
      }
    }
  }

  lemma TailSnoc(h: seq<Event>, i: nat)
    requires i < |h|
    ensures h[..|h| - 1][i..] == h[i..|h| - 1]
    ensures RecordedCalls(h[i..]) == RecordedCalls(h[i..|h| - 1]) + if h[|h| - 1].Allow? then {} else {h[|h| - 1].call}
    ensures CountSuccesses(h[i..]) == CountSuccesses(h[i..|h| - 1]) + if h[|h| - 1].Success? then 1 else 0
  {
    assert h[i..][..|h[i..]| - 1] == h[i..|h| - 1];
  }

  lemma NoFailureInEpoch(c: Config, h: seq<Event>, i: nat)
    requires Epoch(c, h, i) && i < |h|
    ensures !h[|h| - 1].Failure?
  {
    assert h[..|h|] == h;
    assert After(c, h[..|h| - 1]).state == HalfOpen;
  }

  /** If every record of the epoch belongs to one of its own calls, at most one probe is in flight. */
  lemma OneProbeInFlight(c: Config, h: seq<Event>, i: nat)
    requires Epoch(c, h, i) && OwnRecords(c, h, i)
    ensures |AdmittedCalls(c, h, i - 1) - RecordedCalls(h[i..])| <= 1
  {
    EpochCounted(c, h, i);
    OwnRecordsCounted(c, h, i);
    var a, r := AdmittedCalls(c, h, i - 1), RecordedCalls(h[i..]);
    assert a == (a - r) + r;
  }

  // ---------------------------------------------------------------- recovering

  /** A half-open epoch without failures, whatever is asked and denied in between. */
  lemma {:induction false} HalfOpenCounts(c: Config, b: Breaker, h: seq<Event>)
    requires b.state == HalfOpen && b.consecutiveSuccesses == 0 && forall k :: 0 <= k < |h| ==> !h[k].Failure?
    ensures Exec(c, b, h).state == if CountSuccesses(h) < Max(1, c.successThreshold) then HalfOpen else Closed
    ensures CountSuccesses(h) < Max(1, c.successThreshold) ==>
      Exec(c, b, h).consecutiveSuccesses == CountSuccesses(h) &&
      (h != [] && h[|h| - 1].Success? ==> Exec(c, b, h).halfOpenAllowed)
    decreases |h|
  {
    if h != [] {
      HalfOpenCounts(c, b, h[..|h| - 1]);
    }
  }

  /** Once an open breaker has admitted a probe, and as long as no failure is recorded: it is
      half-open while fewer than max(1, successThreshold) successes are, and closed from the
      success that reaches it on; short of it, whoever asks next after a success is admitted.
      Calls may ask and be denied in between. */
  lemma ClosesAfterExactRounds(c: Config, b: Breaker, ask: Event, h: seq<Event>, now: int, call: nat)
    requires b.state == Open && Admits(c, b, ask) && forall k :: 0 <= k < |h| ==> !h[k].Failure?
    ensures Exec(c, b, [ask] + h).state == if CountSuccesses(h) < Max(1, c.successThreshold) then HalfOpen else Closed
    ensures CountSuccesses(h) < Max(1, c.successThreshold) && h != [] && h[|h| - 1].Success? ==>
      Admits(c, Exec(c, b, [ask] + h), Allow(now, call))
  {
    ExecAppend(c, b, [ask], h);
    assert [ask][..0] == [];
    HalfOpenCounts(c, Step(c, b, ask), h);
  }

  /** Half-open with its token spent: what a cancelled probe leaves behind. */
  predicate Wedged(b: Breaker) { b.state == HalfOpen && !b.halfOpenAllowed }

  /** After a cancelled probe, while only Allow is called, nobody is admitted and nothing changes. */
  lemma {:induction false} CancelledProbeAdmitsNobody(c: Config, b: Breaker, h: seq<Event>)
    requires Wedged(b) && forall k :: 0 <= k < |h| ==> h[k].Allow?
    ensures Exec(c, b, h) == b
    ensures forall k :: 0 <= k < |h| ==> !Admits(c, Exec(c, b, h[..k]), h[k])
    decreases |h|
  {
    if h != [] {
      var p := h[..|h| - 1];
      CancelledProbeAdmitsNobody(c, b, p);
      assert forall k :: 0 <= k <= |p| ==> p[..k] == h[..k];
    }
  }

  /** A wedged breaker stays wedged throughout a history exactly when no call's outcome is
      recorded in it. */
  lemma {:induction false} WedgedExactlyUntilRecord(c: Config, b: Breaker, h: seq<Event>)
    requires Wedged(b)
    ensures (forall k :: 0 <= k <= |h| ==> Wedged(Exec(c, b, h[..k]))) <==> (forall k :: 0 <= k < |h| ==> h[k].Allow?)
    decreases |h|
  {
    if h != [] {
      var p := h[..|h| - 1];
      WedgedExactlyUntilRecord(c, b, p);
      assert forall k :: 0 <= k <= |p| ==> p[..k] == h[..k];
      assert h[..|h|] == h;
      assert forall k :: 0 <= k < |p| ==> p[k] == h[k];
    }
  }

  /** The calls of LateSuccessDoublesProbes: two calls while closed, one fails and opens the
      breaker, a probe goes out, the other call's success arrives late, a second probe goes out. */
  const LateSuccess: seq<Event> :=
    [Allow(0, 0), Allow(0, 9), Failure(1, 9), Allow(20, 1), Success(0), Allow(21, 2)]

  lemma LateSuccessStates(c: Config)
    requires c == Config(1, 3, 10)
    ensures After(c, LateSuccess[..2]) == Fresh
    ensures After(c, LateSuccess[..3]) == Breaker(Open, 0, 0, 1, false)
    ensures After(c, LateSuccess[..4]) == Breaker(HalfOpen, 0, 0, 1, false)
    ensures After(c, LateSuccess[..5]) == Breaker(HalfOpen, 0, 1, 1, true)
    ensures After(c, LateSuccess[..6]) == Breaker(HalfOpen, 0, 1, 1, false)
  {
    var h := LateSuccess;
    assert h[..0] == [];
    forall k | 0 <= k < 6 ensures h[..k + 1] == h[..k] + [h[k]] {}
    ExecSnoc(c, Fresh, h[..0], h[0]);
    ExecSnoc(c, Fresh, h[..1], h[1]);
    ExecSnoc(c, Fresh, h[..2], h[2]);
    ExecSnoc(c, Fresh, h[..3], h[3]);
    ExecSnoc(c, Fresh, h[..4], h[4]);
    ExecSnoc(c, Fresh, h[..5], h[5]);
  }

  /** A late success lets a second probe out while the first is in flight, so the premise of
      OneProbeInFlight is needed. */
  lemma LateSuccessDoublesProbes(c: Config)
    requires c == Config(1, 3, 10)
    ensures Epoch(c, LateSuccess, 4)
    ensures AdmittedCalls(c, LateSuccess, 3) - RecordedCalls(LateSuccess[4..]) == {1, 2}
  {
    var h := LateSuccess;
    LateSuccessStates(c);
    assert h[..6] == h;
    assert h[..6][..5] == h[..5] && h[..5][..4] == h[..4] && h[..4][..3] == h[..3];
    assert AdmittedCalls(c, h[..3], 3) == {};
    assert AdmittedCalls(c, h[..4], 3) == {1};
    assert AdmittedCalls(c, h[..5], 3) == {1};
    var tail := h[4..];
    assert tail == [Success(0), Allow(21, 2)];
    assert tail[..1] == [Success(0)] && tail[..1][..0] == [];
    assert RecordedCalls(tail[..1]) == {0};
  }

  // ---------------------------------------------------------------- the object

  /** The breaker as the plugin manager holds it; each method is one locked section. */
  class CircuitBreaker {
    const cfg: Config
    var state: CBState
    var consecutiveFailures: int
    var consecutiveSuccesses: int
    var lastFailure: int
    var halfOpenAllowed: bool

    ghost function View(): Breaker
      reads this
    {
      Breaker(state, consecutiveFailures, consecutiveSuccesses, lastFailure, halfOpenAllowed)
    }

    constructor (cfg: Config)
      ensures this.cfg == cfg && View() == Fresh
    {
      this.cfg := cfg;
      state, consecutiveFailures, consecutiveSuccesses, lastFailure, halfOpenAllowed := Closed, 0, 0, 0, false;
    }

    method Transition(to: CBState)
      modifies this
      ensures View() == Moved(old(View()), to)
    {
      state := to;
      consecutiveFailures := 0;
      consecutiveSuccesses := 0;
      halfOpenAllowed := to == HalfOpen;
    }

    method Allow(now: int, ghost call: nat) returns (ok: bool)
      modifies this
      ensures ok == Admits(cfg, old(View()), Event.Allow(now, call))
      ensures View() == Step(cfg, old(View()), Event.Allow(now, call))
    {
      match state
      case Closed =>
        ok := true;
      case Open =>
        ok := now - lastFailure > cfg.cooldown;
        if ok {
          Transition(HalfOpen);
          halfOpenAllowed := false;
        }
      case HalfOpen =>
        ok := halfOpenAllowed;
        if ok {
          halfOpenAllowed := false;
        }
    }

    method RecordSuccess(ghost call: nat)
      modifies this
      ensures View() == Step(cfg, old(View()), Success(call))
    {
      consecutiveFailures := 0;
      if state == HalfOpen {
        consecutiveSuccesses := consecutiveSuccesses + 1;
        if consecutiveSuccesses >= cfg.successThreshold {
          Transition(Closed);
        } else {
          halfOpenAllowed := true;
        }
      }
    }

    method RecordFailure(now: int, ghost call: nat)
      modifies this
      ensures View() == Step(cfg, old(View()), Failure(now, call))
    {
      consecutiveSuccesses := 0;
      consecutiveFailures := consecutiveFailures + 1;
      lastFailure := now;
      match state
      case Closed =>
        if consecutiveFailures >= cfg.failureThreshold {
          Transition(Open);
        }
      case HalfOpen =>
        Transition(Open);
      case Open =>
    }
  }
}
