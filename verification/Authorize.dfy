/**
  Manager.Authorize: one worker per role, results over a channel with room for all of
  them, the first allow wins and cancels the rest.  The parent context is not cancelled.
 */
module Authorize {
  import opened Wrappers

  /** What role i's call comes to if it is not cancelled; Missing: no plugin for the role. */
  datatype Verdict = Allows | Denies | Panics | Missing

  datatype State = State(
    spawned: nat,                    // roles the spawning loop is past
    running: set<nat>,               // workers inside the plugin call
    allowing: set<nat>,              // workers about to send an allow
    denying: set<nat>,               // workers about to send a deny
    queue: seq<(nat, bool)>,         // results in the channel
    got: set<nat>,                   // roles whose result was collected
    cancelled: bool,
    ret: Option<(bool, nat)>)        // allow or deny, and the role that decided

  datatype Step =
    | Spawn
    | Finish(i: nat, allow: bool)
    | Send(i: nat, allow: bool)
    | Collect

  /** Authorize returns a deny at once when there are no roles. */
  function Init(vs: seq<Verdict>): State {
    State(0, {}, {}, {}, [], {}, false, if vs == [] then Some((false, 0)) else None)
  }

  predicate Enabled(vs: seq<Verdict>, s: State, l: Step) {
    match l
    case Spawn => s.spawned < |vs| && (vs[s.spawned] == Missing ==> |s.queue| < |vs|)
    // A cancelled call may come back as a deny; a panic always does.
    case Finish(i, allow) => i in s.running && i < |vs| &&
      if s.cancelled then allow ==> vs[i] == Allows else allow == (vs[i] == Allows)
    case Send(i, allow) => i in (if allow then s.allowing else s.denying) && |s.queue| < |vs|
    case Collect => s.spawned == |vs| && s.ret.None? && s.queue != []
  }

  function Next(vs: seq<Verdict>, s: State, l: Step): State
    requires Enabled(vs, s, l)
  {
    match l
    case Spawn =>
      if vs[s.spawned] == Missing then s.(spawned := s.spawned + 1, queue := s.queue + [(s.spawned, false)])
      else s.(spawned := s.spawned + 1, running := s.running + {s.spawned})
    case Finish(i, allow) =>
      if allow then s.(running := s.running - {i}, allowing := s.allowing + {i})
      else s.(running := s.running - {i}, denying := s.denying + {i})
    case Send(i, allow) =>
      if allow then s.(allowing := s.allowing - {i}, queue := s.queue + [(i, true)])
      else s.(denying := s.denying - {i}, queue := s.queue + [(i, false)])
    case Collect =>
      var (i, allow) := s.queue[0];
      var s' := s.(queue := s.queue[1..], got := s.got + {i});
      if allow then s'.(cancelled := true, ret := Some((true, i)))
      else if |s'.got| == |vs| then s'.(cancelled := true, ret := Some((false, i)))
      else s'
  }

  function Exec(vs: seq<Verdict>, ls: seq<Step>): Option<State>
    decreases |ls|
  {
    if ls == [] then Some(Init(vs))
    else
      match Exec(vs, ls[..|ls| - 1])
      case None => None
      case Some(m) => if Enabled(vs, m, ls[|ls| - 1]) then Some(Next(vs, m, ls[|ls| - 1])) else None
  }

  // ---------------------------------------------------------------- one result per role

  ghost predicate InQueue(q: seq<(nat, bool)>, i: nat) { exists k :: 0 <= k < |q| && q[k].0 == i }

  function Finished(s: State): set<nat> { s.allowing + s.denying }

  /** The places a spawned role can be in are disjoint, and each role is in the queue once. */
  ghost predicate PlaceInv(vs: seq<Verdict>, s: State) {
    && s.spawned <= |vs|
    && (forall i :: i in s.running ==> i < s.spawned && i !in s.allowing && i !in s.denying && i !in s.got)
    && (forall i :: i in s.allowing ==> i < s.spawned && i !in s.denying && i !in s.got)
    && (forall i :: i in s.denying ==> i < s.spawned && i !in s.got)
    && (forall i :: i in s.got ==> i < s.spawned)
    && (forall k :: 0 <= k < |s.queue| ==> s.queue[k].0 < s.spawned && Away(s, s.queue[k].0))
    && (forall j, k :: 0 <= j < k < |s.queue| ==> s.queue[j].0 != s.queue[k].0)
  }

  /** Role i is neither at work nor collected. */
  predicate Away(s: State, i: nat) { i !in s.running && i !in s.allowing && i !in s.denying && i !in s.got }

  lemma PlaceSpawn(vs: seq<Verdict>, s: State)
    requires PlaceInv(vs, s) && Enabled(vs, s, Spawn)
    ensures PlaceInv(vs, Next(vs, s, Spawn))
  {
  }

  lemma PlaceFinish(vs: seq<Verdict>, s: State, i: nat, allow: bool)
    requires PlaceInv(vs, s) && Enabled(vs, s, Finish(i, allow))
    ensures PlaceInv(vs, Next(vs, s, Finish(i, allow)))
  {
  }

  lemma PlaceSend(vs: seq<Verdict>, s: State, i: nat, allow: bool)
    requires PlaceInv(vs, s) && Enabled(vs, s, Send(i, allow))
    ensures PlaceInv(vs, Next(vs, s, Send(i, allow)))
  {
  }

  lemma PlaceCollect(vs: seq<Verdict>, s: State)
    requires PlaceInv(vs, s) && Enabled(vs, s, Collect)
    ensures PlaceInv(vs, Next(vs, s, Collect))
  {
    var s' := Next(vs, s, Collect);
    forall k | 0 <= k < |s'.queue| ensures s'.queue[k].0 < s'.spawned && Away(s', s'.queue[k].0) {
      assert s'.queue[k] == s.queue[k + 1];
    }
  }

  lemma PlaceStep(vs: seq<Verdict>, s: State, l: Step)
    requires PlaceInv(vs, s) && Enabled(vs, s, l)
    ensures PlaceInv(vs, Next(vs, s, l))
  {
    match l
    case Spawn => PlaceSpawn(vs, s);
    case Finish(i, allow) => PlaceFinish(vs, s, i, allow);
    case Send(i, allow) => PlaceSend(vs, s, i, allow);
    case Collect => PlaceCollect(vs, s);
  }

  ghost predicate SizeInv(s: State) {
    |s.running| + |s.allowing| + |s.denying| + |s.queue| + |s.got| == s.spawned
  }

  lemma Added(s: set<nat>, i: nat)
    requires i !in s
    ensures |s + {i}| == |s| + 1
  {
  }

  lemma Removed(s: set<nat>, i: nat)
    requires i in s
    ensures |s - {i}| == |s| - 1
  {
    assert s == (s - {i}) + {i};
  }

  /** The work left: what the spawning loop, the calls, the sends and the collector still do. */
  function Work(vs: seq<Verdict>, s: State): int {
    4 * (|vs| - s.spawned) + 3 * |s.running| + 2 * (|s.allowing| + |s.denying|) + |s.queue|
  }

  /** What a step does to the sizes. */
  ghost predicate Moved(vs: seq<Verdict>, s: State, s': State) { (SizeInv(s) ==> SizeInv(s')) && Work(vs, s') < Work(vs, s) }

  lemma SizeSpawn(vs: seq<Verdict>, s: State)
    requires PlaceInv(vs, s) && Enabled(vs, s, Spawn)
    ensures Moved(vs, s, Next(vs, s, Spawn))
  {
    if vs[s.spawned] != Missing {
      Added(s.running, s.spawned);
    }
  }

  lemma SizeFinish(vs: seq<Verdict>, s: State, i: nat, allow: bool)
    requires PlaceInv(vs, s) && Enabled(vs, s, Finish(i, allow))
    ensures Moved(vs, s, Next(vs, s, Finish(i, allow)))
  {
    Removed(s.running, i);
    Added(if allow then s.allowing else s.denying, i);
  }

  lemma SizeSend(vs: seq<Verdict>, s: State, i: nat, allow: bool)
    requires PlaceInv(vs, s) && Enabled(vs, s, Send(i, allow))
    ensures Moved(vs, s, Next(vs, s, Send(i, allow)))
  {
    Removed(if allow then s.allowing else s.denying, i);
  }

  lemma SizeCollect(vs: seq<Verdict>, s: State)
    requires PlaceInv(vs, s) && Enabled(vs, s, Collect)
    ensures Moved(vs, s, Next(vs, s, Collect))
  {
    assert Away(s, s.queue[0].0);
    Added(s.got, s.queue[0].0);
  }

  lemma SizeStep(vs: seq<Verdict>, s: State, l: Step)
    requires PlaceInv(vs, s) && Enabled(vs, s, l)
    ensures Moved(vs, s, Next(vs, s, l))
  {
    match l
    case Spawn => SizeSpawn(vs, s);
    case Finish(i, allow) => SizeFinish(vs, s, i, allow);
    case Send(i, allow) => SizeSend(vs, s, i, allow);
    case Collect => SizeCollect(vs, s);
  }

  /** No role is lost. */
  ghost predicate CoverInv(s: State) {
    forall i :: 0 <= i < s.spawned ==> i in s.running || i in Finished(s) || InQueue(s.queue, i) || i in s.got
  }

  lemma CoverStep(vs: seq<Verdict>, s: State, l: Step)
    requires CoverInv(s) && Enabled(vs, s, l)
    ensures CoverInv(Next(vs, s, l))
  {
    var s' := Next(vs, s, l);
    forall i | 0 <= i < s'.spawned
      ensures i in s'.running || i in Finished(s') || InQueue(s'.queue, i) || i in s'.got
    {
      if InQueue(s.queue, i) {
        var k :| 0 <= k < |s.queue| && s.queue[k].0 == i;
        if !l.Collect? {
          assert s'.queue[k].0 == i;
        } else if k > 0 {
          assert s'.queue[k - 1].0 == i;
        }
      }
      if l.Spawn? && i == s.spawned && vs[i] == Missing {
        assert s'.queue[|s.queue|].0 == i;
      }
      if l.Send? && i == l.i {
        assert s'.queue[|s.queue|].0 == i;
      }
    }
  }

  // ---------------------------------------------------------------- what the results say

  /** Nothing is cancelled yet and every result so far is the role's own verdict. */
  ghost predicate Undecided(vs: seq<Verdict>, s: State) {
    && !s.cancelled && vs != [] && |s.got| < |vs|
    && (forall i :: i in s.allowing && i < |vs| ==> vs[i] == Allows)
    && (forall i :: (i in s.denying || i in s.got) && i < |vs| ==> vs[i] != Allows)
    && (forall k :: 0 <= k < |s.queue| && s.queue[k].0 < |vs| ==> s.queue[k].1 == (vs[s.queue[k].0] == Allows))
  }

  ghost predicate TruthInv(vs: seq<Verdict>, s: State) {
    && (s.ret.None? ==> Undecided(vs, s))
    && (s.ret.Some? && s.ret.value.0 ==> s.ret.value.1 < |vs| && vs[s.ret.value.1] == Allows)
    && (s.ret.Some? && !s.ret.value.0 ==> forall i :: 0 <= i < |vs| ==> vs[i] != Allows)
  }

  /** When as many results were collected as there are roles, every role was collected. */
  lemma AllCollected(vs: seq<Verdict>, s: State, i: nat)
    requires PlaceInv(vs, s) && SizeInv(s) && CoverInv(s) && |s.got| == |vs| && i < |vs|
    ensures i in s.got
  {
    assert |s.running| == 0 && |s.allowing| == 0 && |s.denying| == 0 && |s.queue| == 0;
    assert s.running == {} && s.allowing == {} && s.denying == {};
    assert !InQueue(s.queue, i);
  }

  /** The last deny is collected: everybody denied. */
  lemma TruthLast(vs: seq<Verdict>, s: State)
    requires PlaceInv(vs, s) && SizeInv(s) && CoverInv(s) && TruthInv(vs, s) && Enabled(vs, s, Collect)
    requires !s.queue[0].1 && |Next(vs, s, Collect).got| == |vs|
    ensures forall i :: 0 <= i < |vs| ==> vs[i] != Allows
  {
    var s' := Next(vs, s, Collect);
    PlaceCollect(vs, s);
    SizeStep(vs, s, Collect);
    CoverStep(vs, s, Collect);
    forall i | 0 <= i < |vs| ensures vs[i] != Allows {
      AllCollected(vs, s', i);
    }
  }

  /** A deny is collected and more results are to come. */
  lemma TruthMore(vs: seq<Verdict>, s: State)
    requires PlaceInv(vs, s) && TruthInv(vs, s) && Enabled(vs, s, Collect)
    requires !s.queue[0].1 && |Next(vs, s, Collect).got| < |vs|
    ensures Undecided(vs, Next(vs, s, Collect))
  {
    var s' := Next(vs, s, Collect);
    assert s.queue[0].0 < |vs|;
    forall k | 0 <= k < |s'.queue| && s'.queue[k].0 < |vs| ensures s'.queue[k].1 == (vs[s'.queue[k].0] == Allows) {
      assert s'.queue[k] == s.queue[k + 1];
    }
  }

  /** Never more results are collected than there are roles. */
  lemma CollectedBound(vs: seq<Verdict>, s: State)
    requires PlaceInv(vs, s) && SizeInv(s) && Enabled(vs, s, Collect)
    ensures |Next(vs, s, Collect).got| <= |vs|
  {
    SizeStep(vs, s, Collect);
  }

  lemma TruthCollect(vs: seq<Verdict>, s: State)
    requires PlaceInv(vs, s) && SizeInv(s) && CoverInv(s) && TruthInv(vs, s) && Enabled(vs, s, Collect)
    ensures TruthInv(vs, Next(vs, s, Collect))
  {
    var s' := Next(vs, s, Collect);
    CollectedBound(vs, s);
    if s.queue[0].1 {
      assert s.queue[0].0 < |vs|;
    } else if |s'.got| == |vs| {
      TruthLast(vs, s);
    } else {
      TruthMore(vs, s);
    }
  }

  lemma TruthOther(vs: seq<Verdict>, s: State, l: Step)
    requires PlaceInv(vs, s) && TruthInv(vs, s) && Enabled(vs, s, l) && !l.Collect?
    ensures TruthInv(vs, Next(vs, s, l))
  {
  }

  lemma {:induction false} SafeRun(vs: seq<Verdict>, ls: seq<Step>, s: State)
    requires Exec(vs, ls) == Some(s)
    ensures PlaceInv(vs, s) && SizeInv(s) && CoverInv(s) && TruthInv(vs, s)
    decreases |ls|
  {
    if ls != [] {
      var m, l := Exec(vs, ls[..|ls| - 1]).value, ls[|ls| - 1];
      SafeRun(vs, ls[..|ls| - 1], m);
      PlaceStep(vs, m, l);
      SizeStep(vs, m, l);
      CoverStep(vs, m, l);
      if l.Collect? {
        TruthCollect(vs, m);
      } else {
        TruthOther(vs, m, l);
      }
    }
  }

  /** However workers are scheduled and in whatever order their results arrive, Authorize
      returns allow exactly when some role's call allows; and the role it names is one. */
  lemma AllowsExactlyIfSomeRoleAllows(vs: seq<Verdict>, ls: seq<Step>, s: State)
    requires Exec(vs, ls) == Some(s) && s.ret.Some?
    ensures s.ret.value.0 <==> exists i :: 0 <= i < |vs| && vs[i] == Allows
    ensures s.ret.value.0 ==> s.ret.value.1 < |vs| && vs[s.ret.value.1] == Allows
  {
    SafeRun(vs, ls, s);
  }

  /** A worker's send never blocks, before or after Authorize returned. */
  lemma SendNeverBlocks(vs: seq<Verdict>, ls: seq<Step>, s: State, i: nat, allow: bool)
    requires Exec(vs, ls) == Some(s) && i in (if allow then s.allowing else s.denying)
    ensures Enabled(vs, s, Send(i, allow))
  {
    SafeRun(vs, ls, s);
    assert |s.allowing| + |s.denying| > 0;
  }

  /** How many results role i has sent. */
  function Sends(vs: seq<Verdict>, ls: seq<Step>, i: nat): nat
    decreases |ls|
  {
    if ls == [] then 0
    else
      var p, l := ls[..|ls| - 1], ls[|ls| - 1];
      Sends(vs, p, i) +
      if Exec(vs, p).Some? && SendsNow(vs, Exec(vs, p).value, l, i) then 1 else 0
  }

  predicate SendsNow(vs: seq<Verdict>, s: State, l: Step, i: nat) {
    (l.Send? && l.i == i) || (l.Spawn? && s.spawned == i && i < |vs| && vs[i] == Missing)
  }

  /** Role i has not sent its result yet. */
  predicate Unsent(s: State, i: nat) { i >= s.spawned || i in s.running || i in s.allowing || i in s.denying }

  lemma OneResultStep(vs: seq<Verdict>, s: State, l: Step, i: nat)
    requires PlaceInv(vs, s) && Enabled(vs, s, l) && i < |vs|
    ensures SendsNow(vs, s, l, i) <==> Unsent(s, i) && !Unsent(Next(vs, s, l), i)
    ensures !Unsent(s, i) ==> !Unsent(Next(vs, s, l), i)
  {
  }

  /** Every role sends exactly one result, panics and missing plugins included: none while its
      worker is still at work, one from then on. */
  lemma {:induction false} OneResultPerRole(vs: seq<Verdict>, ls: seq<Step>, s: State, i: nat)
    requires Exec(vs, ls) == Some(s) && i < |vs|
    ensures Sends(vs, ls, i) == if Unsent(s, i) then 0 else 1
    decreases |ls|
  {
    if ls != [] {
      var p := ls[..|ls| - 1];
      var m := Exec(vs, p).value;
      SafeRun(vs, p, m);
      OneResultPerRole(vs, p, m, i);
      OneResultStep(vs, m, ls[|ls| - 1], i);
    }
  }

  // ---------------------------------------------------------------- it always returns

  /** Until Authorize returns, somebody can take a step. */
  lemma NeverStuck(vs: seq<Verdict>, ls: seq<Step>, s: State) returns (l: Step)
    requires Exec(vs, ls) == Some(s) && s.ret.None?
    ensures Enabled(vs, s, l)
  {
    SafeRun(vs, ls, s);
    l := SomeStep(vs, s);
  }

  lemma SomeStep(vs: seq<Verdict>, s: State) returns (l: Step)
    requires PlaceInv(vs, s) && SizeInv(s) && s.ret.None? && !s.cancelled && |s.got| < |vs|
    ensures Enabled(vs, s, l)
  {
    if s.spawned < |vs| {
      l := Spawn;
    } else if s.queue != [] {
      l := Collect;
    } else if i :| i in s.running {
      l := Finish(i, vs[i] == Allows);
    } else if i :| i in s.allowing {
      l := Send(i, true);
    } else {
      assert s.running == {} && s.allowing == {} && |s.denying| > 0;
      var i :| i in s.denying;
      l := Send(i, false);
    }
  }

  /** No run is longer than four steps per role, so Authorize always returns. */
  lemma {:induction false} RunsAreBounded(vs: seq<Verdict>, ls: seq<Step>, s: State)
    requires Exec(vs, ls) == Some(s)
    ensures |ls| + Work(vs, s) <= 4 * |vs| && Work(vs, s) >= 0
    decreases |ls|
  {
    if ls != [] {
      var m := Exec(vs, ls[..|ls| - 1]).value;
      SafeRun(vs, ls[..|ls| - 1], m);
      RunsAreBounded(vs, ls[..|ls| - 1], m);
      SizeStep(vs, m, ls[|ls| - 1]);
      PlaceStep(vs, m, ls[|ls| - 1]);
    }
  }

  // ---------------------------------------------------------------- the collector

  /** The results collected in a run, in order. */
  function Collected(vs: seq<Verdict>, ls: seq<Step>): seq<(nat, bool)>
    decreases |ls|
  {
    if ls == [] then []
    else
      var p, l := ls[..|ls| - 1], ls[|ls| - 1];
      Collected(vs, p) +
      (match Exec(vs, p) case Some(m) => if l.Collect? && m.queue != [] then [m.queue[0]] else [] case None => [])
  }

  ghost predicate FirstAllow(arrivals: seq<(nat, bool)>, k: int) {
    0 <= k < |arrivals| && arrivals[k].1 && forall j :: 0 <= j < k ==> !arrivals[j].1
  }

  /** The answer to these results: the first allow, or the last deny. */
  ghost predicate IsAnswer(arrivals: seq<(nat, bool)>, allow: bool, role: nat) {
    && (allow <==> exists k :: 0 <= k < |arrivals| && arrivals[k].1)
    && (allow ==> exists k :: FirstAllow(arrivals, k) && arrivals[k].0 == role)
    && (!allow ==> arrivals != [] && arrivals[|arrivals| - 1] == (role, false))
  }

  /** As many results as the state says, all denies but perhaps the last, which is the answer. */
  ghost predicate CollectInv(vs: seq<Verdict>, got: seq<(nat, bool)>, s: State) {
    && |got| == |s.got|
    && (forall k :: 0 <= k < |got| - 1 ==> !got[k].1)
    && (s.ret.None? ==> !s.cancelled && (got != [] ==> !got[|got| - 1].1))
    && (s.ret.Some? ==> got != [] && got[|got| - 1] == (s.ret.value.1, s.ret.value.0))
    && (s.ret.Some? && !s.ret.value.0 ==> |got| == |vs|)
  }

  lemma CollectStep(vs: seq<Verdict>, got: seq<(nat, bool)>, s: State, l: Step)
    requires PlaceInv(vs, s) && CollectInv(vs, got, s) && Enabled(vs, s, l)
    ensures CollectInv(vs, if l.Collect? then got + [s.queue[0]] else got, Next(vs, s, l))
  {
    if l.Collect? {
      assert Away(s, s.queue[0].0);
      Added(s.got, s.queue[0].0);
    }
  }

  lemma PlaceRun(vs: seq<Verdict>, ls: seq<Step>, s: State)
    requires Exec(vs, ls) == Some(s)
    ensures PlaceInv(vs, s)
  {
    SafeRun(vs, ls, s);
  }

  lemma {:induction false} CollectRun(vs: seq<Verdict>, ls: seq<Step>, s: State)
    requires Exec(vs, ls) == Some(s) && vs != []
    ensures CollectInv(vs, Collected(vs, ls), s)
    decreases |ls|
  {
    if ls != [] {
      var p := ls[..|ls| - 1];
      var m := Exec(vs, p).value;
      CollectRun(vs, p, m);
      PlaceRun(vs, p, m);
      CollectStep(vs, Collected(vs, p), m, ls[|ls| - 1]);
    }
  }

  /** A call whose result is not collected yet is cancelled only by an allow that is. */
  lemma CancelledOnlyByAllow(vs: seq<Verdict>, ls: seq<Step>, s: State)
    requires Exec(vs, ls) == Some(s) && s.cancelled && |s.got| < |vs|
    ensures s.ret.Some? && s.ret.value.0 && (s.ret.value.1, true) in Collected(vs, ls)
  {
    CollectRun(vs, ls, s);
    var got := Collected(vs, ls);
    assert got[|got| - 1] in got;
  }

  /** What the machine returns is the answer to the results it collected: the one the loop of
      CollectResults gives on them. */
  lemma ReturnsTheAnswer(vs: seq<Verdict>, ls: seq<Step>, s: State)
    requires Exec(vs, ls) == Some(s) && vs != [] && s.ret.Some?
    ensures IsAnswer(Collected(vs, ls), s.ret.value.0, s.ret.value.1)
  {
    CollectRun(vs, ls, s);
    LastIsAnswer(Collected(vs, ls), s.ret.value.0, s.ret.value.1);
  }

  lemma LastIsAnswer(got: seq<(nat, bool)>, allow: bool, role: nat)
    requires got != [] && got[|got| - 1] == (role, allow) && forall k :: 0 <= k < |got| - 1 ==> !got[k].1
    ensures IsAnswer(got, allow, role)
  {
    assert allow ==> FirstAllow(got, |got| - 1);
  }

  /** The collecting loop over the results in the order they arrive. */
  method CollectResults(arrivals: seq<(nat, bool)>) returns (allow: bool, role: nat)
    requires arrivals != []
    ensures IsAnswer(arrivals, allow, role)
  {
    role := 0;
    for k := 0 to |arrivals|
      invariant forall j :: 0 <= j < k ==> !arrivals[j].1
      invariant k > 0 ==> role == arrivals[k - 1].0
    {
      role := arrivals[k].0;
      if arrivals[k].1 {
        assert FirstAllow(arrivals, k);
        return true, role;
      }
    }
    allow := false;
  }
}
