/**
  The admin API under concurrency.  Handlers run at the same time and share no lock: each makes its
  store call, later writes its audit event, and, if that fails for a create, later deletes the key
  again.  A run is a list of such steps of any number of requests in any order.
 */
module KeyAdminRuns {
  import opened Wrappers
  import opened KeyAdmin

  /** A request whose store call went through, and the event it has to write. */
  datatype Job = Job(op: Op, event: Event)

  datatype State = State(
    keys: Keys,
    audit: seq<Event>,
    inconsistencies: nat,
    toAudit: multiset<Job>,   // stored, event not yet written
    toUndo: multiset<Job>)    // creates whose event could not be written, key not yet deleted again

  const Init := State(map[], [], 0, multiset{}, multiset{})

  datatype Step = Store(op: Op) | Audit(job: Job) | Undo(job: Job)

  predicate Enabled(s: State, l: Step) {
    match l
    case Store(_) => true
    case Audit(j) => j in s.toAudit
    case Undo(j) => j in s.toUndo
  }

  /** The compensating delete goes through if the store works and the key is still there. */
  predicate Undoes(s: State, j: Job) { !j.op.faults.undo && j.event.id in s.keys }

  /** What the store call of a step comes to, if it is one. */
  function OutcomeOf(env: Env, keys: Keys, l: Step): Outcome {
    if l.Store? then Stored(env, keys, l.op) else Refused(Done)
  }

  function Next(env: Env, s: State, l: Step): State
    requires Enabled(s, l)
  {
    NextWith(s, l, OutcomeOf(env, s.keys, l))
  }

  /** The step, given what its store call comes to. */
  function NextWith(s: State, l: Step, out: Outcome): State
    requires Enabled(s, l)
  {
    match l
    case Store(op) => (
      match out
      case Refused(_) => s
      case Changed(keys, e) => s.(keys := keys, toAudit := s.toAudit + multiset{Job(op, e)}))
    case Audit(j) =>
      var s1 := s.(toAudit := s.toAudit - multiset{j});
      if !j.op.faults.audit then s1.(audit := s.audit + [j.event])
      else if j.op.req.PurgeExpired? then s1
      else if j.op.req.Create? then s1.(toUndo := s.toUndo + multiset{j})
      else s1.(inconsistencies := s.inconsistencies + 1)
    case Undo(j) =>
      var s1 := s.(toUndo := s.toUndo - multiset{j});
      if Undoes(s, j) then s1.(keys := s.keys - {j.event.id}) else s1.(inconsistencies := s.inconsistencies + 1)
  }

  function Exec(env: Env, s: State, ls: seq<Step>): Option<State>
    decreases |ls|
  {
    if ls == [] then Some(s)
    else
      match Exec(env, s, ls[..|ls| - 1])
      case None => None
      case Some(m) => if Enabled(m, ls[|ls| - 1]) then Some(Next(env, m, ls[|ls| - 1])) else None
  }

  lemma RunSnoc(env: Env, s: State, ls: seq<Step>, l: Step)
    requires Exec(env, s, ls).Some? && Enabled(Exec(env, s, ls).value, l)
    ensures Exec(env, s, ls + [l]) == Some(Next(env, Exec(env, s, ls).value, l))
  {
    assert (ls + [l])[..|ls + [l]| - 1] == ls;
  }

  lemma {:induction false} ExecAppend(env: Env, s: State, a: seq<Step>, b: seq<Step>)
    requires Exec(env, s, a).Some?
    ensures Exec(env, s, a + b) == Exec(env, Exec(env, s, a).value, b)
    decreases |b|
  {
    if b == [] {
      assert a + b == a;
    } else {
      assert (a + b)[..|a + b| - 1] == a + b[..|b| - 1];
      ExecAppend(env, s, a, b[..|b| - 1]);
    }
  }

  lemma OneStep(env: Env, s: State, l: Step)
    requires Enabled(s, l)
    ensures Exec(env, s, [l]) == Some(Next(env, s, l))
  {
    assert [l][..|[l]| - 1] == [];
  }

  // ---------------------------------------------------------------- a handler run alone

  function Alone(w: World): State { State(w.keys, w.audit, w.inconsistencies, multiset{}, multiset{}) }

  /** The steps of one request that nobody interrupts. */
  function StepsOf(env: Env, w: World, op: Op): seq<Step> {
    match Stored(env, w.keys, op)
    case Refused(_) => [Store(op)]
    case Changed(_, e) =>
      if op.faults.audit && op.req.Create? then [Store(op), Audit(Job(op, e)), Undo(Job(op, e))]
      else [Store(op), Audit(Job(op, e))]
  }

  /** Handle is the run of one request alone. */
  lemma HandleIsARun(env: Env, w: World, op: Op)
    ensures Exec(env, Alone(w), StepsOf(env, w, op)) == Some(Alone(Handle(env, w, op).0))
  {
    var s := Alone(w);
    RunSnoc(env, s, [], Store(op));
    assert [] + [Store(op)] == [Store(op)];
    match Stored(env, w.keys, op)
    case Refused(_) =>
    case Changed(_, e) =>
      var j := Job(op, e);
      RunSnoc(env, s, [Store(op)], Audit(j));
      assert [Store(op)] + [Audit(j)] == [Store(op), Audit(j)];
      if op.faults.audit && op.req.Create? {
        RunSnoc(env, s, [Store(op), Audit(j)], Undo(j));
        assert [Store(op), Audit(j)] + [Undo(j)] == [Store(op), Audit(j), Undo(j)];
      }
  }

  // ---------------------------------------------------------------- what a run does to the store

  /** The calls that reached the store, in order. */
  function Calls(ls: seq<Step>): seq<Call>
    decreases |ls|
  {
    if ls == [] then []
    else
      Calls(ls[..|ls| - 1]) +
      (match ls[|ls| - 1]
       case Store(op) => [Ask(op)]
       case Audit(_) => []
       case Undo(j) => [TakeBack(j.event.id, j.op.faults.undo)])
  }

  lemma CalledSnoc(env: Env, keys: Keys, cs: seq<Call>, c: Call)
    ensures KeysAfter(env, keys, cs + [c]) == Called(env, KeysAfter(env, keys, cs), c)
  {
    assert (cs + [c])[..|cs|] == cs;
  }

  lemma KeysOfStep(env: Env, s: State, l: Step)
    requires Enabled(s, l)
    ensures Next(env, s, l).keys ==
      match l
      case Store(op) => Called(env, s.keys, Ask(op))
      case Audit(_) => s.keys
      case Undo(j) => Called(env, s.keys, TakeBack(j.event.id, j.op.faults.undo))
  {
    KeysOfStepWith(s, l, OutcomeOf(env, s.keys, l));
  }

  lemma KeysOfStepWith(s: State, l: Step, out: Outcome)
    requires Enabled(s, l)
    ensures NextWith(s, l, out).keys ==
      match l
      case Store(_) => KeysWith(s.keys, out)
      case Audit(_) => s.keys
      case Undo(j) => if j.op.faults.undo then s.keys else s.keys - {j.event.id}
  {
    if l.Undo? && l.job.event.id !in s.keys {
      assert s.keys - {l.job.event.id} == s.keys;
    }
  }

  /** However requests overlap, the keys are what the store calls made of them in their order. */
  lemma {:induction false} KeysOfRun(env: Env, ls: seq<Step>)
    requires Exec(env, Init, ls).Some?
    ensures Exec(env, Init, ls).value.keys == KeysAfter(env, map[], Calls(ls))
    decreases |ls|
  {
    if ls != [] {
      var p, l := ls[..|ls| - 1], ls[|ls| - 1];
      KeysOfRun(env, p);
      KeysOfStep(env, Exec(env, Init, p).value, l);
      match l
      case Store(op) => CalledSnoc(env, map[], Calls(p), Ask(op));
      case Audit(_) => assert Calls(p) + [] == Calls(p);
      case Undo(j) => CalledSnoc(env, map[], Calls(p), TakeBack(j.event.id, j.op.faults.undo));
    }
  }

  // ---------------------------------------------------------------- what becomes of each job

  /** What a step settles: a change stored, its event written, the change counted as unaudited, an
      unaudited purge forgotten, a create taken back. */
  datatype Fate = IsStored | IsAudited | IsCounted | IsForgotten | IsUndone

  /** The job a step settles in this way. */
  function Settles(env: Env, s: State, l: Step, f: Fate): Option<Job> {
    SettlesWith(s, l, OutcomeOf(env, s.keys, l), f)
  }

  function SettlesWith(s: State, l: Step, out: Outcome, f: Fate): Option<Job> {
    match l
    case Store(op) => (
      match out
      case Refused(_) => None
      case Changed(_, e) => if f == IsStored then Some(Job(op, e)) else None)
    case Audit(j) =>
      if AuditFate(j) == Some(f) then Some(j) else None
    case Undo(j) =>
      if f == (if Undoes(s, j) then IsUndone else IsCounted) then Some(j) else None
  }

  /** What the audit step of a job settles: nothing yet for a create whose event fails. */
  function AuditFate(j: Job): Option<Fate> {
    if !j.op.faults.audit then Some(IsAudited)
    else if j.op.req.PurgeExpired? then Some(IsForgotten)
    else if j.op.req.Create? then None
    else Some(IsCounted)
  }

  /** The jobs a run settles in this way, in order. */
  function Jobs(env: Env, ls: seq<Step>, f: Fate): seq<Job>
    decreases |ls|
  {
    if ls == [] then []
    else
      Jobs(env, ls[..|ls| - 1], f) +
      (match Exec(env, Init, ls[..|ls| - 1])
       case None => []
       case Some(m) => (match Settles(env, m, ls[|ls| - 1], f) case Some(j) => [j] case None => []))
  }

  function Events(js: seq<Job>): seq<Event> { seq(|js|, i requires 0 <= i < |js| => js[i].event) }
}
