/** Theorems over every run of overlapping admin requests with any faults. */
module KeyAdminTheorems {
  import opened Wrappers
  import opened KeyAdmin
  import opened KeyAdminRuns

  // ---------------------------------------------------------------- every change is somewhere

  /** Every stored change is audited, counted, a forgotten purge, taken back, or still on its way. */
  ghost predicate Conserved(stored: seq<Job>, audited: seq<Job>, counted: seq<Job>, forgotten: seq<Job>,
                            undone: seq<Job>, s: State) {
    forall j: Job :: multiset(stored)[j] == Places(audited, counted, forgotten, undone, s, j)
  }

  function Places(audited: seq<Job>, counted: seq<Job>, forgotten: seq<Job>, undone: seq<Job>, s: State, j: Job): nat {
    multiset(audited)[j] + multiset(counted)[j] + multiset(forgotten)[j] + multiset(undone)[j] + s.toAudit[j] + s.toUndo[j]
  }

  /** The same of the jobs of a run. */
  ghost predicate ConservedBy(env: Env, ls: seq<Step>, s: State) {
    Conserved(Jobs(env, ls, IsStored), Jobs(env, ls, IsAudited), Jobs(env, ls, IsCounted), Jobs(env, ls, IsForgotten),
              Jobs(env, ls, IsUndone), s)
  }

  function Plus(js: seq<Job>, j: Option<Job>): seq<Job> { match j case Some(x) => js + [x] case None => js }

  lemma JobsSnoc(env: Env, ls: seq<Step>, f: Fate)
    requires ls != [] && Exec(env, Init, ls).Some?
    ensures Jobs(env, ls, f) ==
      Plus(Jobs(env, ls[..|ls| - 1], f), Settles(env, Exec(env, Init, ls[..|ls| - 1]).value, ls[|ls| - 1], f))
  {
  }

  function Hit(k: Option<Job>, j: Job): nat { if k == Some(j) then 1 else 0 }

  lemma OneMore(js: seq<Job>, k: Option<Job>, j: Job)
    ensures multiset(Plus(js, k))[j] == multiset(js)[j] + Hit(k, j)
  {
  }

  /** A step settles a job, or puts it on its way, exactly if it takes it from somewhere. */
  ghost predicate Balanced(s: State, l: Step, out: Outcome, j: Job)
    requires Enabled(s, l)
  {
    var t := NextWith(s, l, out);
    Hit(SettlesWith(s, l, out, IsStored), j) + s.toAudit[j] + s.toUndo[j] ==
    Hit(SettlesWith(s, l, out, IsAudited), j) + Hit(SettlesWith(s, l, out, IsCounted), j) +
    Hit(SettlesWith(s, l, out, IsForgotten), j) + Hit(SettlesWith(s, l, out, IsUndone), j) + t.toAudit[j] + t.toUndo[j]
  }

  lemma BalancedStore(s: State, op: Op, out: Outcome, j: Job)
    ensures Balanced(s, Store(op), out, j)
  {
  }

  lemma BalancedAudit(s: State, k: Job, out: Outcome, j: Job)
    requires k in s.toAudit
    ensures Balanced(s, Audit(k), out, j)
  {
  }

  lemma BalancedUndo(s: State, k: Job, out: Outcome, j: Job)
    requires k in s.toUndo
    ensures Balanced(s, Undo(k), out, j)
  {
  }

  /** One job over one step. */
  lemma TallyStep(a: seq<Job>, b: seq<Job>, c: seq<Job>, d: seq<Job>, e: seq<Job>, s: State, l: Step, out: Outcome, j: Job)
    requires multiset(a)[j] == Places(b, c, d, e, s, j) && Enabled(s, l)
    ensures multiset(Plus(a, SettlesWith(s, l, out, IsStored)))[j] ==
      Places(Plus(b, SettlesWith(s, l, out, IsAudited)), Plus(c, SettlesWith(s, l, out, IsCounted)),
             Plus(d, SettlesWith(s, l, out, IsForgotten)), Plus(e, SettlesWith(s, l, out, IsUndone)),
             NextWith(s, l, out), j)
  {
    assert Balanced(s, l, out, j) by {
      match l
      case Store(op) => BalancedStore(s, op, out, j);
      case Audit(k) => BalancedAudit(s, k, out, j);
      case Undo(k) => BalancedUndo(s, k, out, j);
    }
    TallySum(a, b, c, d, e, s, SettlesWith(s, l, out, IsStored), SettlesWith(s, l, out, IsAudited),
             SettlesWith(s, l, out, IsCounted), SettlesWith(s, l, out, IsForgotten), SettlesWith(s, l, out, IsUndone),
             NextWith(s, l, out), j);
  }

  lemma TallySum(a: seq<Job>, b: seq<Job>, c: seq<Job>, d: seq<Job>, e: seq<Job>, s: State,
                 ka: Option<Job>, kb: Option<Job>, kc: Option<Job>, kd: Option<Job>, ke: Option<Job>, t: State, j: Job)
    requires multiset(a)[j] == Places(b, c, d, e, s, j)
    requires Hit(ka, j) + s.toAudit[j] + s.toUndo[j] ==
      Hit(kb, j) + Hit(kc, j) + Hit(kd, j) + Hit(ke, j) + t.toAudit[j] + t.toUndo[j]
    ensures multiset(Plus(a, ka))[j] == Places(Plus(b, kb), Plus(c, kc), Plus(d, kd), Plus(e, ke), t, j)
  {
    OneMore(a, ka, j);
    OneMore(b, kb, j);
    OneMore(c, kc, j);
    OneMore(d, kd, j);
    OneMore(e, ke, j);
  }

  lemma {:induction false} TallyRun(env: Env, ls: seq<Step>, j: Job)
    requires Exec(env, Init, ls).Some?
    ensures multiset(Jobs(env, ls, IsStored))[j] ==
      Places(Jobs(env, ls, IsAudited), Jobs(env, ls, IsCounted), Jobs(env, ls, IsForgotten), Jobs(env, ls, IsUndone),
             Exec(env, Init, ls).value, j)
    decreases |ls|
  {
    if ls != [] {
      var p, l := ls[..|ls| - 1], ls[|ls| - 1];
      TallyRun(env, p, j);
      TallyStep(Jobs(env, p, IsStored), Jobs(env, p, IsAudited), Jobs(env, p, IsCounted),
                Jobs(env, p, IsForgotten), Jobs(env, p, IsUndone), Exec(env, Init, p).value, l,
                OutcomeOf(env, Exec(env, Init, p).value.keys, l), j);
      forall f: Fate ensures Jobs(env, ls, f) == Plus(Jobs(env, p, f), Settles(env, Exec(env, Init, p).value, l, f)) {
        JobsSnoc(env, ls, f);
      }
    }
  }

  /** In every run every stored change is in exactly one place. */
  lemma EveryChangeIsSomewhere(env: Env, ls: seq<Step>)
    requires Exec(env, Init, ls).Some?
    ensures ConservedBy(env, ls, Exec(env, Init, ls).value)
  {
    forall j: Job
      ensures multiset(Jobs(env, ls, IsStored))[j] ==
        Places(Jobs(env, ls, IsAudited), Jobs(env, ls, IsCounted), Jobs(env, ls, IsForgotten), Jobs(env, ls, IsUndone),
               Exec(env, Init, ls).value, j)
    {
      TallyRun(env, ls, j);
    }
  }

  /** The audit table holds the events of the audited jobs in that order; the counter counts the others. */
  lemma {:induction false} TablesOfRun(env: Env, ls: seq<Step>)
    requires Exec(env, Init, ls).Some?
    ensures Exec(env, Init, ls).value.audit == Events(Jobs(env, ls, IsAudited))
    ensures Exec(env, Init, ls).value.inconsistencies == |Jobs(env, ls, IsCounted)|
    decreases |ls|
  {
    if ls != [] {
      var p, l := ls[..|ls| - 1], ls[|ls| - 1];
      var m := Exec(env, Init, p).value;
      TablesOfRun(env, p);
      JobsSnoc(env, ls, IsAudited);
      JobsSnoc(env, ls, IsCounted);
      TablesStep(m, l, OutcomeOf(env, m.keys, l), Jobs(env, p, IsAudited), Jobs(env, p, IsCounted));
    }
  }

  lemma TablesStep(s: State, l: Step, out: Outcome, audited: seq<Job>, counted: seq<Job>)
    requires Enabled(s, l) && s.audit == Events(audited) && s.inconsistencies == |counted|
    ensures NextWith(s, l, out).audit == Events(Plus(audited, SettlesWith(s, l, out, IsAudited)))
    ensures NextWith(s, l, out).inconsistencies == |Plus(counted, SettlesWith(s, l, out, IsCounted))|
  {
    AuditStep(s, l, out, audited);
    CounterStep(s, l, out, counted);
  }

  lemma AuditStep(s: State, l: Step, out: Outcome, audited: seq<Job>)
    requires Enabled(s, l) && s.audit == Events(audited)
    ensures NextWith(s, l, out).audit == Events(Plus(audited, SettlesWith(s, l, out, IsAudited)))
  {
    match l
    case Store(_) =>
    case Audit(j) => EventsSnoc(audited, j);
    case Undo(_) =>
  }

  lemma CounterStep(s: State, l: Step, out: Outcome, counted: seq<Job>)
    requires Enabled(s, l) && s.inconsistencies == |counted|
    ensures NextWith(s, l, out).inconsistencies == |Plus(counted, SettlesWith(s, l, out, IsCounted))|
  {
  }

  /** The changes that stayed: those stored less those taken back. */
  function NetMutations(env: Env, ls: seq<Step>): int { |Jobs(env, ls, IsStored)| - |Jobs(env, ls, IsUndone)| }

  function Traces(s: State): nat { |s.audit| + s.inconsistencies }

  function OnTheWay(s: State): nat { |s.toAudit| + |s.toUndo| }

  /** However requests overlap and whatever fails: the changes that stayed are the audit events, plus
      the inconsistency counter, plus the purges whose event failed, plus those still on their way. */
  lemma EveryMutationIsAccounted(env: Env, ls: seq<Step>)
    requires Exec(env, Init, ls).Some?
    ensures var s := Exec(env, Init, ls).value;
      NetMutations(env, ls) == Traces(s) + |Jobs(env, ls, IsForgotten)| + OnTheWay(s)
  {
    EveryChangeIsSomewhere(env, ls);
    TablesOfRun(env, ls);
    Sizes(Jobs(env, ls, IsStored), Jobs(env, ls, IsAudited), Jobs(env, ls, IsCounted), Jobs(env, ls, IsForgotten),
          Jobs(env, ls, IsUndone), Exec(env, Init, ls).value);
  }

  lemma Sizes(a: seq<Job>, b: seq<Job>, c: seq<Job>, d: seq<Job>, e: seq<Job>, s: State)
    requires Conserved(a, b, c, d, e, s)
    ensures |a| == |b| + |c| + |d| + |e| + |s.toAudit| + |s.toUndo|
  {
    var all := multiset(b) + multiset(c) + multiset(d) + multiset(e) + s.toAudit + s.toUndo;
    assert multiset(a) == all by {
      forall j: Job ensures multiset(a)[j] == all[j] {
        assert multiset(a)[j] == Places(b, c, d, e, s, j);
      }
    }
    assert |multiset(a)| == |a|;
  }

  /** So events and counter account for every change that stayed exactly when nothing is on its way
      and no purge went unaudited. */
  lemma AccountedIff(env: Env, ls: seq<Step>)
    requires Exec(env, Init, ls).Some?
    ensures var s := Exec(env, Init, ls).value;
      NetMutations(env, ls) == Traces(s) <==> Jobs(env, ls, IsForgotten) == [] && OnTheWay(s) == 0
  {
    EveryMutationIsAccounted(env, ls);
  }

  // ---------------------------------------------------------------- what events and calls say of a key

  /** What the audit events say about a key; create events do not carry the expiry. */
  datatype Summary = Summary(principal: string, roles: seq<string>, enabled: bool, cidrs: seq<string>)

  function Summarised(r: KeyRecord): Summary { Summary(r.principal, r.roles, r.enabled, r.allowedCIDRs) }

  function StoredAs(keys: Keys, id: Id): Option<Summary> {
    if id in keys then Some(Summarised(keys[id])) else None
  }

  /** What one action makes of what is known about its key. */
  function Retold(k: Option<Summary>, a: Action): Option<Summary> {
    match a
    case Created(p, roles) => Some(Summary(p, roles, true, []))
    case Deleted => None
    case EnabledSet(on) => if k.Some? then Some(k.value.(enabled := on)) else None
    case RolesSet(roles) => if k.Some? then Some(k.value.(roles := roles)) else None
    case CidrsSet(cidrs) => if k.Some? then Some(k.value.(cidrs := cidrs)) else None
    case _ => k
  }

  /** What these actions alone say about their key. */
  function Replayed(acts: seq<Action>): Option<Summary>
    decreases |acts|
  {
    if acts == [] then None else Retold(Replayed(acts[..|acts| - 1]), acts[|acts| - 1])
  }

  lemma ReplayedSnoc(acts: seq<Action>, a: Action)
    ensures Replayed(acts + [a]) == Retold(Replayed(acts), a)
  {
    assert (acts + [a])[..|acts|] == acts;
  }

  /** The actions on `id` in the audit table, in order. */
  function ActionsOn(audit: seq<Event>, id: Id): seq<Action>
    decreases |audit|
  {
    if audit == [] then []
    else
      ActionsOn(audit[..|audit| - 1], id) + if audit[|audit| - 1].id == id then [audit[|audit| - 1].action] else []
  }

  /** What a store call does to the key `id`, as an action. */
  function Touch(env: Env, keys: Keys, c: Call, id: Id): Option<Action> {
    match c
    case TakeBack(i, fails) => if !fails && i == id && id in keys then Some(Deleted) else None
    case Ask(op) => TouchWith(keys, op, Stored(env, keys, op), id)
  }

  function TouchWith(keys: Keys, op: Op, out: Outcome, id: Id): Option<Action> {
    match out
    case Refused(_) => None
    case Changed(keys', e) =>
      if op.req.PurgeExpired? then (if id in keys && id !in keys' then Some(Deleted) else None)
      else if e.id == id then Some(e.action) else None
  }

  /** What the store calls did to the key `id`, in order. */
  function Story(env: Env, cs: seq<Call>, id: Id): seq<Action>
    decreases |cs|
  {
    if cs == [] then []
    else
      var p := cs[..|cs| - 1];
      Story(env, p, id) + (match Touch(env, KeysAfter(env, map[], p), cs[|cs| - 1], id) case Some(a) => [a] case None => [])
  }

  /** The audit table alone tells what is stored about `id`. */
  ghost predicate Retells(s: State, id: Id) { Replayed(ActionsOn(s.audit, id)) == StoredAs(s.keys, id) }

  // ---------------------------------------------------------------- the store is its story

  lemma TouchEdit(env: Env, keys: Keys, op: Op, id: Id)
    requires IsEdit(op.req)
    ensures StoredAs(Called(env, keys, Ask(op)), id) ==
      match Touch(env, keys, Ask(op), id) case Some(a) => Retold(StoredAs(keys, id), a) case None => StoredAs(keys, id)
  {
  }

  lemma TouchOther(env: Env, keys: Keys, c: Call, id: Id)
    requires c.TakeBack? || !IsEdit(c.op.req)
    ensures StoredAs(Called(env, keys, c), id) ==
      match Touch(env, keys, c, id) case Some(a) => Retold(StoredAs(keys, id), a) case None => StoredAs(keys, id)
  {
  }

  /** What is stored about a key is what the store calls that touched it say, replayed in their order. */
  lemma {:induction false} StoreIsItsStory(env: Env, cs: seq<Call>, id: Id)
    ensures StoredAs(KeysAfter(env, map[], cs), id) == Replayed(Story(env, cs, id))
    decreases |cs|
  {
    if cs != [] {
      var p, c := cs[..|cs| - 1], cs[|cs| - 1];
      var keys := KeysAfter(env, map[], p);
      StoreIsItsStory(env, p, id);
      if c.TakeBack? || !IsEdit(c.op.req) {
        TouchOther(env, keys, c, id);
      } else {
        TouchEdit(env, keys, c.op, id);
      }
      match Touch(env, keys, c, id)
      case Some(a) => ReplayedSnoc(Story(env, p, id), a);
      case None => assert Story(env, p, id) + [] == Story(env, p, id);
    }
  }

  // ---------------------------------------------------------------- the last word on each setting

  /** The last thing the actions say about a setting. */
  function LastWord<T>(acts: seq<Action>, says: Action -> Option<T>): Option<T>
    decreases |acts|
  {
    if acts == [] then None
    else if says(acts[|acts| - 1]).Some? then says(acts[|acts| - 1])
    else LastWord(acts[..|acts| - 1], says)
  }

  /** Whether the key exists, and if so whose it is. */
  function SaysOwner(a: Action): Option<Option<string>> {
    match a case Created(p, _) => Some(Some(p)) case Deleted => Some(None) case _ => None
  }

  function SaysRoles(a: Action): Option<seq<string>> {
    match a case Created(_, roles) => Some(roles) case RolesSet(roles) => Some(roles) case _ => None
  }

  function SaysEnabled(a: Action): Option<bool> {
    match a case Created(_, _) => Some(true) case EnabledSet(on) => Some(on) case _ => None
  }

  function SaysCidrs(a: Action): Option<seq<string>> {
    match a case Created(_, _) => Some([]) case CidrsSet(cidrs) => Some(cidrs) case _ => None
  }

  predicate Lives(acts: seq<Action>) {
    LastWord(acts, SaysOwner).Some? && LastWord(acts, SaysOwner).value.Some?
  }

  /** Replaying actions gives their last word on each setting. */
  lemma {:induction false} ReplayIsLastWords(acts: seq<Action>)
    ensures Replayed(acts).Some? <==> Lives(acts)
    ensures Lives(acts) ==>
      && LastWord(acts, SaysOwner) == Some(Some(Replayed(acts).value.principal))
      && LastWord(acts, SaysRoles) == Some(Replayed(acts).value.roles)
      && LastWord(acts, SaysEnabled) == Some(Replayed(acts).value.enabled)
      && LastWord(acts, SaysCidrs) == Some(Replayed(acts).value.cidrs)
    decreases |acts|
  {
    if acts != [] {
      ReplayIsLastWords(acts[..|acts| - 1]);
    }
  }

  /** Two accounts of a key agree on whether it exists and, if so, have the same last word on its
      principal, roles, state and allowed addresses. */
  ghost predicate SameLastWords(a: seq<Action>, b: seq<Action>) {
    && (Lives(a) <==> Lives(b))
    && (Lives(a) ==>
         && LastWord(a, SaysOwner) == LastWord(b, SaysOwner)
         && LastWord(a, SaysRoles) == LastWord(b, SaysRoles)
         && LastWord(a, SaysEnabled) == LastWord(b, SaysEnabled)
         && LastWord(a, SaysCidrs) == LastWord(b, SaysCidrs))
  }

  lemma SameReplayIff(a: seq<Action>, b: seq<Action>)
    ensures Replayed(a) == Replayed(b) <==> SameLastWords(a, b)
  {
    ReplayIsLastWords(a);
    ReplayIsLastWords(b);
  }

  /** In every run, and for every key: the audit table tells what is stored exactly when, setting by
      setting, what was audited last is what was stored last. */
  lemma RetellsIff(env: Env, ls: seq<Step>, id: Id)
    requires Exec(env, Init, ls).Some?
    ensures Retells(Exec(env, Init, ls).value, id) <==>
      SameLastWords(ActionsOn(Exec(env, Init, ls).value.audit, id), Story(env, Calls(ls), id))
  {
    KeysOfRun(env, ls);
    StoreIsItsStory(env, Calls(ls), id);
    SameReplayIff(ActionsOn(Exec(env, Init, ls).value.audit, id), Story(env, Calls(ls), id));
  }

  // ---------------------------------------------------------------- keys whose changes are all audited

  /** The key was touched only by requests of its own: no purge, no create taken back. */
  ghost predicate OnlyAsked(env: Env, cs: seq<Call>, id: Id)
    decreases |cs|
  {
    cs == [] ||
    var p, c := cs[..|cs| - 1], cs[|cs| - 1];
    OnlyAsked(env, p, id) &&
    ((c.TakeBack? || c.op.req.PurgeExpired?) ==> Touch(env, KeysAfter(env, map[], p), c, id).None?)
  }

  lemma ActionsSnoc(audit: seq<Event>, e: Event, id: Id)
    ensures ActionsOn(audit + [e], id) == ActionsOn(audit, id) + if e.id == id then [e.action] else []
  {
    assert (audit + [e])[..|audit|] == audit;
  }

  lemma EventsSnoc(js: seq<Job>, j: Job)
    ensures Events(js + [j]) == Events(js) + [j.event]
  {
  }

  lemma StoryStep(env: Env, s: State, op: Op, stored: seq<Job>, id: Id)
    requires op.req.PurgeExpired? ==> Touch(env, s.keys, Ask(op), id).None? && id != ""
    ensures ActionsOn(Events(Plus(stored, Settles(env, s, Store(op), IsStored))), id) ==
      ActionsOn(Events(stored), id) + match Touch(env, s.keys, Ask(op), id) case Some(a) => [a] case None => []
  {
    if op.req.PurgeExpired? {
      PurgeNamesNoKey(env, s.keys, op);
    }
    StoryStepWith(s, op, Stored(env, s.keys, op), stored, id);
  }

  lemma PurgeNamesNoKey(env: Env, keys: Keys, op: Op)
    requires op.req.PurgeExpired?
    ensures Stored(env, keys, op).Changed? ==> Stored(env, keys, op).event.id == ""
  {
  }

  lemma StoryStepWith(s: State, op: Op, out: Outcome, stored: seq<Job>, id: Id)
    requires op.req.PurgeExpired? && out.Changed? ==> TouchWith(s.keys, op, out, id).None? && id != out.event.id
    ensures ActionsOn(Events(Plus(stored, SettlesWith(s, Store(op), out, IsStored))), id) ==
      ActionsOn(Events(stored), id) + match TouchWith(s.keys, op, out, id) case Some(a) => [a] case None => []
  {
    match out
    case Refused(_) =>
    case Changed(_, e) =>
      EventsSnoc(stored, Job(op, e));
      ActionsSnoc(Events(stored), e, id);
  }

  /** Then its story is the events of the changes stored for it, in the order they were stored. */
  lemma {:induction false} StoryIsStoreOrder(env: Env, ls: seq<Step>, id: Id)
    requires Exec(env, Init, ls).Some? && OnlyAsked(env, Calls(ls), id) && id != ""
    ensures Story(env, Calls(ls), id) == ActionsOn(Events(Jobs(env, ls, IsStored)), id)
    decreases |ls|
  {
    if ls != [] {
      var p, l := ls[..|ls| - 1], ls[|ls| - 1];
      var s := Exec(env, Init, p).value;
      KeysOfRun(env, p);
      JobsSnoc(env, ls, IsStored);
      match l
      case Store(op) =>
        assert Calls(ls)[..|Calls(ls)| - 1] == Calls(p);
        StoryIsStoreOrder(env, p, id);
        StoryStep(env, s, op, Jobs(env, p, IsStored), id);
      case Audit(_) =>
        assert Calls(ls) == Calls(p);
        StoryIsStoreOrder(env, p, id);
      case Undo(_) =>
        assert Calls(ls)[..|Calls(ls)| - 1] == Calls(p);
        StoryIsStoreOrder(env, p, id);
        assert Story(env, Calls(ls), id) == Story(env, Calls(p), id) + [];
    }
  }

  /** No change of `id` is unaudited, taken back or on its way. */
  ghost predicate AllAudited(env: Env, ls: seq<Step>, s: State, id: Id) {
    forall j: Job :: j.event.id == id ==>
      j !in Jobs(env, ls, IsCounted) && j !in Jobs(env, ls, IsUndone) && j !in Jobs(env, ls, IsForgotten) &&
      j !in s.toAudit && j !in s.toUndo
  }

  /** The keys with a change that is counted as unaudited. */
  function CountedKeys(env: Env, ls: seq<Step>): set<Id> {
    set j | j in Jobs(env, ls, IsCounted) :: j.event.id
  }

  lemma {:induction false} FewKeys(js: seq<Job>)
    ensures |set j | j in js :: j.event.id| <= |js|
    decreases |js|
  {
    if js != [] {
      var p, l := js[..|js| - 1], js[|js| - 1];
      FewKeys(p);
      assert (set j | j in js :: j.event.id) == (set j | j in p :: j.event.id) + {l.event.id};
    } else {
      assert (set j | j in js :: j.event.id) == {};
    }
  }

  /** However requests overlap and whatever fails: at most as many keys as the inconsistency counter
      says have an unaudited change.  A key all of whose changes are audited, and which no purge
      removed, has each of its changes in the audit table exactly once; the table tells what is
      stored about it exactly when, setting by setting, the change audited last is the one stored
      last, and so whenever they were audited in the order they were stored. */
  lemma AuditRetellsStore(env: Env, ls: seq<Step>, id: Id)
    requires Exec(env, Init, ls).Some? && id != ""
    ensures |CountedKeys(env, ls)| <= Exec(env, Init, ls).value.inconsistencies
    ensures var s := Exec(env, Init, ls).value;
      var stored, audited := Jobs(env, ls, IsStored), Jobs(env, ls, IsAudited);
      OnlyAsked(env, Calls(ls), id) && AllAudited(env, ls, s, id) ==>
        && (forall j: Job :: j.event.id == id ==> multiset(stored)[j] == multiset(audited)[j])
        && (Retells(s, id) <==> SameLastWords(ActionsOn(Events(audited), id), ActionsOn(Events(stored), id)))
        && (ActionsOn(Events(audited), id) == ActionsOn(Events(stored), id) ==> Retells(s, id))
  {
    CountedKeysAreFew(env, ls);
    if OnlyAsked(env, Calls(ls), id) && AllAudited(env, ls, Exec(env, Init, ls).value, id) {
      AuditedOnceEach(env, ls, id);
      RetellsByOrder(env, ls, id);
    }
  }

  lemma CountedKeysAreFew(env: Env, ls: seq<Step>)
    requires Exec(env, Init, ls).Some?
    ensures |CountedKeys(env, ls)| <= Exec(env, Init, ls).value.inconsistencies
  {
    FewKeys(Jobs(env, ls, IsCounted));
    TablesOfRun(env, ls);
  }

  lemma AuditedOnceEach(env: Env, ls: seq<Step>, id: Id)
    requires Exec(env, Init, ls).Some? && AllAudited(env, ls, Exec(env, Init, ls).value, id)
    ensures forall j: Job :: j.event.id == id ==>
      multiset(Jobs(env, ls, IsStored))[j] == multiset(Jobs(env, ls, IsAudited))[j]
  {
    forall j: Job | j.event.id == id
      ensures multiset(Jobs(env, ls, IsStored))[j] == multiset(Jobs(env, ls, IsAudited))[j]
    {
      TallyRun(env, ls, j);
    }
  }

  lemma RetellsByOrder(env: Env, ls: seq<Step>, id: Id)
    requires Exec(env, Init, ls).Some? && OnlyAsked(env, Calls(ls), id) && id != ""
    ensures var stored, audited := Jobs(env, ls, IsStored), Jobs(env, ls, IsAudited);
      && (Retells(Exec(env, Init, ls).value, id) <==>
          SameLastWords(ActionsOn(Events(audited), id), ActionsOn(Events(stored), id)))
      && (ActionsOn(Events(audited), id) == ActionsOn(Events(stored), id) ==> Retells(Exec(env, Init, ls).value, id))
  {
    TablesOfRun(env, ls);
    StoryIsStoreOrder(env, ls, id);
    RetellsIff(env, ls, id);
  }

  // ---------------------------------------------------------------- no purge, nothing failed

  /** No request was a purge and no create was taken back. */
  ghost predicate Plain(env: Env, ls: seq<Step>) {
    Jobs(env, ls, IsUndone) == [] && forall i :: 0 <= i < |ls| && ls[i].Store? ==> !ls[i].op.req.PurgeExpired?
  }

  lemma {:induction false} PlainIsOnlyAsked(env: Env, ls: seq<Step>, id: Id)
    requires Exec(env, Init, ls).Some? && Plain(env, ls)
    ensures OnlyAsked(env, Calls(ls), id)
    decreases |ls|
  {
    if ls != [] {
      var p, l := ls[..|ls| - 1], ls[|ls| - 1];
      var keys := Exec(env, Init, p).value.keys;
      JobsSnoc(env, ls, IsUndone);
      PlainIsOnlyAsked(env, p, id);
      KeysOfRun(env, p);
      match l
      case Store(op) =>
        assert Calls(ls)[..|Calls(ls)| - 1] == Calls(p);
      case Audit(_) =>
        assert Calls(ls) == Calls(p);
      case Undo(j) =>
        assert Calls(ls)[..|Calls(ls)| - 1] == Calls(p);
        assert Touch(env, keys, TakeBack(j.event.id, j.op.faults.undo), id).None?;
    }
  }

  lemma {:induction false} NothingForgotten(env: Env, ls: seq<Step>)
    requires Exec(env, Init, ls).Some? && forall i :: 0 <= i < |ls| && ls[i].Store? ==> !ls[i].op.req.PurgeExpired?
    ensures Jobs(env, ls, IsForgotten) == []
    decreases |ls|
  {
    if ls != [] {
      var p, l := ls[..|ls| - 1], ls[|ls| - 1];
      JobsSnoc(env, ls, IsForgotten);
      NothingForgotten(env, p);
      if l.Audit? {
        WaitingIsNoPurge(env, p, l.job);
      }
    }
  }

  lemma WaitingIsNoPurge(env: Env, ls: seq<Step>, j: Job)
    requires Exec(env, Init, ls).Some? && forall i :: 0 <= i < |ls| && ls[i].Store? ==> !ls[i].op.req.PurgeExpired?
    requires j in Exec(env, Init, ls).value.toAudit
    ensures !j.op.req.PurgeExpired?
  {
    TallyRun(env, ls, j);
    NoPurgeStored(env, ls);
    assert j in multiset(Jobs(env, ls, IsStored));
  }

  lemma {:induction false} NoPurgeStored(env: Env, ls: seq<Step>)
    requires Exec(env, Init, ls).Some? && forall i :: 0 <= i < |ls| && ls[i].Store? ==> !ls[i].op.req.PurgeExpired?
    ensures forall j :: j in Jobs(env, ls, IsStored) ==> !j.op.req.PurgeExpired?
    decreases |ls|
  {
    if ls != [] {
      NoPurgeStored(env, ls[..|ls| - 1]);
      JobsSnoc(env, ls, IsStored);
    }
  }

  /** With a zero counter, nothing on its way, no purge and no create taken back, every change is in
      the audit table exactly once; it tells what is stored about a key exactly when, setting by
      setting, the change audited last is the one stored last. */
  lemma ZeroCounterFaithfulIff(env: Env, ls: seq<Step>, id: Id)
    requires Exec(env, Init, ls).Some? && Plain(env, ls) && id != ""
    requires Exec(env, Init, ls).value.inconsistencies == 0 && OnTheWay(Exec(env, Init, ls).value) == 0
    ensures multiset(Jobs(env, ls, IsStored)) == multiset(Jobs(env, ls, IsAudited))
    ensures Retells(Exec(env, Init, ls).value, id) <==>
      SameLastWords(ActionsOn(Events(Jobs(env, ls, IsAudited)), id), ActionsOn(Events(Jobs(env, ls, IsStored)), id))
  {
    PlainIsOnlyAsked(env, ls, id);
    RetellsByOrder(env, ls, id);
    NothingForgotten(env, ls);
    TablesOfRun(env, ls);
    var s := Exec(env, Init, ls).value;
    assert s.toAudit == multiset{} && s.toUndo == multiset{};
    forall j: Job ensures multiset(Jobs(env, ls, IsStored))[j] == multiset(Jobs(env, ls, IsAudited))[j] {
      TallyRun(env, ls, j);
    }
  }

  // ---------------------------------------------------------------- crossed updates

  const NoFaults := Faults(false, false, false, false, false, false)

  /** Two requests switch a key off and on; they are stored in this order and audited in the other. */
  function Crossing(gen: Generator, now: int, id: Id): seq<Step> {
    var off, on := Op(gen, now, SetEnabled(id, false), NoFaults), Op(gen, now, SetEnabled(id, true), NoFaults);
    [Store(off), Store(on), Audit(Job(on, Event(id, EnabledSet(true)))), Audit(Job(off, Event(id, EnabledSet(false))))]
  }

  /** From any state with the key: all goes through, the counter does not move, the key is enabled, and
      the audit table says it is disabled. */
  lemma CrossedUpdatesDisagree(env: Env, s: State, gen: Generator, now: int, id: Id)
    requires id in s.keys
    ensures var t := Exec(env, s, Crossing(gen, now, id));
      && t.Some? && t.value.inconsistencies == s.inconsistencies
      && t.value.toAudit == s.toAudit && t.value.toUndo == s.toUndo
      && id in t.value.keys && t.value.keys[id].enabled
      && (Replayed(ActionsOn(t.value.audit, id)).Some? ==> !Replayed(ActionsOn(t.value.audit, id)).value.enabled)
      && !Retells(t.value, id)
  {
    CrossingRuns(env, s, gen, now, id);
    var e1, e2 := Event(id, EnabledSet(true)), Event(id, EnabledSet(false));
    ActionsSnoc(s.audit, e1, id);
    ActionsSnoc(s.audit + [e1], e2, id);
    ReplayedSnoc(ActionsOn(s.audit + [e1], id), EnabledSet(false));
  }

  lemma CrossingRuns(env: Env, s: State, gen: Generator, now: int, id: Id)
    requires id in s.keys
    ensures Exec(env, s, Crossing(gen, now, id)) ==
      Some(s.(keys := s.keys[id := s.keys[id].(enabled := true)],
              audit := s.audit + [Event(id, EnabledSet(true))] + [Event(id, EnabledSet(false))]))
  {
    var off, on := Op(gen, now, SetEnabled(id, false), NoFaults), Op(gen, now, SetEnabled(id, true), NoFaults);
    var j, k := Job(off, Event(id, EnabledSet(false))), Job(on, Event(id, EnabledSet(true)));
    var m := SwitchedTwice(env, s, off, on, id);
    var t := AuditedTwice(env, m, k, j);
    ExecAppend(env, s, [Store(off), Store(on)], [Audit(k), Audit(j)]);
    assert Crossing(gen, now, id) == [Store(off), Store(on)] + [Audit(k), Audit(j)];
    assert t.toAudit == s.toAudit;
  }

  lemma TwoRuns(env: Env, s: State, a: seq<Step>, m: State, b: seq<Step>, t: State, all: seq<Step>)
    requires Exec(env, s, a) == Some(m) && Exec(env, m, b) == Some(t) && all == a + b
    ensures Exec(env, s, all) == Some(t)
  {
    ExecAppend(env, s, a, b);
  }

  lemma AuditedTwice(env: Env, s: State, j: Job, k: Job) returns (t: State)
    requires multiset{j, k} <= s.toAudit && j != k && !j.op.faults.audit && !k.op.faults.audit
    ensures Exec(env, s, [Audit(j), Audit(k)]) == Some(t)
    ensures t == s.(audit := s.audit + [j.event] + [k.event], toAudit := s.toAudit - multiset{j} - multiset{k})
  {
    assert j in s.toAudit && k in s.toAudit - multiset{j};
    OneStep(env, s, Audit(j));
    var m := Next(env, s, Audit(j));
    OneStep(env, m, Audit(k));
    t := Next(env, m, Audit(k));
    TwoRuns(env, s, [Audit(j)], m, [Audit(k)], t, [Audit(j), Audit(k)]);
  }

  lemma Switched(env: Env, s: State, op: Op, id: Id, on: bool) returns (t: State)
    requires id in s.keys && op.req == SetEnabled(id, on) && op.faults == NoFaults
    ensures Exec(env, s, [Store(op)]) == Some(t)
    ensures t == s.(keys := s.keys[id := s.keys[id].(enabled := on)],
                    toAudit := s.toAudit + multiset{Job(op, Event(id, EnabledSet(on)))})
  {
    OneStep(env, s, Store(op));
    t := Next(env, s, Store(op));
  }

  lemma SwitchedTwice(env: Env, s: State, off: Op, on: Op, id: Id) returns (t: State)
    requires id in s.keys && off.req == SetEnabled(id, false) && off.faults == NoFaults
    requires on.req == SetEnabled(id, true) && on.faults == NoFaults
    ensures Exec(env, s, [Store(off), Store(on)]) == Some(t)
    ensures t == s.(keys := s.keys[id := s.keys[id].(enabled := true)],
                    toAudit := s.toAudit + multiset{Job(off, Event(id, EnabledSet(false)))}
                                         + multiset{Job(on, Event(id, EnabledSet(true)))})
  {
    var m := Switched(env, s, off, id, false);
    t := Switched(env, m, on, id, true);
    TwoRuns(env, s, [Store(off)], m, [Store(on)], t, [Store(off), Store(on)]);
    assert t.keys == s.keys[id := s.keys[id].(enabled := true)];
  }

  /** A key to start from: any valid create gets there with a zero counter. */
  lemma CreatedIsReachable(env: Env, op: Op)
    requires op.req.Create? && op.faults == NoFaults && Objection(env, map[], op).None?
    ensures var e := Event(op.req.id, Created(op.req.principal, Cleaned(op.req.roles)));
      var t := Exec(env, Init, [Store(op), Audit(Job(op, e))]);
      && t.Some? && op.req.id in t.value.keys && t.value.inconsistencies == 0 && OnTheWay(t.value) == 0
      && Retells(t.value, op.req.id)
  {
    var e := Event(op.req.id, Created(op.req.principal, Cleaned(op.req.roles)));
    RunSnoc(env, Init, [], Store(op));
    RunSnoc(env, Init, [] + [Store(op)], Audit(Job(op, e)));
    assert [Store(op), Audit(Job(op, e))] == [] + [Store(op)] + [Audit(Job(op, e))];
    ActionsSnoc([], e, op.req.id);
    ReplayedSnoc([], e.action);
    assert [] + [e] == [e] && [] + [e.action] == [e.action];
  }
}
