/** What the answers of the admin API tell a client, and what can be in the store at all. */
module KeyAdminResponses {
  import opened Wrappers
  import opened Text
  import opened KeyAdmin
  import opened KeyAdminRuns
  import opened KeyAdminTheorems

  // ---------------------------------------------------------------- the answer to one request

  /** Done says exactly that the store call went through and its event is the one new entry of the
      audit table; with any other answer nothing is added to it. */
  lemma DoneIffAudited(env: Env, w: World, op: Op)
    ensures var (w', resp) := Handle(env, w, op);
      var out := Stored(env, w.keys, op);
      && (resp == Done <==> out.Changed? && w'.audit == w.audit + [out.event])
      && (resp == Done ==> w'.keys == out.keys && w'.inconsistencies == w.inconsistencies)
      && (resp != Done ==> w'.audit == w.audit)
  {
    assert forall e :: w.audit != w.audit + [e] by {
      forall e ensures w.audit != w.audit + [e] {
        assert |w.audit + [e]| == |w.audit| + 1;
      }
    }
  }

  /** A request answered Done has done what it asks for, to its own key only, and its event says so. */
  lemma DoneMeansDone(env: Env, w: World, op: Op)
    requires Handle(env, w, op).1 == Done
    ensures var w' := Handle(env, w, op).0;
      match op.req
      case Create(id, secret, principal, roles, expires) =>
        && id !in w.keys && w'.audit == w.audit + [Event(id, Created(principal, Cleaned(roles)))]
        && w'.keys == w.keys[id := KeyRecord(Hash(env, op.gen, secret), op.gen.hmacKeyID, principal, Cleaned(roles), [],
                                             true, if expires.Until? then Some(expires.t) else None)]
      case Delete(id) => id in w.keys && w'.keys == w.keys - {id} && w'.audit == w.audit + [Event(id, Deleted)]
      case PurgeExpired(before) =>
        && w'.keys == (map id | id in w.keys && (w.keys[id].expiresAt.Some? ==> before <= w.keys[id].expiresAt.value)
                        :: w.keys[id])
        && w'.audit == w.audit + [Event("", Purged(|w.keys| - |w'.keys|))]
      case _ => Edits(env, w, op, w')
  {
    if op.req.PurgeExpired? {
      PurgeKeepsTheRest(w.keys, op.req.before);
    }
  }

  lemma PurgeKeepsTheRest(keys: Keys, before: int)
    ensures Unexpired(keys, before) ==
      map id | id in keys && (keys[id].expiresAt.Some? ==> before <= keys[id].expiresAt.value) :: keys[id]
  {
  }

  /** One setting of one key is changed, and the event says to what. */
  ghost predicate Edits(env: Env, w: World, op: Op, w': World) {
    match op.req
    case SetEnabled(id, on) =>
      && id in w.keys && w'.keys == w.keys[id := w.keys[id].(enabled := on)]
      && w'.audit == w.audit + [Event(id, EnabledSet(on))]
    case SetExpiry(id, e) =>
      && id in w.keys && w'.audit == w.audit + [Event(id, ExpirySet(if e.Until? then Some(e.t) else None))]
      && w'.keys == w.keys[id := w.keys[id].(expiresAt := if e.Until? then Some(e.t) else None)]
    case SetRoles(id, roles) =>
      && id in w.keys && w'.keys == w.keys[id := w.keys[id].(roles := Cleaned(roles))]
      && w'.audit == w.audit + [Event(id, RolesSet(Cleaned(roles)))]
    case SetCidrs(id, cidrs) =>
      && id in w.keys && w'.keys == w.keys[id := w.keys[id].(allowedCIDRs := cidrs)]
      && w'.audit == w.audit + [Event(id, CidrsSet(cidrs))]
    case Rotate(id, secret) =>
      && id in w.keys && w'.audit == w.audit + [Event(id, Rotated(op.gen.hmacKeyID))]
      && w'.keys == w.keys[id := w.keys[id].(keyHash := Hash(env, op.gen, secret), hmacKeyID := op.gen.hmacKeyID)]
    case _ => false
  }

  /** In particular a client that is handed a secret has a key. */
  lemma DoneCreateIsStored(env: Env, w: World, op: Op)
    requires op.req.Create?
    ensures Handle(env, w, op).1 == Done ==> op.req.id in Handle(env, w, op).0.keys
    ensures Handle(env, w, op).1 != Done && op.req.id !in w.keys ==>
      (op.req.id in Handle(env, w, op).0.keys <==>
        Handle(env, w, op).1 == AuditFailed && Handle(env, w, op).0.inconsistencies == w.inconsistencies + 1)
  {
  }

  /** A refused request changes nothing at all.  A failed audit says that the store call went through
      and is not in the audit table: a create has been taken back, or is counted; a purge stays and is
      not counted; everything else stays and is counted. */
  lemma OtherAnswersTell(env: Env, w: World, op: Op)
    ensures var (w', resp) := Handle(env, w, op);
      var out := Stored(env, w.keys, op);
      && (resp in {BadRequest, NotFound, InternalError} ==> w' == w)
      && (resp == AuditFailed <==> out.Changed? && op.faults.audit)
      && (resp == AuditFailed && op.req.Create? ==>
           if op.faults.undo then w' == World(out.keys, w.audit, w.inconsistencies + 1) else w' == w)
      && (resp == AuditFailed && op.req.PurgeExpired? ==> w' == World(out.keys, w.audit, w.inconsistencies))
      && (resp == AuditFailed && !op.req.Create? && !op.req.PurgeExpired? ==>
           w' == World(out.keys, w.audit, w.inconsistencies + 1))
  {
    RefusalsAreNotDone(env, w.keys, op);
    if op.req.Create? && Stored(env, w.keys, op).Changed? {
      var keys := w.keys[op.req.id := NewRecord(env, op)];
      assert keys - {op.req.id} == w.keys;
    }
  }

  lemma RefusalsAreNotDone(env: Env, keys: Keys, op: Op)
    ensures Stored(env, keys, op).Refused? ==> Stored(env, keys, op).resp in {BadRequest, NotFound, InternalError}
  {
  }

  // ---------------------------------------------------------------- which answer

  predicate GoodRoles(roles: seq<string>) {
    1 <= |roles| <= 64 && forall r :: r in roles ==> TrimSpace(r) != "" && ByteLength(TrimSpace(r)) <= 128
  }

  predicate GoodExpiry(e: Expiry, now: int) { e.NoExpiry? || (e.Until? && now < e.t) }

  /** The request itself is in order: its body decodes and its fields are within their limits. */
  predicate InOrder(env: Env, op: Op) {
    match op.req
    case Create(_, _, principal, roles, e) =>
      !op.faults.decode && 1 <= ByteLength(principal) <= 256 && GoodRoles(roles) && GoodExpiry(e, op.now)
    case SetExpiry(_, e) => !op.faults.decode && GoodExpiry(e, op.now)
    case SetRoles(_, roles) => !op.faults.decode && GoodRoles(roles)
    case SetCidrs(_, cidrs) => !op.faults.decode && |cidrs| <= 256 && forall c :: c in cidrs ==> env.isCIDR(c)
    case _ => true
  }

  lemma GoodRolesAre(roles: seq<string>)
    ensures ValidRoles(roles) <==> GoodRoles(roles)
  {
    if ValidRoles(roles) {
      forall r | r in roles ensures TrimSpace(r) != "" && ByteLength(TrimSpace(r)) <= 128 {
        var i :| 0 <= i < |roles| && roles[i] == r;
        assert ValidRole(roles[i]);
      }
    }
    if GoodRoles(roles) {
      forall i | 0 <= i < |roles| ensures ValidRole(roles[i]) {
        assert roles[i] in roles;
      }
    }
  }

  lemma EmptyIffNoBytes(s: string)
    ensures s == "" <==> ByteLength(s) == 0
  {
  }

  lemma ObjectionIs(env: Env, keys: Keys, op: Op)
    ensures Objection(env, keys, op) == Some(BadRequest) ==> !InOrder(env, op)
    ensures !InOrder(env, op) ==>
      || Objection(env, keys, op) == Some(BadRequest)
      || (op.req.Create? && op.faults.keygen && Objection(env, keys, op) == Some(InternalError))
  {
    match op.req
    case Create(_, _, principal, roles, _) =>
      EmptyIffNoBytes(principal);
      GoodRolesAre(roles);
    case SetRoles(_, roles) => GoodRolesAre(roles);
    case SetCidrs(_, cidrs) =>
      assert ValidCidrs(env, cidrs) <==> |cidrs| <= 256 && forall c :: c in cidrs ==> env.isCIDR(c);
    case _ =>
  }

  /** The call that fails for a request that names a key. */
  predicate StoreDown(op: Op) {
    if op.req.Rotate? then op.faults.lookup || op.faults.keygen || op.faults.store
    else if op.req.Create? then op.faults.keygen || op.faults.store
    else op.faults.store
  }

  /** Which request gets which answer: a request out of order a 400, unless making a secret for it
      failed first; one in order a 404 only if its key is missing; a 500 only if something failed or a
      new id is taken; and otherwise, and only then, it goes through. */
  lemma AnswersExactly(env: Env, w: World, op: Op)
    ensures var resp := Handle(env, w, op).1;
      var present := op.req.PurgeExpired? || op.req.Create? || op.req.id in w.keys;
      var taken := op.req.Create? && op.req.id in w.keys;
      && (resp == BadRequest ==> !InOrder(env, op))
      && (!InOrder(env, op) ==> resp == BadRequest || (resp == InternalError && op.req.Create? && op.faults.keygen))
      && (resp == NotFound ==> InOrder(env, op) && !present)
      && (resp == InternalError ==> StoreDown(op) || taken)
      && (InOrder(env, op) && !StoreDown(op) && !taken ==>
           resp == if !present then NotFound else if op.faults.audit then AuditFailed else Done)
      && (InOrder(env, op) && (StoreDown(op) || taken) ==>
           resp == if op.req.Rotate? && !op.faults.lookup && !present then NotFound else InternalError)
  {
    ObjectionIs(env, w.keys, op);
  }

  // ---------------------------------------------------------------- what is stored

  /** The limits every stored record keeps. */
  ghost predicate WellFormed(env: Env, r: KeyRecord) {
    && 1 <= ByteLength(r.principal) <= 256 && WellFormedRoles(r.roles)
    && |r.allowedCIDRs| <= 256 && forall c :: c in r.allowedCIDRs ==> env.isCIDR(c)
  }

  ghost predicate WellFormedRoles(roles: seq<string>) {
    && 1 <= |roles| <= 64
    && forall r :: r in roles ==> r != "" && ByteLength(r) <= 128 && !IsSpace(r[0]) && !IsSpace(r[|r| - 1])
  }

  lemma CleanedAreWellFormed(roles: seq<string>)
    requires ValidRoles(roles)
    ensures WellFormedRoles(Cleaned(roles))
  {
    forall r | r in Cleaned(roles) ensures r != "" && ByteLength(r) <= 128 && !IsSpace(r[0]) && !IsSpace(r[|r| - 1]) {
      var i :| 0 <= i < |roles| && Cleaned(roles)[i] == r;
      assert ValidRole(roles[i]);
      var _, _ := TrimmedEnds(roles[i]);
    }
  }

  lemma EditKeepsLimits(env: Env, keys: Keys, op: Op, r: KeyRecord)
    requires IsEdit(op.req) && Objection(env, keys, op).None? && WellFormed(env, r)
    ensures WellFormed(env, Edit(env, op).0(r))
  {
    if op.req.SetRoles? {
      CleanedAreWellFormed(op.req.roles);
    }
  }

  lemma NewKeepsLimits(env: Env, keys: Keys, op: Op)
    requires op.req.Create? && Objection(env, keys, op).None?
    ensures WellFormed(env, NewRecord(env, op))
  {
    EmptyIffNoBytes(op.req.principal);
    CleanedAreWellFormed(op.req.roles);
  }

  ghost predicate AllWellFormed(env: Env, keys: Keys) { forall id :: id in keys ==> WellFormed(env, keys[id]) }

  lemma CallKeepsLimits(env: Env, keys: Keys, c: Call)
    requires AllWellFormed(env, keys)
    ensures AllWellFormed(env, Called(env, keys, c))
  {
    if c.Ask? && Stored(env, keys, c.op).Changed? {
      if c.op.req.Create? {
        NewKeepsLimits(env, keys, c.op);
      } else if IsEdit(c.op.req) {
        StoredEdit(env, keys, c.op);
        EditKeepsLimits(env, keys, c.op, keys[c.op.req.id]);
      }
    }
  }

  lemma StoredEdit(env: Env, keys: Keys, op: Op)
    requires IsEdit(op.req) && Stored(env, keys, op).Changed?
    ensures Objection(env, keys, op).None? && op.req.id in keys
    ensures Called(env, keys, Ask(op)) == keys[op.req.id := Edit(env, op).0(keys[op.req.id])]
  {
  }

  lemma {:induction false} CallsKeepLimits(env: Env, cs: seq<Call>)
    ensures AllWellFormed(env, KeysAfter(env, map[], cs))
    decreases |cs|
  {
    if cs != [] {
      CallsKeepLimits(env, cs[..|cs| - 1]);
      CallKeepsLimits(env, KeysAfter(env, map[], cs[..|cs| - 1]), cs[|cs| - 1]);
    }
  }

  /** At any point of any run of overlapping requests, every stored key has a principal of 1 to 256
      bytes, 1 to 64 roles of 1 to 128 bytes with no white space at their ends, and at most 256
      allowed ranges, all of them CIDRs. */
  lemma StoreIsWellFormed(env: Env, ls: seq<Step>)
    requires Exec(env, Init, ls).Some?
    ensures AllWellFormed(env, Exec(env, Init, ls).value.keys)
  {
    KeysOfRun(env, ls);
    CallsKeepLimits(env, Calls(ls));
  }

  /** A request that sets this expiry of the key, before it. */
  predicate SetsAhead(c: Call, id: Id, at: int) {
    c.Ask? && c.op.now < at && ((c.op.req.Create? && c.op.req.id == id && c.op.req.expires == Until(at)) ||
                                (c.op.req.SetExpiry? && c.op.req.id == id && c.op.req.expires == Until(at)))
  }

  lemma ExpiryStep(env: Env, keys: Keys, c: Call, id: Id)
    requires id in Called(env, keys, c) && Called(env, keys, c)[id].expiresAt.Some?
    ensures SetsAhead(c, id, Called(env, keys, c)[id].expiresAt.value) ||
      (id in keys && keys[id].expiresAt == Called(env, keys, c)[id].expiresAt)
  {
  }

  /** Every stored expiry lay in the future when a request for that key set it. */
  lemma {:induction false} ExpirySetAhead(env: Env, cs: seq<Call>, id: Id)
    requires id in KeysAfter(env, map[], cs) && KeysAfter(env, map[], cs)[id].expiresAt.Some?
    ensures exists i :: 0 <= i < |cs| && SetsAhead(cs[i], id, KeysAfter(env, map[], cs)[id].expiresAt.value)
    decreases |cs|
  {
    var p, c := cs[..|cs| - 1], cs[|cs| - 1];
    var at := KeysAfter(env, map[], cs)[id].expiresAt.value;
    ExpiryStep(env, KeysAfter(env, map[], p), c, id);
    if !SetsAhead(c, id, at) {
      ExpirySetAhead(env, p, id);
      var i :| 0 <= i < |p| && SetsAhead(p[i], id, at);
      assert SetsAhead(cs[i], id, at);
    }
  }

  // ---------------------------------------------------------------- answers over a run

  /** The answer a step sends, if it ends its request. */
  function Reply(env: Env, s: State, l: Step): Option<Response> {
    match l
    case Store(op) => (match Stored(env, s.keys, op) case Refused(resp) => Some(resp) case Changed(_, _) => None)
    case Audit(j) =>
      if !j.op.faults.audit then Some(Done) else if j.op.req.Create? then None else Some(AuditFailed)
    case Undo(_) => Some(AuditFailed)
  }

  function Replies(env: Env, s: State, ls: seq<Step>): seq<Response>
    decreases |ls|
  {
    if ls == [] then []
    else
      Replies(env, s, ls[..|ls| - 1]) +
      (match Exec(env, s, ls[..|ls| - 1])
       case None => []
       case Some(m) => (match Reply(env, m, ls[|ls| - 1]) case Some(r) => [r] case None => []))
  }

  lemma RepliesSnoc(env: Env, s: State, ls: seq<Step>, l: Step, m: State)
    requires Exec(env, s, ls) == Some(m)
    ensures Replies(env, s, ls + [l]) == Replies(env, s, ls) + match Reply(env, m, l) case Some(r) => [r] case None => []
  {
    assert (ls + [l])[..|ls + [l]| - 1] == ls;
  }

  /** A request that nobody interrupts is answered once, with the handler's answer. */
  lemma HandleAnswersOnce(env: Env, w: World, op: Op)
    ensures Replies(env, Alone(w), StepsOf(env, w, op)) == [Handle(env, w, op).1]
  {
    var s := Alone(w);
    var s1 := Next(env, s, Store(op));
    RepliesSnoc(env, s, [], Store(op), s);
    RunSnoc(env, s, [], Store(op));
    assert [] + [Store(op)] == [Store(op)];
    match Stored(env, w.keys, op)
    case Refused(_) =>
    case Changed(_, e) => AuditAnswers(env, w, op, s1, Job(op, e));
  }

  lemma AuditAnswers(env: Env, w: World, op: Op, s1: State, j: Job)
    requires Exec(env, Alone(w), [Store(op)]) == Some(s1) && Replies(env, Alone(w), [Store(op)]) == []
    requires Stored(env, w.keys, op).Changed? && j == Job(op, Stored(env, w.keys, op).event) && j in s1.toAudit
    ensures Replies(env, Alone(w), StepsOf(env, w, op)) == [Handle(env, w, op).1]
  {
    var s := Alone(w);
    RepliesSnoc(env, s, [Store(op)], Audit(j), s1);
    RunSnoc(env, s, [Store(op)], Audit(j));
    assert [Store(op)] + [Audit(j)] == [Store(op), Audit(j)];
    if op.faults.audit && op.req.Create? {
      RepliesSnoc(env, s, [Store(op), Audit(j)], Undo(j), Next(env, s1, Audit(j)));
      assert [Store(op), Audit(j)] + [Undo(j)] == [Store(op), Audit(j), Undo(j)];
    }
  }

  function Count(rs: seq<Response>, r: Response): nat
    decreases |rs|
  {
    if rs == [] then 0 else Count(rs[..|rs| - 1], r) + if rs[|rs| - 1] == r then 1 else 0
  }

  lemma CountSnoc(rs: seq<Response>, x: Response, r: Response)
    ensures Count(rs + [x], r) == Count(rs, r) + if x == r then 1 else 0
  {
    assert (rs + [x])[..|rs|] == rs;
  }

  /** However requests overlap: there are as many answers Done as audit events, and as many failed
      audits as changes counted, forgotten or taken back. */
  lemma {:induction false} AnswersMatchTables(env: Env, ls: seq<Step>)
    requires Exec(env, Init, ls).Some?
    ensures Count(Replies(env, Init, ls), Done) == |Exec(env, Init, ls).value.audit|
    ensures Count(Replies(env, Init, ls), AuditFailed) ==
      |Jobs(env, ls, IsCounted)| + |Jobs(env, ls, IsForgotten)| + |Jobs(env, ls, IsUndone)|
    decreases |ls|
  {
    if ls != [] {
      var p, l := ls[..|ls| - 1], ls[|ls| - 1];
      var m := Exec(env, Init, p).value;
      AnswersMatchTables(env, p);
      JobsSnoc(env, ls, IsCounted);
      JobsSnoc(env, ls, IsForgotten);
      JobsSnoc(env, ls, IsUndone);
      if l.Store? {
        RefusalsAreNotDone(env, m.keys, l.op);
      }
      ReplyMatches(env, m, l);
      match Reply(env, m, l)
      case None => assert Replies(env, Init, ls) == Replies(env, Init, p);
      case Some(r) =>
        CountSnoc(Replies(env, Init, p), r, Done);
        CountSnoc(Replies(env, Init, p), r, AuditFailed);
    }
  }

  function One(b: bool): nat { if b then 1 else 0 }

  lemma ReplyMatches(env: Env, s: State, l: Step)
    requires Enabled(s, l) && (l.Store? && Stored(env, s.keys, l.op).Refused? ==>
      Stored(env, s.keys, l.op).resp != Done && Stored(env, s.keys, l.op).resp != AuditFailed)
    ensures |Next(env, s, l).audit| == |s.audit| + One(Reply(env, s, l) == Some(Done))
    ensures One(Reply(env, s, l) == Some(AuditFailed)) ==
      One(Settles(env, s, l, IsCounted).Some?) + One(Settles(env, s, l, IsForgotten).Some?) +
      One(Settles(env, s, l, IsUndone).Some?)
  {
  }
}
