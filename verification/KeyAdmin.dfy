/**
  The admin API over the key store: each request mutates the store, then writes an audit
  event.  Either can fail; the faults are inputs.
 */
module KeyAdmin {
  import opened Wrappers
  import opened Text
  import Hex

  type Id = string

  datatype KeyRecord = KeyRecord(
    keyHash: string,
    hmacKeyID: string,
    principal: string,
    roles: seq<string>,
    allowedCIDRs: seq<string>,
    enabled: bool,
    expiresAt: Option<int>)

  type Keys = map<Id, KeyRecord>

  datatype Action =
    | Created(principal: string, roles: seq<string>)
    | Deleted
    | EnabledSet(on: bool)
    | ExpirySet(at: Option<int>)
    | RolesSet(roles: seq<string>)
    | CidrsSet(cidrs: seq<string>)
    | Rotated(hmacKeyID: string)
    | Purged(count: int)

  datatype Event = Event(id: Id, action: Action)

  /** The store, its audit table and the AuditInconsistencyTotal metric. */
  datatype World = World(keys: Keys, audit: seq<Event>, inconsistencies: nat)

  const Empty := World(map[], [], 0)

  /** The key generator: the active HMAC secret and its id. */
  datatype Generator = Generator(hmacKeyID: string, hmacSecret: string)

  /** `mac` is HMAC-SHA256 of a text under a secret; `isCIDR` is whether net.ParseCIDR accepts. */
  datatype Env = Env(mac: (string, string) -> seq<Hex.Byte>, isCIDR: string -> bool)

  function Hash(env: Env, g: Generator, secret: string): string { Hex.Encode(env.mac(g.hmacSecret, secret)) }

  /** The expires_at field of a request: absent or null, no RFC3339 time, or a time. */
  datatype Expiry = NoExpiry | Unparsable | Until(t: int)

  function When(e: Expiry): Option<int> { if e.Until? then Some(e.t) else None }

  /** The request with what the handler draws for it: the key id of a create, the secret of a
      create or rotate. */
  datatype Request =
    | Create(id: Id, secret: string, principal: string, roles: seq<string>, expires: Expiry)
    | Delete(id: Id)
    | SetEnabled(id: Id, on: bool)
    | SetExpiry(id: Id, expires: Expiry)
    | SetRoles(id: Id, roles: seq<string>)
    | SetCidrs(id: Id, cidrs: seq<string>)
    | Rotate(id: Id, secret: string)
    | PurgeExpired(before: int)

  /** What goes wrong while the request is handled: decoding its body, key generation, the lookup
      before a rotate, the store mutation, the audit write, the compensating delete. */
  datatype Faults = Faults(decode: bool, keygen: bool, lookup: bool, store: bool, audit: bool, undo: bool)

  datatype Response = BadRequest | NotFound | InternalError | AuditFailed | Done

  /** One handled request: the generator in force, the time, the request and its faults. */
  datatype Op = Op(gen: Generator, now: int, req: Request, faults: Faults)

  const MAX_PRINCIPAL := 256
  const MAX_ROLES := 64
  const MAX_ROLE := 128
  const MAX_CIDRS := 256

  // ---------------------------------------------------------------- validation

  predicate ValidRole(r: string) { TrimSpace(r) != "" && ByteLength(TrimSpace(r)) <= MAX_ROLE }

  predicate ValidRoles(roles: seq<string>) {
    1 <= |roles| <= MAX_ROLES && forall i :: 0 <= i < |roles| ==> ValidRole(roles[i])
  }

  function Cleaned(roles: seq<string>): seq<string> {
    seq(|roles|, i requires 0 <= i < |roles| => TrimSpace(roles[i]))
  }

  predicate ValidExpiry(e: Expiry, now: int) { !e.Unparsable? && (e.Until? ==> e.t > now) }

  predicate ValidCidrs(env: Env, cidrs: seq<string>) {
    |cidrs| <= MAX_CIDRS && forall i :: 0 <= i < |cidrs| ==> env.isCIDR(cidrs[i])
  }

  /** validateRoles. */
  method ValidateRoles(roles: seq<string>) returns (r: Option<seq<string>>)
    ensures r == if ValidRoles(roles) then Some(Cleaned(roles)) else None
    ensures r.Some? ==> |r.value| == |roles| && forall i :: 0 <= i < |roles| ==> r.value[i] == TrimSpace(roles[i])
  {
    if |roles| == 0 || |roles| > MAX_ROLES {
      return None;
    }
    var cleaned: seq<string> := [];
    for i := 0 to |roles|
      invariant cleaned == Cleaned(roles)[..i]
      invariant forall j :: 0 <= j < i ==> ValidRole(roles[j])
    {
      var role := TrimSpace(roles[i]);
      if role == "" || ByteLength(role) > MAX_ROLE {
        return None;
      }
      cleaned := cleaned + [role];
    }
    assert cleaned == Cleaned(roles);
    return Some(cleaned);
  }

  // ---------------------------------------------------------------- the store calls

  predicate HasPassed(expiry: Option<int>, now: int) { expiry.Some? && expiry.value < now }

  predicate IsExpired(r: KeyRecord, at: int) { HasPassed(r.expiresAt, at) }

  function Unexpired(keys: Keys, at: int): Keys {
    map id | id in keys && !IsExpired(keys[id], at) :: keys[id]
  }

  /** What a handler gets to before it audits: a response that ends it, or changed keys and the
      event to write about them. */
  datatype Outcome = Refused(resp: Response) | Changed(keys: Keys, event: Event)

  /** A change of one existing key. */
  function Mutated(keys: Keys, id: Id, rec': KeyRecord -> KeyRecord, a: Action, fails: bool): Outcome {
    if fails then Refused(InternalError)
    else if id !in keys then Refused(NotFound)
    else Changed(keys[id := rec'(keys[id])], Event(id, a))
  }

  /** The change a request makes to one existing key, and what its event says. */
  function Edit(env: Env, op: Op): (KeyRecord -> KeyRecord, Action) {
    match op.req
    case SetEnabled(_, on) => ((r: KeyRecord) => r.(enabled := on), EnabledSet(on))
    case SetExpiry(_, e) => ((r: KeyRecord) => r.(expiresAt := When(e)), ExpirySet(When(e)))
    case SetRoles(_, roles) => ((r: KeyRecord) => r.(roles := Cleaned(roles)), RolesSet(Cleaned(roles)))
    case SetCidrs(_, cidrs) => ((r: KeyRecord) => r.(allowedCIDRs := cidrs), CidrsSet(cidrs))
    case Rotate(_, secret) =>
      var h := Hash(env, op.gen, secret);
      ((r: KeyRecord) => r.(keyHash := h, hmacKeyID := op.gen.hmacKeyID), Rotated(op.gen.hmacKeyID))
    case _ => ((r: KeyRecord) => r, Deleted)
  }

  predicate IsEdit(req: Request) {
    req.SetEnabled? || req.SetExpiry? || req.SetRoles? || req.SetCidrs? || req.Rotate?
  }

  /** What is wrong with a request before the store is asked to change anything.  A rotate looks
      its key up first; that this and its update are one moment here makes no difference, since a
      key that goes in between is not found by the update. */
  function Objection(env: Env, keys: Keys, op: Op): Option<Response> {
    var f := op.faults;
    match op.req
    case Create(_, _, principal, roles, expires) =>
      if f.decode || principal == "" || ByteLength(principal) > MAX_PRINCIPAL || !ValidRoles(roles) then Some(BadRequest)
      else if f.keygen then Some(InternalError)
      else if !ValidExpiry(expires, op.now) then Some(BadRequest)
      else None
    case SetExpiry(_, e) => if f.decode || !ValidExpiry(e, op.now) then Some(BadRequest) else None
    case SetRoles(_, roles) => if f.decode || !ValidRoles(roles) then Some(BadRequest) else None
    case SetCidrs(_, cidrs) => if f.decode || !ValidCidrs(env, cidrs) then Some(BadRequest) else None
    case Rotate(id, _) =>
      if f.lookup then Some(InternalError)
      else if id !in keys then Some(NotFound)
      else if f.keygen then Some(InternalError)
      else None
    case _ => None
  }

  function NewRecord(env: Env, op: Op): KeyRecord
    requires op.req.Create?
  {
    KeyRecord(Hash(env, op.gen, op.req.secret), op.gen.hmacKeyID, op.req.principal, Cleaned(op.req.roles), [], true,
              When(op.req.expires))
  }

  /** A handler up to and including its store call. */
  function Stored(env: Env, keys: Keys, op: Op): Outcome {
    var f := op.faults;
    match Objection(env, keys, op)
    case Some(resp) => Refused(resp)
    case None =>
      if op.req.Create? then
        if f.store || op.req.id in keys then Refused(InternalError)
        else
          Changed(keys[op.req.id := NewRecord(env, op)], Event(op.req.id, Created(op.req.principal, Cleaned(op.req.roles))))
      else if op.req.Delete? then
        if f.store then Refused(InternalError)
        else if op.req.id !in keys then Refused(NotFound)
        else Changed(keys - {op.req.id}, Event(op.req.id, Deleted))
      else if op.req.PurgeExpired? then
        if f.store then Refused(InternalError)
        else
          var left := Unexpired(keys, op.req.before);
          Changed(left, Event("", Purged(|keys| - |left|)))
      else Mutated(keys, op.req.id, Edit(env, op).0, Edit(env, op).1, f.store)
  }

  /** The calls that reach the store: a handler's own, and the delete that takes back a create
      which could not be audited. */
  datatype Call = Ask(op: Op) | TakeBack(id: Id, fails: bool)

  function KeysWith(keys: Keys, out: Outcome): Keys { match out case Refused(_) => keys case Changed(keys', _) => keys' }

  function Called(env: Env, keys: Keys, c: Call): Keys {
    match c
    case Ask(op) => KeysWith(keys, Stored(env, keys, op))
    case TakeBack(id, fails) => if fails then keys else keys - {id}
  }

  /** The keys after the calls `cs`, oldest first. */
  function KeysAfter(env: Env, keys: Keys, cs: seq<Call>): Keys
    decreases |cs|
  {
    if cs == [] then keys else Called(env, KeysAfter(env, keys, cs[..|cs| - 1]), cs[|cs| - 1])
  }

  // ---------------------------------------------------------------- a handler run alone

  /** The store call, the audit event, and what follows if that cannot be written: a create is
      deleted again and counted only if that fails too, a purge is neither undone nor counted,
      everything else is counted. */
  function Handle(env: Env, w: World, op: Op): (World, Response) {
    match Stored(env, w.keys, op)
    case Refused(resp) => (w, resp)
    case Changed(keys, e) =>
      if !op.faults.audit then (World(keys, w.audit + [e], w.inconsistencies), Done)
      else if op.req.PurgeExpired? then (World(keys, w.audit, w.inconsistencies), AuditFailed)
      else if op.req.Create? && !op.faults.undo then
        (World(keys - {op.req.id}, w.audit, w.inconsistencies), AuditFailed)
      else (World(keys, w.audit, w.inconsistencies + 1), AuditFailed)
  }
}
