/**
  The admin API as code: a key store updated in place and handlers that mutate it, write the
  audit event and count what they could not account for.  Each handler is proved against Handle.
 */
module KeyAdminServer {
  import opened Wrappers
  import opened KeyAdmin
  import opened Text

  datatype StoreError = KeyNotFound | StoreFailed

  /** The keys and the audit table; `fails` says that the call's backend is down. */
  class KeyStore {
    var keys: Keys
    var audit: seq<Event>

    constructor ()
      ensures keys == map[] && audit == []
    {
      keys, audit := map[], [];
    }

    method Create(id: Id, rec: KeyRecord, fails: bool) returns (ok: bool)
      modifies this`keys
      ensures ok == (!fails && id !in old(keys))
      ensures keys == if ok then old(keys)[id := rec] else old(keys)
    {
      if fails || id in keys {
        return false;
      }
      keys := keys[id := rec];
      return true;
    }

    /** Any of the setters: looks the record up and overwrites a field. */
    method Update(id: Id, rec': KeyRecord -> KeyRecord, fails: bool) returns (r: Option<StoreError>)
      modifies this`keys
      ensures r == if fails then Some(StoreFailed) else if id !in old(keys) then Some(KeyNotFound) else None
      ensures keys == if r.None? then old(keys)[id := rec'(old(keys)[id])] else old(keys)
    {
      if fails {
        return Some(StoreFailed);
      }
      if id !in keys {
        return Some(KeyNotFound);
      }
      keys := keys[id := rec'(keys[id])];
      return None;
    }

    method Delete(id: Id, fails: bool) returns (r: Option<StoreError>)
      modifies this`keys
      ensures r == if fails then Some(StoreFailed) else if id !in old(keys) then Some(KeyNotFound) else None
      ensures keys == if r.None? then old(keys) - {id} else old(keys)
    {
      if fails {
        return Some(StoreFailed);
      }
      if id !in keys {
        return Some(KeyNotFound);
      }
      keys := keys - {id};
      return None;
    }

    /** Walks the keys in any order and deletes the expired ones, counting them. */
    method DeleteExpired(before: int) returns (n: nat)
      modifies this`keys
      ensures keys == Unexpired(old(keys), before)
      ensures n == |old(keys)| - |keys|
    {
      n := 0;
      var todo := keys.Keys;
      while todo != {}
        invariant todo <= old(keys).Keys && keys.Keys <= old(keys).Keys
        invariant forall id :: id in keys ==> keys[id] == old(keys)[id]
        invariant forall id :: id in todo ==> id in keys
        invariant forall id :: id in old(keys) && id !in todo ==> (id in keys <==> !IsExpired(old(keys)[id], before))
        invariant n + |keys| == |old(keys)|
        decreases |todo|
      {
        var id :| id in todo;
        if IsExpired(keys[id], before) {
          assert |(keys - {id}).Keys| == |keys.Keys - {id}|;
          keys := keys - {id};
          n := n + 1;
        }
        todo := todo - {id};
      }
    }

    method AuditKeyEvent(e: Event, fails: bool) returns (ok: bool)
      modifies this`audit
      ensures ok == !fails
      ensures audit == if fails then old(audit) else old(audit) + [e]
    {
      if fails {
        return false;
      }
      audit := audit + [e];
      return true;
    }
  }

  /** The expiry a request asks for: None if it does not parse or is not in the future. */
  method ParseExpiry(e: Expiry, now: int) returns (at: Option<Option<int>>)
    ensures at == if ValidExpiry(e, now) then Some(When(e)) else None
  {
    match e
    case NoExpiry => return Some(None);
    case Unparsable => return None;
    case Until(t) =>
      if t <= now {
        return None;
      }
      return Some(Some(t));
  }

  class Server {
    const env: Env
    const store: KeyStore
    var inconsistencies: nat

    constructor (env: Env, store: KeyStore)
      ensures this.env == env && this.store == store && inconsistencies == 0
    {
      this.env, this.store, inconsistencies := env, store, 0;
    }

    function View(): World
      reads this, store
    {
      World(store.keys, store.audit, inconsistencies)
    }

    /** The audit event of a mutation already applied. */
    method AuditMutation(e: Event, fails: bool) returns (ok: bool)
      modifies this`inconsistencies, store`audit
      ensures ok == !fails
      ensures View() == if fails then old(View()).(inconsistencies := old(inconsistencies) + 1)
                        else old(View()).(audit := old(store.audit) + [e])
    {
      ok := store.AuditKeyEvent(e, fails);
      if !ok {
        inconsistencies := inconsistencies + 1;
      }
    }

    /** The tail the single-key handlers share: the store call's error, or the audit event. */
    method Finish(r: Option<StoreError>, e: Event, fails: bool) returns (resp: Response)
      modifies this`inconsistencies, store`audit
      ensures r.Some? ==> View() == old(View()) && resp == if r.value.KeyNotFound? then NotFound else InternalError
      ensures r.None? && !fails ==> View() == old(View()).(audit := old(store.audit) + [e]) && resp == Done
      ensures r.None? && fails ==> View() == old(View()).(inconsistencies := old(inconsistencies) + 1) && resp == AuditFailed
    {
      if r == Some(KeyNotFound) {
        return NotFound;
      }
      if r.Some? {
        return InternalError;
      }
      var ok := AuditMutation(e, fails);
      return if ok then Done else AuditFailed;
    }

    method CreateKey(gen: Generator, now: int, id: Id, secret: string, principal: string, roles: seq<string>,
                     expires: Expiry, f: Faults)
      returns (resp: Response)
      modifies this`inconsistencies, store
      ensures (View(), resp) == Handle(env, old(View()), Op(gen, now, Create(id, secret, principal, roles, expires), f))
    {
      if f.decode || principal == "" || ByteLength(principal) > MAX_PRINCIPAL {
        return BadRequest;
      }
      var cleaned := ValidateRoles(roles);
      if cleaned.None? {
        return BadRequest;
      }
      if f.keygen {
        return InternalError;
      }
      var at := ParseExpiry(expires, now);
      if at.None? {
        return BadRequest;
      }
      var rec := KeyRecord(Hash(env, gen, secret), gen.hmacKeyID, principal, cleaned.value, [], true, at.value);
      var created := store.Create(id, rec, f.store);
      if !created {
        return InternalError;
      }
      var audited := store.AuditKeyEvent(Event(id, Created(principal, cleaned.value)), f.audit);
      if !audited {
        // The key is live but unaudited: take it back, and count it if that fails too.
        var undone := store.Delete(id, f.undo);
        if undone.Some? {
          inconsistencies := inconsistencies + 1;
        }
        return AuditFailed;
      }
      return Done;
    }

    method DeleteKey(gen: Generator, now: int, id: Id, f: Faults) returns (resp: Response)
      modifies this`inconsistencies, store
      ensures (View(), resp) == Handle(env, old(View()), Op(gen, now, Delete(id), f))
    {
      var r := store.Delete(id, f.store);
      resp := Finish(r, Event(id, Deleted), f.audit);
    }

    method SetKeyEnabled(gen: Generator, now: int, id: Id, on: bool, f: Faults) returns (resp: Response)
      modifies this`inconsistencies, store
      ensures (View(), resp) == Handle(env, old(View()), Op(gen, now, SetEnabled(id, on), f))
    {
      var r := store.Update(id, (r: KeyRecord) => r.(enabled := on), f.store);
      resp := Finish(r, Event(id, EnabledSet(on)), f.audit);
    }

    method SetKeyExpiry(gen: Generator, now: int, id: Id, expires: Expiry, f: Faults) returns (resp: Response)
      modifies this`inconsistencies, store
      ensures (View(), resp) == Handle(env, old(View()), Op(gen, now, SetExpiry(id, expires), f))
    {
      if f.decode {
        return BadRequest;
      }
      var at := ParseExpiry(expires, now);
      if at.None? {
        return BadRequest;
      }
      var r := store.Update(id, (r: KeyRecord) => r.(expiresAt := at.value), f.store);
      resp := Finish(r, Event(id, ExpirySet(at.value)), f.audit);
    }

    method UpdateRoles(gen: Generator, now: int, id: Id, roles: seq<string>, f: Faults) returns (resp: Response)
      modifies this`inconsistencies, store
      ensures (View(), resp) == Handle(env, old(View()), Op(gen, now, SetRoles(id, roles), f))
    {
      if f.decode {
        return BadRequest;
      }
      var cleaned := ValidateRoles(roles);
      if cleaned.None? {
        return BadRequest;
      }
      var r := store.Update(id, (r: KeyRecord) => r.(roles := cleaned.value), f.store);
      resp := Finish(r, Event(id, RolesSet(cleaned.value)), f.audit);
    }

    method UpdateAllowedCIDRs(gen: Generator, now: int, id: Id, cidrs: seq<string>, f: Faults) returns (resp: Response)
      modifies this`inconsistencies, store
      ensures (View(), resp) == Handle(env, old(View()), Op(gen, now, SetCidrs(id, cidrs), f))
    {
      if f.decode || |cidrs| > MAX_CIDRS {
        return BadRequest;
      }
      for i := 0 to |cidrs|
        invariant View() == old(View())
        invariant forall j :: 0 <= j < i ==> env.isCIDR(cidrs[j])
      {
        if !env.isCIDR(cidrs[i]) {
          return BadRequest;
        }
      }
      var r := store.Update(id, (r: KeyRecord) => r.(allowedCIDRs := cidrs), f.store);
      resp := Finish(r, Event(id, CidrsSet(cidrs)), f.audit);
    }

    method RotateKey(gen: Generator, now: int, id: Id, secret: string, f: Faults) returns (resp: Response)
      modifies this`inconsistencies, store
      ensures (View(), resp) == Handle(env, old(View()), Op(gen, now, Rotate(id, secret), f))
    {
      if f.lookup {
        return InternalError;
      }
      if id !in store.keys {
        return NotFound;
      }
      if f.keygen {
        return InternalError;
      }
      var hash := Hash(env, gen, secret);
      var r := store.Update(id, (r: KeyRecord) => r.(keyHash := hash, hmacKeyID := gen.hmacKeyID), f.store);
      resp := Finish(r, Event(id, Rotated(gen.hmacKeyID)), f.audit);
    }

    /** The count goes to the audit event; a failed audit write is not counted here. */
    method PurgeKeys(gen: Generator, now: int, f: Faults) returns (resp: Response)
      modifies this`inconsistencies, store
      ensures (View(), resp) == Handle(env, old(View()), Op(gen, now, PurgeExpired(now), f))
    {
      if f.store {
        return InternalError;
      }
      var n := store.DeleteExpired(now);
      var audited := store.AuditKeyEvent(Event("", Purged(n)), f.audit);
      return if audited then Done else AuditFailed;
    }
  }
}
