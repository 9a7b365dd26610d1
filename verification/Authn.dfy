/** Authentication of proxied requests against the key store. */
module Authn {
  import opened Wrappers
  import opened KeyAdmin
  import opened KeyAdminRuns
  import opened KeyAdminTheorems
  import Hex

  const SHA256_SIZE := 32

  /** What the client sees.  Denied is the one generic 401 for every authentication failure. */
  datatype Reply =
    | MissingHeader
    | MalformedHeader
    | Denied
    | ServerError
    | Accepted(principal: string, id: Id, roles: seq<string>)

  datatype Check = Match | Mismatch | Internal

  /** The HMAC secrets by id, and which addresses a CIDR text contains; a text that does not
      parse contains none. */
  datatype Config<!Ip> = Config(secrets: map<string, string>, contains: (string, Ip) -> bool)

  /** HmacService.Authenticate. */
  function Verified(env: Env, secrets: map<string, string>, rec: KeyRecord, secret: string): Check {
    if rec.hmacKeyID !in secrets || secrets[rec.hmacKeyID] == "" then Internal
    else
      match Hex.Decode(rec.keyHash)
      case None => Internal
      case Some(expected) =>
        if |expected| != SHA256_SIZE then Mismatch
        else if env.mac(secrets[rec.hmacKeyID], secret) == expected then Match else Mismatch
  }

  predicate IpAdmits<Ip>(c: Config<Ip>, cidrs: seq<string>, ip: Option<Ip>) {
    cidrs == [] || (ip.Some? && exists i :: 0 <= i < |cidrs| && c.contains(cidrs[i], ip.value))
  }

  /** strings.Cut at the first colon. */
  function Cut(s: string): Option<(string, string)> {
    if s == "" then None
    else if s[0] == ':' then Some(("", s[1..]))
    else match Cut(s[1..]) case None => None case Some((a, b)) => Some(([s[0]] + a, b))
  }

  /** The reply to a request with key id and secret when the record, if any, is `rec`. */
  function Decided<Ip>(env: Env, c: Config<Ip>, id: Id, rec: KeyRecord, secret: string, now: int, ip: Option<Ip>): Reply {
    match Verified(env, c.secrets, rec, secret)
    case Internal => ServerError
    case Mismatch => Denied
    case Match =>
      if !rec.enabled || IsExpired(rec, now) || !IpAdmits(c, rec.allowedCIDRs, ip) then Denied
      else Accepted(rec.principal, id, rec.roles)
  }

  function Respond<Ip>(env: Env, c: Config<Ip>, keys: Keys, storeFails: bool, header: string, now: int, ip: Option<Ip>)
    : Reply
  {
    if header == "" then MissingHeader
    else
      match Cut(header)
      case None => MalformedHeader
      case Some((id, secret)) =>
        if id == "" || secret == "" then MalformedHeader
        else if storeFails then ServerError
        else if id !in keys then Denied
        else Decided(env, c, id, keys[id], secret, now, ip)
  }

  function Header(id: Id, secret: string): string { id + [':'] + secret }

  lemma {:induction false} CutHeader(id: Id, secret: string)
    requires ':' !in id
    ensures Cut(Header(id, secret)) == Some((id, secret))
  {
    if id == "" {
      assert Header(id, secret) == [':'] + secret;
    } else {
      CutHeader(id[1..], secret);
      assert Header(id, secret)[1..] == Header(id[1..], secret);
      assert [id[0]] + id[1..] == id;
    }
  }

  // ---------------------------------------------------------------- the last minted secret

  type Minted = Option<(Generator, string)>

  /** The generator and secret of the last create or rotate that reached the key `id`. */
  function LastMinted(env: Env, cs: seq<Call>, id: Id): Minted
    decreases |cs|
  {
    if cs == [] then None
    else
      var p := cs[..|cs| - 1];
      Minting(env, KeysAfter(env, map[], p), cs[|cs| - 1], id, LastMinted(env, p, id))
  }

  /** What a store call makes of the last minted secret of `id`. */
  function Minting(env: Env, keys: Keys, c: Call, id: Id, m: Minted): Minted {
    if c.Ask? && (c.op.req.Create? || c.op.req.Rotate?) && c.op.req.id == id && Stored(env, keys, c.op).Changed?
    then Some((c.op.gen, c.op.req.secret)) else m
  }

  ghost predicate Holds(env: Env, keys: Keys, id: Id, m: Minted) {
    id in keys ==>
      m.Some? && keys[id].keyHash == Hash(env, m.value.0, m.value.1) && keys[id].hmacKeyID == m.value.0.hmacKeyID
  }

  lemma MintEdit(env: Env, keys: Keys, op: Op, id: Id, m: Minted)
    requires Holds(env, keys, id, m) && IsEdit(op.req)
    ensures Holds(env, Called(env, keys, Ask(op)), id, Minting(env, keys, Ask(op), id, m))
  {
  }

  lemma MintOther(env: Env, keys: Keys, c: Call, id: Id, m: Minted)
    requires Holds(env, keys, id, m) && (c.TakeBack? || !IsEdit(c.op.req))
    ensures Holds(env, Called(env, keys, c), id, Minting(env, keys, c, id, m))
  {
  }

  /** Every stored hash is that of the last secret minted for its key. */
  lemma {:induction false} StoreHoldsLastMinted(env: Env, cs: seq<Call>, id: Id)
    ensures Holds(env, KeysAfter(env, map[], cs), id, LastMinted(env, cs, id))
    decreases |cs|
  {
    if cs != [] {
      var p, c := cs[..|cs| - 1], cs[|cs| - 1];
      StoreHoldsLastMinted(env, p, id);
      if c.TakeBack? || !IsEdit(c.op.req) {
        MintOther(env, KeysAfter(env, map[], p), c, id, LastMinted(env, p, id));
      } else {
        MintEdit(env, KeysAfter(env, map[], p), c.op, id, LastMinted(env, p, id));
      }
    }
  }

  predicate IsConfigured(secrets: map<string, string>, g: Generator) {
    g.hmacKeyID in secrets && secrets[g.hmacKeyID] == g.hmacSecret && g.hmacSecret != ""
  }

  /** Every generator used was one of the configured secrets. */
  ghost predicate Configured(secrets: map<string, string>, cs: seq<Call>) {
    forall i :: 0 <= i < |cs| && cs[i].Ask? ==> IsConfigured(secrets, cs[i].op.gen)
  }

  ghost predicate MacIsSha256(env: Env) {
    forall k: string, t: string {:trigger env.mac(k, t)} :: |env.mac(k, t)| == SHA256_SIZE
  }

  lemma {:induction false} MintedIsConfigured(env: Env, secrets: map<string, string>, cs: seq<Call>, id: Id)
    requires Configured(secrets, cs)
    ensures LastMinted(env, cs, id).Some? ==> IsConfigured(secrets, LastMinted(env, cs, id).value.0)
    decreases |cs|
  {
    if cs != [] {
      MintedIsConfigured(env, secrets, cs[..|cs| - 1], id);
      assert cs[|cs| - 1].Ask? ==> IsConfigured(secrets, cs[|cs| - 1].op.gen);
    }
  }

  lemma VerifiedIs(env: Env, secrets: map<string, string>, rec: KeyRecord, g: Generator, minted: string, secret: string)
    requires MacIsSha256(env) && rec.keyHash == Hash(env, g, minted) && rec.hmacKeyID == g.hmacKeyID
    requires IsConfigured(secrets, g)
    ensures Verified(env, secrets, rec, secret) ==
      if env.mac(g.hmacSecret, secret) == env.mac(g.hmacSecret, minted) then Match else Mismatch
  {
    Hex.DecodeEncode(env.mac(g.hmacSecret, minted));
  }

  // ---------------------------------------------------------------- the last word on each setting

  /** What the admin history says about one key, apart from its secret. */
  datatype Terms = Terms(summary: Summary, expiresAt: Option<int>)

  function TermsOf(r: KeyRecord): Terms { Terms(Summarised(r), r.expiresAt) }

  function StoredTerms(keys: Keys, id: Id): Option<Terms> { if id in keys then Some(TermsOf(keys[id])) else None }

  /** What a request that took effect makes of the terms of the key `id`. */
  function Revised(t: Option<Terms>, req: Request, id: Id): Option<Terms> {
    if req.PurgeExpired? then (if t.Some? && HasPassed(t.value.expiresAt, req.before) then None else t)
    else if req.id != id then t
    else match req
      case Create(_, _, principal, roles, expires) => Some(Terms(Summary(principal, Cleaned(roles), true, []), When(expires)))
      case Delete(_) => None
      case SetExpiry(_, e) => if t.Some? then Some(t.value.(expiresAt := When(e))) else None
      case Rotate(_, _) => t
      case _ => if t.Some? then Some(t.value.(summary := Resummarised(t.value.summary, req))) else None
  }

  function Resummarised(s: Summary, req: Request): Summary {
    match req
    case SetEnabled(_, on) => s.(enabled := on)
    case SetRoles(_, roles) => s.(roles := Cleaned(roles))
    case SetCidrs(_, cidrs) => s.(cidrs := cidrs)
    case _ => s
  }

  /** What a store call makes of the terms of the key `id`. */
  function TermsAfter(env: Env, keys: Keys, c: Call, id: Id, t: Option<Terms>): Option<Terms> {
    match c
    case Ask(op) => if Stored(env, keys, op).Changed? then Revised(t, op.req, id) else t
    case TakeBack(i, fails) => if !fails && i == id then None else t
  }

  /** The terms of `id` by the store calls alone: each request counts if its call went through. */
  function TermsBy(env: Env, cs: seq<Call>, id: Id): Option<Terms>
    decreases |cs|
  {
    if cs == [] then None
    else
      var p := cs[..|cs| - 1];
      TermsAfter(env, KeysAfter(env, map[], p), cs[|cs| - 1], id, TermsBy(env, p, id))
  }

  lemma TermsEdit(env: Env, keys: Keys, op: Op, id: Id)
    requires IsEdit(op.req)
    ensures StoredTerms(Called(env, keys, Ask(op)), id) == TermsAfter(env, keys, Ask(op), id, StoredTerms(keys, id))
  {
  }

  lemma TermsOther(env: Env, keys: Keys, c: Call, id: Id)
    requires c.TakeBack? || !IsEdit(c.op.req)
    ensures StoredTerms(Called(env, keys, c), id) == TermsAfter(env, keys, c, id, StoredTerms(keys, id))
  {
  }

  /** The store holds for each key what the calls that went through said last. */
  lemma {:induction false} StoreHoldsLastTerms(env: Env, cs: seq<Call>, id: Id)
    ensures StoredTerms(KeysAfter(env, map[], cs), id) == TermsBy(env, cs, id)
    decreases |cs|
  {
    if cs != [] {
      var p, c := cs[..|cs| - 1], cs[|cs| - 1];
      StoreHoldsLastTerms(env, p, id);
      if c.TakeBack? || !IsEdit(c.op.req) {
        TermsOther(env, KeysAfter(env, map[], p), c, id);
      } else {
        TermsEdit(env, KeysAfter(env, map[], p), c.op, id);
      }
    }
  }

  // ---------------------------------------------------------------- who gets in

  /** What should be accepted after the store calls `cs`. */
  ghost predicate MayPass<Ip>(env: Env, c: Config<Ip>, cs: seq<Call>, id: Id, secret: string, now: int, ip: Option<Ip>) {
    var t, m := TermsBy(env, cs, id), LastMinted(env, cs, id);
    && t.Some? && m.Some?
    && env.mac(m.value.0.hmacSecret, secret) == env.mac(m.value.0.hmacSecret, m.value.1)
    && t.value.summary.enabled && (t.value.expiresAt.Some? ==> now <= t.value.expiresAt.value)
    && (t.value.summary.cidrs == [] ||
        (ip.Some? && exists cidr :: cidr in t.value.summary.cidrs && c.contains(cidr, ip.value)))
  }

  /** At any point of any run of overlapping admin requests with any faults, a request is accepted
      exactly when its secret has the MAC of the last secret minted for its key and the key by the
      store calls so far exists, is enabled, has not expired and admits the client's address.  Every
      other well-formed request gets the same reply, so a reply says nothing about a key to who does
      not hold its secret. */
  lemma AcceptedExactly<Ip>(env: Env, c: Config<Ip>, ls: seq<Step>, id: Id, secret: string, now: int, ip: Option<Ip>)
    requires Exec(env, Init, ls).Some? && MacIsSha256(env) && Configured(c.secrets, Calls(ls))
    requires id != "" && ':' !in id && secret != ""
    ensures Respond(env, c, Exec(env, Init, ls).value.keys, false, Header(id, secret), now, ip) ==
      if !MayPass(env, c, Calls(ls), id, secret, now, ip) then Denied
      else var t := TermsBy(env, Calls(ls), id).value.summary; Accepted(t.principal, id, t.roles)
  {
    KeysOfRun(env, ls);
    AcceptedAfter(env, c, Calls(ls), id, secret, now, ip);
  }

  lemma AcceptedAfter<Ip>(env: Env, c: Config<Ip>, cs: seq<Call>, id: Id, secret: string, now: int, ip: Option<Ip>)
    requires MacIsSha256(env) && Configured(c.secrets, cs) && id != "" && ':' !in id && secret != ""
    ensures Respond(env, c, KeysAfter(env, map[], cs), false, Header(id, secret), now, ip) ==
      if !MayPass(env, c, cs, id, secret, now, ip) then Denied
      else var t := TermsBy(env, cs, id).value.summary; Accepted(t.principal, id, t.roles)
  {
    CutHeader(id, secret);
    StoreHoldsLastMinted(env, cs, id);
    StoreHoldsLastTerms(env, cs, id);
    var keys := KeysAfter(env, map[], cs);
    if id in keys {
      AdmitsIff(c, keys[id].allowedCIDRs, ip);
      var (g, minted) := LastMinted(env, cs, id).value;
      MintedIsConfigured(env, c.secrets, cs, id);
      VerifiedIs(env, c.secrets, keys[id], g, minted, secret);
    }
  }

  lemma AdmitsIff<Ip>(c: Config<Ip>, cidrs: seq<string>, ip: Option<Ip>)
    ensures IpAdmits(c, cidrs, ip) <==>
      cidrs == [] || (ip.Some? && exists cidr :: cidr in cidrs && c.contains(cidr, ip.value))
  {
    if ip.Some? {
      if cidr :| cidr in cidrs && c.contains(cidr, ip.value) {
        var i :| 0 <= i < |cidrs| && cidrs[i] == cidr;
      }
    }
  }

  lemma {:induction false} CutIsHeader(s: string)
    ensures Cut(s).Some? ==> ':' !in Cut(s).value.0 && s == Header(Cut(s).value.0, Cut(s).value.1)
    ensures ':' in s ==> Cut(s).Some?
  {
    if s != "" && s[0] != ':' {
      CutIsHeader(s[1..]);
      assert s == [s[0]] + s[1..];
      if Cut(s).Some? {
        assert [s[0]] + Header(Cut(s[1..]).value.0, Cut(s).value.1) == Header(Cut(s).value.0, Cut(s).value.1);
      }
    } else if s != "" {
      assert s == Header("", s[1..]);
    }
  }

  /** A key id and a secret that this header holds. */
  ghost predicate Holding(header: string, id: Id, secret: string) {
    id != "" && ':' !in id && secret != "" && header == Header(id, secret)
  }

  /** Which requests are turned away before a key is looked at, and which end in an internal error:
      the latter only if the store fails, or the stored key cannot be checked against any secret. */
  lemma RefusedBeforeTheKey<Ip>(env: Env, c: Config<Ip>, keys: Keys, storeFails: bool, header: string, now: int,
                                ip: Option<Ip>, id: Id, secret: string)
    ensures Respond(env, c, keys, storeFails, header, now, ip) == MissingHeader <==> header == ""
    ensures Respond(env, c, keys, storeFails, header, now, ip) == MalformedHeader <==>
      header != "" && forall i, s :: !Holding(header, i, s)
    ensures Holding(header, id, secret) ==>
      (Respond(env, c, keys, storeFails, header, now, ip) == ServerError <==>
        storeFails || (id in keys && !Checkable(c.secrets, keys[id])))
  {
    CutIsHeader(header);
    if Cut(header).Some? && Cut(header).value.0 != "" && Cut(header).value.1 != "" {
      assert Holding(header, Cut(header).value.0, Cut(header).value.1);
    }
    forall i, s | Holding(header, i, s) ensures Cut(header) == Some((i, s)) {
      CutHeader(i, s);
    }
  }

  /** The record's HMAC secret is configured and its hash is hex. */
  predicate Checkable(secrets: map<string, string>, rec: KeyRecord) {
    rec.hmacKeyID in secrets && secrets[rec.hmacKeyID] != "" && Hex.Decode(rec.keyHash).Some?
  }

  // ---------------------------------------------------------------- the configured secrets

  /** serve builds the map from a list, later entries winning; the first entry mints. */
  function SecretMap(list: seq<Generator>): map<string, string>
    decreases |list|
  {
    if list == [] then map[]
    else SecretMap(list[..|list| - 1])[list[|list| - 1].hmacKeyID := list[|list| - 1].hmacSecret]
  }

  /** The secret verification finds for an entry is the entry's own exactly when the last entry
      with its id has the same secret; distinct ids guarantee it. */
  lemma {:induction false} MintingSecretIsFound(list: seq<Generator>, i: nat, last: nat)
    requires i <= last < |list| && list[last].hmacKeyID == list[i].hmacKeyID
    requires forall j :: last < j < |list| ==> list[j].hmacKeyID != list[i].hmacKeyID
    ensures list[i].hmacKeyID in SecretMap(list)
    ensures SecretMap(list)[list[i].hmacKeyID] == list[i].hmacSecret <==> list[last].hmacSecret == list[i].hmacSecret
    decreases |list|
  {
    if last < |list| - 1 {
      MintingSecretIsFound(list[..|list| - 1], i, last);
    }
  }

  // ---------------------------------------------------------------- purging

  /** `purged` lacks only keys in `gone`, and those had expired at `at`. */
  ghost predicate PurgedFrom(keys: Keys, purged: Keys, gone: set<Id>, at: int) {
    && (forall id :: id in purged ==> id in keys && keys[id] == purged[id])
    && (forall id :: id in keys && id !in purged ==> id in gone && IsExpired(keys[id], at))
    && (forall id :: id in gone ==> id !in purged)
  }

  /** Calls that could bring a purged key back: an expiry edit, or a create that draws its id. */
  predicate Revives(c: Call, gone: set<Id>) {
    c.Ask? && (c.op.req.SetExpiry? || c.op.req.Create?) && c.op.req.id in gone
  }

  /** Nothing is wrong with the edit except, perhaps, that its key is missing. */
  predicate GoesThrough(env: Env, op: Op) {
    && !op.faults.store
    && (op.req.Rotate? ==> !op.faults.lookup && !op.faults.keygen)
    && (op.req.SetExpiry? ==> !op.faults.decode && ValidExpiry(op.req.expires, op.now))
    && (op.req.SetRoles? ==> !op.faults.decode && ValidRoles(op.req.roles))
    && (op.req.SetCidrs? ==> !op.faults.decode && ValidCidrs(env, op.req.cidrs))
  }

  function Edited(keys: Keys, id: Id, rec': KeyRecord -> KeyRecord, applies: bool): Keys {
    if applies && id in keys then keys[id := rec'(keys[id])] else keys
  }

  lemma EditIs(env: Env, keys: Keys, op: Op)
    requires IsEdit(op.req)
    ensures Called(env, keys, Ask(op)) == Edited(keys, op.req.id, Edit(env, op).0, GoesThrough(env, op))
  {
  }

  lemma PurgedEdited(keys: Keys, purged: Keys, gone: set<Id>, at: int, id: Id, rec': KeyRecord -> KeyRecord, applies: bool)
    requires PurgedFrom(keys, purged, gone, at)
    requires id in gone && id in keys ==> rec'(keys[id]).expiresAt == keys[id].expiresAt
    ensures PurgedFrom(Edited(keys, id, rec', applies), Edited(purged, id, rec', applies), gone, at)
  {
  }

  lemma PurgedEdit(env: Env, keys: Keys, purged: Keys, gone: set<Id>, at: int, op: Op)
    requires PurgedFrom(keys, purged, gone, at) && !Revives(Ask(op), gone) && IsEdit(op.req)
    ensures PurgedFrom(Called(env, keys, Ask(op)), Called(env, purged, Ask(op)), gone, at)
  {
    EditIs(env, keys, op);
    EditIs(env, purged, op);
    PurgedEdited(keys, purged, gone, at, op.req.id, Edit(env, op).0, GoesThrough(env, op));
  }

  lemma PurgedCreate(env: Env, keys: Keys, purged: Keys, gone: set<Id>, at: int, op: Op)
    requires PurgedFrom(keys, purged, gone, at) && !Revives(Ask(op), gone) && op.req.Create?
    ensures PurgedFrom(Called(env, keys, Ask(op)), Called(env, purged, Ask(op)), gone, at)
  {
  }

  lemma PurgedDelete(env: Env, keys: Keys, purged: Keys, gone: set<Id>, at: int, c: Call)
    requires PurgedFrom(keys, purged, gone, at) && (c.TakeBack? || c.op.req.Delete?)
    ensures PurgedFrom(Called(env, keys, c), Called(env, purged, c), gone, at)
  {
  }

  lemma PurgedPurge(env: Env, keys: Keys, purged: Keys, gone: set<Id>, at: int, op: Op)
    requires PurgedFrom(keys, purged, gone, at) && op.req.PurgeExpired?
    ensures PurgedFrom(Called(env, keys, Ask(op)), Called(env, purged, Ask(op)), gone, at)
  {
  }

  lemma {:induction false} PurgedRun(env: Env, keys: Keys, purged: Keys, gone: set<Id>, at: int, cs: seq<Call>)
    requires PurgedFrom(keys, purged, gone, at) && forall i :: 0 <= i < |cs| ==> !Revives(cs[i], gone)
    ensures PurgedFrom(KeysAfter(env, keys, cs), KeysAfter(env, purged, cs), gone, at)
    decreases |cs|
  {
    if cs != [] {
      var p, c := cs[..|cs| - 1], cs[|cs| - 1];
      PurgedRun(env, keys, purged, gone, at, p);
      var k, q := KeysAfter(env, keys, p), KeysAfter(env, purged, p);
      if c.TakeBack? || c.op.req.Delete? {
        PurgedDelete(env, k, q, gone, at, c);
      } else if c.op.req.PurgeExpired? {
        PurgedPurge(env, k, q, gone, at, c.op);
      } else if c.op.req.Create? {
        PurgedCreate(env, k, q, gone, at, c.op);
      } else {
        PurgedEdit(env, k, q, gone, at, c.op);
      }
    }
  }

  /** Purging at time `at` changes no acceptance at or after `at`, whatever store calls follow, as
      long as none of them edits the expiry of a purged key or creates its id anew. */
  lemma PurgeIsInvisible<Ip>(env: Env, c: Config<Ip>, keys: Keys, at: int, cs: seq<Call>, header: string, now: int,
                             ip: Option<Ip>)
    requires at <= now
    requires forall i :: 0 <= i < |cs| ==> !Revives(cs[i], keys.Keys - Unexpired(keys, at).Keys)
    ensures var kept := Respond(env, c, KeysAfter(env, keys, cs), false, header, now, ip);
      var purged := Respond(env, c, KeysAfter(env, Unexpired(keys, at), cs), false, header, now, ip);
      kept == purged || (!kept.Accepted? && !purged.Accepted?)
  {
    PurgedRun(env, keys, Unexpired(keys, at), keys.Keys - Unexpired(keys, at).Keys, at, cs);
  }

  /** An expiry edit tells the two apart: the key lives on only where it was not purged. */
  lemma ExpiryEditRevives<Ip>(env: Env, c: Config<Ip>, keys: Keys, at: int, op: Op, id: Id, secret: string, now: int,
                              ip: Option<Ip>)
    requires id != "" && ':' !in id && secret != "" && id in keys && IsExpired(keys[id], at)
    requires keys[id].enabled && keys[id].allowedCIDRs == [] && Verified(env, c.secrets, keys[id], secret) == Match
    requires op.req == SetExpiry(id, NoExpiry) && !op.faults.decode && !op.faults.store
    ensures Respond(env, c, Called(env, keys, Ask(op)), false, Header(id, secret), now, ip).Accepted?
    ensures Respond(env, c, Called(env, Unexpired(keys, at), Ask(op)), false, Header(id, secret), now, ip) == Denied
  {
    CutHeader(id, secret);
  }

  // ---------------------------------------------------------------- the code

  /** The allowlist loop of the middleware. */
  method AddressAllowed<Ip>(c: Config<Ip>, cidrs: seq<string>, ip: Option<Ip>) returns (ok: bool)
    ensures ok == IpAdmits(c, cidrs, ip)
  {
    if |cidrs| == 0 {
      return true;
    }
    if ip.None? {
      return false;
    }
    ok := false;
    for i := 0 to |cidrs|
      invariant !ok && forall j :: 0 <= j < i ==> !c.contains(cidrs[j], ip.value)
    {
      if c.contains(cidrs[i], ip.value) {
        return true;
      }
    }
  }

  /** The decision chain of the middleware: the secret is verified before anything else is
      looked at. */
  method Authenticate<Ip>(env: Env, c: Config<Ip>, keys: Keys, storeFails: bool, header: string, now: int, ip: Option<Ip>)
    returns (reply: Reply)
    ensures reply == Respond(env, c, keys, storeFails, header, now, ip)
  {
    if header == "" {
      return MissingHeader;
    }
    var cut := Cut(header);
    if cut.None? || cut.value.0 == "" || cut.value.1 == "" {
      return MalformedHeader;
    }
    var (id, secret) := cut.value;
    if storeFails {
      return ServerError;
    }
    if id !in keys {
      return Denied;
    }
    var rec := keys[id];
    var check := Verified(env, c.secrets, rec, secret);
    if check == Internal {
      return ServerError;
    }
    if check == Mismatch {
      return Denied;
    }
    if !rec.enabled {
      return Denied;
    }
    if rec.expiresAt.Some? && rec.expiresAt.value < now {
      return Denied;
    }
    var allowed := AddressAllowed(c, rec.allowedCIDRs, ip);
    if !allowed {
      return Denied;
    }
    return Accepted(rec.principal, id, rec.roles);
  }
}
