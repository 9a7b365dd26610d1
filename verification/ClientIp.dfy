/**
  The client IP of a request behind trusted proxies.  Address parsing and CIDR
  membership are parameters; the walk over X-Forwarded-For is the model.
 */
module ClientIp {
  import opened Wrappers
  import opened Text

  /** `parseIP` is net.ParseIP; each trusted network says which addresses it contains. */
  datatype Resolver<!Ip> = Resolver(parseIP: string -> Option<Ip>, trusted: seq<Ip -> bool>)

  predicate Trusts<Ip>(r: Resolver<Ip>, ip: Ip) {
    exists i :: 0 <= i < |r.trusted| && r.trusted[i](ip)
  }

  function Hop<Ip>(r: Resolver<Ip>, hop: string): Option<Ip> { r.parseIP(TrimSpace(hop)) }

  /** The hop is a well-formed address of a trusted proxy. */
  predicate TrustedHop<Ip>(r: Resolver<Ip>, hop: string) {
    r.parseIP(TrimSpace(hop)).Some? && Trusts(r, r.parseIP(TrimSpace(hop)).value)
  }

  /** Where the right-to-left walk over the hops stops: past the left end, at a malformed
      hop, or at the first untrusted address. */
  datatype Stop<Ip> = PastEnd | Malformed | Untrusted(ip: Ip)

  function Walk<Ip>(r: Resolver<Ip>, hops: seq<string>): Stop<Ip>
    decreases |hops|
  {
    if hops == [] then PastEnd
    else
      match Hop(r, hops[|hops| - 1])
      case None => Malformed
      case Some(ip) => if Trusts(r, ip) then Walk(r, hops[..|hops| - 1]) else Untrusted(ip)
  }

  /** `peer` is the parsed RemoteAddr, `xff` the X-Forwarded-For header, empty if absent. */
  function Resolved<Ip>(r: Resolver<Ip>, peer: Option<Ip>, xff: string): Option<Ip> {
    if peer.None? || |r.trusted| == 0 || !Trusts(r, peer.value) || xff == "" then peer
    else match Walk(r, Split(xff, ',')) case Untrusted(ip) => Some(ip) case _ => peer
  }

  // ---------------------------------------------------------------- what the walk finds

  /** Hop i is a well-formed untrusted address and every hop to its right is a trusted proxy. */
  ghost predicate Decides<Ip>(r: Resolver<Ip>, hops: seq<string>, i: nat, ip: Ip) {
    && i < |hops| && r.parseIP(TrimSpace(hops[i])) == Some(ip) && !Trusts(r, ip)
    && forall j :: i < j < |hops| ==> TrustedHop(r, hops[j])
  }

  lemma {:induction false} WalkFinds<Ip>(r: Resolver<Ip>, hops: seq<string>)
    ensures forall i: nat, ip :: Decides(r, hops, i, ip) ==> Walk(r, hops) == Untrusted(ip)
    ensures Walk(r, hops).Untrusted? ==> exists i: nat :: Decides(r, hops, i, Walk(r, hops).ip)
    decreases |hops|
  {
    if hops != [] {
      var n := |hops|;
      var p := hops[..n - 1];
      WalkFinds(r, p);
      forall i: nat, ip | Decides(r, hops, i, ip)
        ensures Walk(r, hops) == Untrusted(ip)
      {
        if i < n - 1 {
          assert TrustedHop(r, hops[n - 1]);
          assert Decides(r, p, i, ip);
        }
      }
      if Walk(r, hops).Untrusted? {
        var ip := Walk(r, hops).ip;
        if TrustedHop(r, hops[n - 1]) {
          var i: nat :| Decides(r, p, i, ip);
          assert Decides(r, hops, i, ip);
        } else {
          assert Decides(r, hops, n - 1, ip);
        }
      }
    }
  }

  /** With a trusted peer, the client is the rightmost untrusted hop if every hop to its right
      is well formed and trusted; if there is no such hop, the peer. */
  lemma ClientIsRightmostUntrusted<Ip>(r: Resolver<Ip>, peer: Ip, xff: string)
    requires Trusts(r, peer) && xff != ""
    ensures forall i: nat, ip :: Decides(r, Split(xff, ','), i, ip) ==> Resolved(r, Some(peer), xff) == Some(ip)
    ensures (forall i: nat, ip :: !Decides(r, Split(xff, ','), i, ip)) ==> Resolved(r, Some(peer), xff) == Some(peer)
  {
    WalkFinds(r, Split(xff, ','));
  }

  /** For every peer and header: an address other than the peer's is taken only from a trusted peer,
      and then it is the one of the hop that decides. */
  lemma HeaderBelievedOnlyFromTrusted<Ip>(r: Resolver<Ip>, peer: Option<Ip>, xff: string)
    ensures Resolved(r, peer, xff) != peer ==>
      && peer.Some? && Trusts(r, peer.value)
      && exists i: nat, ip :: Decides(r, Split(xff, ','), i, ip) && Resolved(r, peer, xff) == Some(ip)
  {
    WalkFinds(r, Split(xff, ','));
    if Resolved(r, peer, xff) != peer {
      var ip := Walk(r, Split(xff, ',')).ip;
      var i: nat :| Decides(r, Split(xff, ','), i, ip);
    }
  }

  lemma {:induction false} AllTrustedIff<Ip>(r: Resolver<Ip>, hops: seq<string>)
    ensures Walk(r, hops) == PastEnd <==> forall i :: 0 <= i < |hops| ==> TrustedHop(r, hops[i])
    decreases |hops|
  {
    if hops != [] {
      var p := hops[..|hops| - 1];
      AllTrustedIff(r, p);
      if Walk(r, hops) == PastEnd {
        assert forall i :: 0 <= i < |p| ==> p[i] == hops[i];
      } else if TrustedHop(r, hops[|hops| - 1]) {
        var i :| 0 <= i < |p| && !TrustedHop(r, p[i]);
        assert hops[i] == p[i];
      }
    }
  }

  /** A walk that stops before the left end does not see what is further left. */
  lemma {:induction false} WalkIgnoresLeft<Ip>(r: Resolver<Ip>, left: seq<string>, hops: seq<string>)
    ensures Walk(r, left + hops) == if Walk(r, hops) == PastEnd then Walk(r, left) else Walk(r, hops)
    decreases |hops|
  {
    if hops == [] {
      assert left + hops == left;
    } else {
      assert (left + hops)[..|left + hops| - 1] == left + hops[..|hops| - 1];
      WalkIgnoresLeft(r, left, hops[..|hops| - 1]);
    }
  }

  // ---------------------------------------------------------------- text to the left

  /** No text in front of the header changes the resolved address. */
  ghost predicate LeftTextIgnored<Ip>(r: Resolver<Ip>, peer: Option<Ip>, xff: string) {
    forall text: string :: Resolved(r, peer, text + [','] + xff) == Resolved(r, peer, xff)
  }

  /** The header is trusted from end to end. */
  ghost predicate ChainTrusted<Ip>(r: Resolver<Ip>, peer: Option<Ip>, xff: string) {
    && peer.Some? && Trusts(r, peer.value) && xff != ""
    && forall i :: 0 <= i < |Split(xff, ',')| ==> TrustedHop(r, Split(xff, ',')[i])
  }

  /** Prepending anything leaves the result alone exactly when the trusted chain does not
      reach the left end of the header.  `foreign` is any text of an untrusted address. */
  lemma LeftTextIgnoredIff<Ip>(r: Resolver<Ip>, peer: Option<Ip>, xff: string, foreign: string)
    requires r.parseIP("") == None
    requires ',' !in foreign && Hop(r, foreign).Some? && !Trusts(r, Hop(r, foreign).value)
    ensures LeftTextIgnored(r, peer, xff) <==> !ChainTrusted(r, peer, xff)
  {
    AllTrustedIff(r, Split(xff, ','));
    if ChainTrusted(r, peer, xff) {
      SplitAcross(foreign, xff, ',');
      SplitExtend("", foreign, ',');
      assert "" + foreign == foreign && Split(foreign, ',') == [foreign];
      WalkIgnoresLeft(r, [foreign], Split(xff, ','));
      assert [foreign][..0] == [];
      assert Resolved(r, peer, foreign + [','] + xff) != Resolved(r, peer, xff);
    } else {
      forall text: string
        ensures Resolved(r, peer, text + [','] + xff) == Resolved(r, peer, xff)
      {
        SplitAcross(text, xff, ',');
        WalkIgnoresLeft(r, Split(text, ','), Split(xff, ','));
        if xff == "" {
          assert Walk(r, [""]) == Malformed;
        }
      }
    }
  }

  // ---------------------------------------------------------------- the code

  method IsTrusted<Ip>(r: Resolver<Ip>, ip: Ip) returns (b: bool)
    ensures b == Trusts(r, ip)
    ensures b <==> exists network :: network in r.trusted && network(ip)
  {
    for i := 0 to |r.trusted|
      invariant forall j :: 0 <= j < i ==> !r.trusted[j](ip)
    {
      if r.trusted[i](ip) {
        assert r.trusted[i] in r.trusted;
        return true;
      }
    }
    return false;
  }

  /** The loop of ClientIP. */
  method WalkBack<Ip>(r: Resolver<Ip>, hops: seq<string>) returns (ip: Option<Ip>)
    ensures ip == match Walk(r, hops) case Untrusted(found) => Some(found) case _ => None
  {
    assert hops[..|hops|] == hops;
    var i := |hops| - 1;
    while i >= 0
      invariant -1 <= i < |hops|
      invariant Walk(r, hops) == Walk(r, hops[..i + 1])
    {
      var hop := Hop(r, hops[i]);
      assert hops[..i + 1][..i] == hops[..i];
      if hop.None? {
        return None;
      }
      var t := IsTrusted(r, hop.value);
      if !t {
        return hop;
      }
      i := i - 1;
    }
    return None;
  }

  method ClientIP<Ip>(r: Resolver<Ip>, peer: Option<Ip>, xff: string) returns (ip: Option<Ip>)
    ensures ip == Resolved(r, peer, xff)
  {
    if peer.None? {
      return None;
    }
    var peerTrusted := IsTrusted(r, peer.value);
    if |r.trusted| == 0 || !peerTrusted {
      return peer;
    }
    if xff == "" {
      return peer;
    }
    var client := WalkBack(r, Split(xff, ','));
    return if client.Some? then client else peer;
  }
}
