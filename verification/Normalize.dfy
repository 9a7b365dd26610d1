/** Request paths folded to route templates for metric labels and span names. */
module Normalize {
  import opened Text

  const KnownFixed := {"healthz", "readyz", "metrics"}
  const ZoneActions := {"export", "notify", "axfr-retrieve", "rectify"}
  const Other := ["other"]

  function TrimSlash(path: string): string { if path != "" && path[0] == '/' then path[1..] else path }

  /** Without empty segments at the end. */
  function Trimmed(ps: seq<string>): seq<string>
    decreases |ps|
  {
    if ps != [] && ps[|ps| - 1] == "" then Trimmed(ps[..|ps| - 1]) else ps
  }

  function Segments(path: string): seq<string> { Trimmed(Split(TrimSlash(path), '/')) }

  predicate UnderServers(ps: seq<string>) { |ps| >= 3 && ps[0] == "api" && ps[1] == "v1" && ps[2] == "servers" }

  /** The segments of the template for the path with segments `ps`. */
  function Route(ps: seq<string>): seq<string> {
    if ps == [] || (|ps| == 1 && ps[0] in KnownFixed) then ps
    else if !UnderServers(ps) then Other
    else if |ps| == 3 then ps
    else
      var q := ps[3 := ":server_id"];
      if |ps| == 4 then q
      else if ps[4] != "zones" then (if |ps| == 5 then q else Other)
      else if |ps| == 5 then q
      else ZoneRoute(q[5 := ":zone_id"])
  }

  function ZoneRoute(q: seq<string>): seq<string>
    requires |q| >= 6
  {
    if |q| == 6 then q
    else if q[6] in ZoneActions && |q| == 7 then q
    else if q[6] == "cryptokeys" then
      (if |q| == 7 then q else if |q| == 8 then q[7 := ":cryptokey_id"] else Other)
    else if q[6] == "metadata" then
      (if |q| == 7 then q else if |q| == 8 then q[7 := ":kind"] else Other)
    else Other
  }

  function Render(ps: seq<string>): string { "/" + Join(ps, '/') }

  function Normalized(path: string): string { Render(Route(Segments(path))) }

  // ---------------------------------------------------------------- segments and texts

  /** Segments as a path can have them: slash-free, the last one not empty. */
  ghost predicate Proper(ps: seq<string>) { Free(ps, '/') && (ps != [] ==> ps[|ps| - 1] != "") }

  lemma {:induction false} TrimmedIsProper(ps: seq<string>)
    requires Free(ps, '/')
    ensures Proper(Trimmed(ps)) && Trimmed(ps) <= ps
    decreases |ps|
  {
    if ps != [] && ps[|ps| - 1] == "" {
      TrimmedIsProper(ps[..|ps| - 1]);
    }
  }

  lemma SegmentsAreProper(path: string)
    ensures Proper(Segments(path))
  {
    SplitFree(TrimSlash(path), '/');
    TrimmedIsProper(Split(TrimSlash(path), '/'));
  }

  lemma SegmentsOfRendered(ps: seq<string>)
    requires Free(ps, '/') && ps != []
    ensures Segments(Render(ps)) == Trimmed(ps)
  {
    assert TrimSlash(Render(ps)) == Join(ps, '/');
    SplitJoin(ps, '/');
  }

  lemma ProperRoundTrip(ps: seq<string>)
    requires Proper(ps)
    ensures Segments(Render(ps)) == ps
  {
    if ps == [] {
      assert TrimSlash(Render(ps)) == "";
      assert Trimmed([""]) == Trimmed([""][..0]) == [];
    } else {
      SegmentsOfRendered(ps);
    }
  }

  lemma RouteIsProper(ps: seq<string>)
    requires Proper(ps)
    ensures Proper(Route(ps))
  {
  }

  lemma RouteIsIdempotent(ps: seq<string>)
    ensures Route(Route(ps)) == Route(ps)
  {
  }

  // ---------------------------------------------------------------- theorems

  /** A template normalizes to itself. */
  lemma NormalizeIsIdempotent(path: string)
    ensures Normalized(Normalized(path)) == Normalized(path)
  {
    var ps := Segments(path);
    SegmentsAreProper(path);
    RouteIsProper(ps);
    ProperRoundTrip(Route(ps));
    RouteIsIdempotent(ps);
  }

  lemma TrailingSlashIgnored(path: string)
    ensures Normalized(path + "/") == Normalized(path)
  {
    if path == "" {
      assert path + "/" == "/" && TrimSlash("/") == "";
    } else {
      assert TrimSlash(path + "/") == TrimSlash(path) + "/";
      SplitSnoc(TrimSlash(path), '/', '/');
      var ps := Split(TrimSlash(path), '/');
      assert (ps + [""])[..|ps|] == ps;
    }
  }

  lemma {:induction false} TrimmedKeeps(ps: seq<string>, k: nat, x: string, y: string)
    requires k < |ps| && x != "" && y != ""
    ensures k < |Trimmed(ps[k := y])| && Trimmed(ps[k := x]) == Trimmed(ps[k := y])[k := x]
    decreases |ps|
  {
    var n := |ps|;
    if k < n - 1 && ps[n - 1] == "" {
      TrimmedKeeps(ps[..n - 1], k, x, y);
      assert ps[k := x][..n - 1] == ps[..n - 1][k := x];
      assert ps[k := y][..n - 1] == ps[..n - 1][k := y];
    } else {
      assert Trimmed(ps[k := x]) == ps[k := x] && Trimmed(ps[k := y]) == ps[k := y];
      assert ps[k := x] == ps[k := y][k := x];
    }
  }

  lemma RouteMasks(ps: seq<string>, k: nat, x: string)
    requires k < |ps| && (k == 3 || k == 5 || k == 7)
    ensures Route(ps[k := x]) == Route(ps)
  {
  }

  /** Replacing the server id, zone id, cryptokey id or metadata kind of any path by another
      non-empty slash-free segment does not change its template. */
  lemma IdsAreMasked(ps: seq<string>, k: nat, x: string, y: string)
    requires Free(ps, '/') && k < |ps| && (k == 3 || k == 5 || k == 7)
    requires x != "" && y != "" && '/' !in x && '/' !in y
    ensures Normalized(Render(ps[k := x])) == Normalized(Render(ps[k := y]))
  {
    SegmentsOfRendered(ps[k := x]);
    SegmentsOfRendered(ps[k := y]);
    TrimmedKeeps(ps, k, x, y);
    RouteMasks(Trimmed(ps[k := y]), k, x);
  }

  const Server := ["api", "v1", "servers", ":server_id"]
  const Zone := Server + ["zones", ":zone_id"]

  /** The finitely many templates. */
  ghost const Templates: set<seq<string>> := TopTemplates + ZoneTemplates

  ghost const TopTemplates: set<seq<string>> :=
    { [], ["healthz"], ["readyz"], ["metrics"], ["other"], ["api", "v1", "servers"], Server, Server + ["zones"] }

  ghost const ZoneTemplates: set<seq<string>> :=
    { Zone, Zone + ["export"], Zone + ["notify"], Zone + ["axfr-retrieve"], Zone + ["rectify"],
      Zone + ["cryptokeys"], Zone + ["cryptokeys", ":cryptokey_id"],
      Zone + ["metadata"], Zone + ["metadata", ":kind"] }

  /** The one shape whose last segment passes through: /api/v1/servers/:server_id/x. */
  ghost predicate PassesThrough(ps: seq<string>) { UnderServers(ps) && |ps| == 5 && ps[4] != "zones" }

  lemma TopTemplatesAreFixed(t: seq<string>)
    requires t in TopTemplates
    ensures Proper(t) && Route(t) == t && !PassesThrough(t)
  {
  }

  lemma ZoneTemplatesAreFixed(t: seq<string>)
    requires t in ZoneTemplates
    ensures Proper(t) && Route(t) == t && !PassesThrough(t)
  {
  }

  lemma TemplatesAreFixed(t: seq<string>)
    requires t in Templates
    ensures Proper(t) && Route(t) == t && !PassesThrough(t)
  {
    if t in TopTemplates {
      TopTemplatesAreFixed(t);
    } else {
      ZoneTemplatesAreFixed(t);
    }
  }

  lemma ZoneRouteLandsIn(q: seq<string>)
    requires |q| >= 6 && q[..6] == Zone
    ensures ZoneRoute(q) in Templates
  {
    if |q| == 6 {
      assert q == Zone;
    } else if |q| == 7 {
      assert q == Zone + [q[6]];
    } else if |q| == 8 {
      assert q[7 := ":cryptokey_id"] == Zone + [q[6], ":cryptokey_id"];
      assert q[7 := ":kind"] == Zone + [q[6], ":kind"];
    }
  }

  /** Every route is one of the finitely many templates, unless it is a pass-through. */
  lemma RouteLandsIn(ps: seq<string>)
    ensures if PassesThrough(ps) then Route(ps) == Server + [ps[4]] else Route(ps) in Templates
  {
    if ps == [] || (|ps| == 1 && ps[0] in KnownFixed) {
      assert ps == [] || ps == [ps[0]];
    } else if UnderServers(ps) {
      if |ps| == 3 {
        assert ps == ["api", "v1", "servers"];
      } else if |ps| == 4 {
        assert ps[3 := ":server_id"] == Server;
      } else if |ps| == 5 {
        assert ps[3 := ":server_id"] == Server + [ps[4]];
      } else if ps[4] == "zones" {
        var q := ps[3 := ":server_id"][5 := ":zone_id"];
        assert q[..6] == Zone;
        ZoneRouteLandsIn(q);
      }
    }
  }

  ghost const Masks := {":server_id", ":zone_id", ":cryptokey_id", ":kind"}

  /** The path has the template's segments, except that a mask stands for any segment. */
  ghost predicate Matches(t: seq<string>, ps: seq<string>) {
    |t| == |ps| && forall i :: 0 <= i < |t| ==> t[i] == ps[i] || t[i] in Masks
  }

  lemma MasksAreAt(t: seq<string>, i: nat)
    requires t in Templates && i < |t| && t[i] in Masks
    ensures i == 3 || i == 5 || i == 7
  {
    if t in TopTemplates {
      TopMasksAreAt(t, i);
    }
  }

  lemma TopMasksAreAt(t: seq<string>, i: nat)
    requires t in TopTemplates && i < |t| && t[i] in Masks
    ensures i == 3
  {
  }

  lemma Remasked(ps: seq<string>, t: seq<string>, k: nat)
    requires |ps| == |t| && (k == 3 || k == 5 || k == 7)
    ensures k < |ps| ==> Route(ps[k := t[k]]) == Route(ps)
  {
    if k < |ps| {
      RouteMasks(ps, k, t[k]);
    }
  }

  /** A path that matches a template gets it. */
  lemma MatchIsRouted(t: seq<string>, ps: seq<string>)
    requires t in Templates && Matches(t, ps)
    ensures Route(ps) == t
  {
    TemplatesAreFixed(t);
    forall i | 0 <= i < |t| && t[i] != ps[i] ensures i == 3 || i == 5 || i == 7 {
      MasksAreAt(t, i);
    }
    var p3 := if 3 < |ps| then ps[3 := t[3]] else ps;
    var p5 := if 5 < |ps| then p3[5 := t[5]] else p3;
    var p7 := if 7 < |ps| then p5[7 := t[7]] else p5;
    Remasked(ps, t, 3);
    Remasked(p3, t, 5);
    Remasked(p5, t, 7);
    assert p7 == t;
  }

  lemma RoutedIsMatch(ps: seq<string>)
    requires Route(ps) != Other
    ensures Matches(Route(ps), ps)
  {
  }

  /** Which paths get which template: those that match it, segment by segment. */
  lemma TemplateIff(path: string, t: seq<string>)
    requires t in Templates && t != Other
    ensures Normalized(path) == Render(t) <==> Matches(t, Segments(path))
  {
    var ps := Segments(path);
    SegmentsAreProper(path);
    RouteIsProper(ps);
    ProperRoundTrip(Route(ps));
    TemplatesAreFixed(t);
    ProperRoundTrip(t);
    if Normalized(path) == Render(t) {
      RoutedIsMatch(ps);
    } else if Matches(t, ps) {
      MatchIsRouted(t, ps);
    }
  }

  /** And those that fold to /other: whatever matches no template and does not pass through. */
  lemma OtherIff(path: string)
    ensures Normalized(path) == "/other" <==>
      !PassesThrough(Segments(path)) && forall t :: t in Templates && t != Other ==> !Matches(t, Segments(path))
  {
    var ps := Segments(path);
    SegmentsAreProper(path);
    RouteIsProper(ps);
    ProperRoundTrip(Route(ps));
    ProperRoundTrip(Other);
    RouteLandsIn(ps);
    assert Render(Other) == "/other";
    if Route(ps) == Other {
      forall t | t in Templates && t != Other ensures !Matches(t, ps) {
        if Matches(t, ps) {
          MatchIsRouted(t, ps);
        }
      }
    } else {
      RoutedIsMatch(ps);
    }
  }

  lemma FamilyIsFixed(x: string)
    requires x != "" && '/' !in x
    ensures Normalized(Render(Server + [x])) == Render(Server + [x]) && Segments(Render(Server + [x])) == Server + [x]
  {
    var t := Server + [x];
    assert t[3 := ":server_id"] == t;
    ProperRoundTrip(t);
  }

  ghost predicate InFamily(r: string, x: string) { x != "" && '/' !in x && x != "zones" && r == Render(Server + [x]) }

  lemma ImageWithin(path: string)
    ensures (exists t :: t in Templates && Normalized(path) == Render(t)) || exists x :: InFamily(Normalized(path), x)
  {
    var ps := Segments(path);
    SegmentsAreProper(path);
    RouteLandsIn(ps);
    if PassesThrough(ps) {
      assert InFamily(Normalized(path), ps[4]);
    }
  }

  /** The image of Normalize: exactly the templates and the pass-through family. */
  lemma ImageIs(r: string)
    ensures (exists path :: Normalized(path) == r) <==>
      (exists t :: t in Templates && r == Render(t)) || (exists x :: InFamily(r, x))
  {
    if path :| Normalized(path) == r {
      ImageWithin(path);
    }
    if t :| t in Templates && r == Render(t) {
      TemplatesAreFixed(t);
      ProperRoundTrip(t);
      assert Normalized(r) == r;
    }
    if x :| InFamily(r, x) {
      FamilyIsFixed(x);
      assert Normalized(r) == r;
    }
  }

  /** A path gets one of the finitely many templates exactly when it is not a pass-through. */
  lemma BoundedIff(path: string)
    ensures (exists t :: t in Templates && Normalized(path) == Render(t)) <==> !PassesThrough(Segments(path))
  {
    var ps := Segments(path);
    SegmentsAreProper(path);
    RouteLandsIn(ps);
    if PassesThrough(ps) {
      forall t | t in Templates ensures Normalized(path) != Render(t) {
        TemplatesAreFixed(t);
        ProperRoundTrip(t);
        ProperRoundTrip(Server + [ps[4]]);
        assert t != Server + [ps[4]] by {
          assert PassesThrough(Server + [ps[4]]);
        }
      }
    }
  }

  /** So the number of templates is not bounded: different sub-resources stay different. */
  lemma PassThroughIsUnbounded(x: string, y: string)
    requires x != "" && y != "" && '/' !in x && '/' !in y && x != y
    ensures Normalized(Render(Server + [x])) != Normalized(Render(Server + [y]))
  {
    FamilyIsFixed(x);
    FamilyIsFixed(y);
    assert (Server + [x])[4] == x && (Server + [y])[4] == y;
  }

  // ---------------------------------------------------------------- the code

  method NormalizePath(path: string) returns (r: string)
    ensures r == Normalized(path)
  {
    var parts := Split(TrimSlash(path), '/');
    while |parts| > 0 && parts[|parts| - 1] == ""
      invariant Trimmed(parts) == Segments(path)
      decreases |parts|
    {
      parts := parts[..|parts| - 1];
    }
    if |parts| == 0 {
      return "/";
    }
    if |parts| == 1 && parts[0] in KnownFixed {
      return "/" + parts[0];
    }
    if |parts| < 3 || parts[0] != "api" || parts[1] != "v1" || parts[2] != "servers" {
      return "/other";
    }
    if |parts| == 3 {
      assert parts == ["api", "v1"] + ["servers"];
      return Render(parts);
    }
    parts := parts[3 := ":server_id"];
    if |parts| == 4 {
      return "/" + Join(parts, '/');
    }
    if parts[4] != "zones" {
      if |parts| == 5 {
        return "/" + Join(parts, '/');
      }
      return "/other";
    }
    if |parts| == 5 {
      return "/" + Join(parts, '/');
    }
    parts := parts[5 := ":zone_id"];
    if |parts| == 6 {
      return "/" + Join(parts, '/');
    }
    var tail := parts[6];
    if tail in ZoneActions && |parts| == 7 {
      return "/" + Join(parts, '/');
    } else if tail == "cryptokeys" {
      if |parts| == 7 {
        return "/" + Join(parts, '/');
      }
      if |parts| == 8 {
        parts := parts[7 := ":cryptokey_id"];
        return "/" + Join(parts, '/');
      }
      return "/other";
    } else if tail == "metadata" {
      if |parts| == 7 {
        return "/" + Join(parts, '/');
      }
      if |parts| == 8 {
        parts := parts[7 := ":kind"];
        return "/" + Join(parts, '/');
      }
      return "/other";
    } else {
      return "/other";
    }
  }
}
