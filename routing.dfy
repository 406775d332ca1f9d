/**
 * Which route entry serves an HTTP request. Three stages, each consulted
 * only when the ones before it found nothing:
 *   1. the entry with the longest prefix the path starts with (a plain
 *      string prefix: `/hab` is matched by `/ha`);
 *   2. the first entry, in registry order, whose prefix occurs anywhere
 *      in the `Referer` header;
 *   3. a fixed table of asset paths known to belong to Immich or to Home
 *      Assistant, resolved by a keyword in the entry's name.
 * No entry at all means the request is answered with 404.
 */
module Routing {
  import opened Wrappers
  import opened Strings
  import opened Seqs
  import opened Registry

  datatype MatchKind = ExactPrefix | RefererContext | AssetPattern

  /** The selected entry, by its position in the registry snapshot. */
  datatype Route = Route(index: nat, kind: MatchKind)

  /** `path.startsWith(s.getPathPrefix())` */
  predicate PrefixMatch(m: ServiceMapping, path: string) {
    StartsWith(path, m.pathPrefix)
  }

  /**
   * Stage 1 over the first `n` entries: `filter` then `max` by prefix
   * length. `max` folds from the left and keeps the entry it already holds
   * when the next one is not strictly longer, so among equally long
   * prefixes the earliest wins.
   */
  function LongestUpTo(services: seq<ServiceMapping>, path: string, n: nat): (r: Option<nat>)
    requires n <= |services|
    ensures r.Some? ==> r.value < n && PrefixMatch(services[r.value], path)
    ensures r.Some? ==> forall j :: 0 <= j < n && PrefixMatch(services[j], path) ==>
      |services[j].pathPrefix| <= |services[r.value].pathPrefix|
    ensures r.Some? ==> forall j :: 0 <= j < r.value && PrefixMatch(services[j], path) ==>
      |services[j].pathPrefix| < |services[r.value].pathPrefix|
    ensures r.None? <==> forall j :: 0 <= j < n ==> !PrefixMatch(services[j], path)
  {
    if n == 0 then None
    else
      var best := LongestUpTo(services, path, n - 1);
      if !PrefixMatch(services[n - 1], path) then best
      else if best.Some? && |services[best.value].pathPrefix| >= |services[n - 1].pathPrefix| then best
      else Some(n - 1)
  }

  /** Stage 1: the longest matching prefix, the earliest among equals. */
  function ExactMatch(services: seq<ServiceMapping>, path: string): (r: Option<nat>)
    ensures r.Some? ==> r.value < |services| && PrefixMatch(services[r.value], path)
    ensures r.Some? ==> forall j :: 0 <= j < |services| && PrefixMatch(services[j], path) ==>
      |services[j].pathPrefix| <= |services[r.value].pathPrefix|
    ensures r.Some? ==> forall j :: 0 <= j < r.value && PrefixMatch(services[j], path) ==>
      |services[j].pathPrefix| < |services[r.value].pathPrefix|
    ensures r.None? <==> forall j :: 0 <= j < |services| ==> !PrefixMatch(services[j], path)
  {
    LongestUpTo(services, path, |services|)
  }

  /** Stage 2: the first entry whose prefix is a substring of the Referer. */
  function RefererMatch(services: seq<ServiceMapping>, referer: Option<string>): (r: Option<nat>)
    ensures r.Some? ==> (referer.Some? && r.value < |services|
      && Contains(referer.value, services[r.value].pathPrefix)
      && forall j :: 0 <= j < r.value ==> !Contains(referer.value, services[j].pathPrefix))
    ensures r.None? <==> (referer.None? ||
      forall j :: 0 <= j < |services| ==> !Contains(referer.value, services[j].pathPrefix))
  {
    match referer
    case None => None
    case Some(ref) => FindFirst(services, (s: ServiceMapping) => Contains(ref, s.pathPrefix))
  }

  /** Paths the Immich web client requests from the site root. */
  predicate ImmichAsset(path: string) {
    StartsWith(path, "/_app/immutable/") || StartsWith(path, "/api/")
  }

  /** Paths the Home Assistant frontend requests from the site root. */
  predicate HomeAssistantAsset(path: string) {
    || StartsWith(path, "/hacsfiles/")
    || StartsWith(path, "/auth/")
    || StartsWith(path, "/manifest.json")
    || StartsWith(path, "/sw-modern.js")
  }

  predicate ImmichName(m: ServiceMapping) {
    Contains(Lower(m.name), "immich")
  }

  predicate HomeAssistantName(m: ServiceMapping) {
    Contains(Lower(m.name), "home") || Contains(Lower(m.name), "assistant")
  }

  /** Stage 3: the asset-pattern table. Immich paths are tried first. */
  function PatternMatch(services: seq<ServiceMapping>, path: string): (r: Option<nat>)
    ensures r.Some? ==> r.value < |services|
    ensures ImmichAsset(path) ==>
      (r.Some? ==> ImmichName(services[r.value]) && forall j :: 0 <= j < r.value ==> !ImmichName(services[j]))
      && (r.None? <==> forall j :: 0 <= j < |services| ==> !ImmichName(services[j]))
    ensures !ImmichAsset(path) && HomeAssistantAsset(path) ==>
      (r.Some? ==> HomeAssistantName(services[r.value]) && forall j :: 0 <= j < r.value ==> !HomeAssistantName(services[j]))
      && (r.None? <==> forall j :: 0 <= j < |services| ==> !HomeAssistantName(services[j]))
    ensures !ImmichAsset(path) && !HomeAssistantAsset(path) ==> r.None?
  {
    if ImmichAsset(path) then FindFirst(services, ImmichName)
    else if HomeAssistantAsset(path) then FindFirst(services, HomeAssistantName)
    else None
  }

  /** The entry `proxy` selects for a request; `None` is the 404. */
  function Resolve(services: seq<ServiceMapping>, path: string, referer: Option<string>): (r: Option<Route>)
    ensures r.Some? ==> r.value.index < |services|
    ensures r.Some? && r.value.kind == ExactPrefix ==> ExactMatch(services, path) == Some(r.value.index)
    ensures r.Some? && r.value.kind == RefererContext ==>
      ExactMatch(services, path).None? && RefererMatch(services, referer) == Some(r.value.index)
    ensures r.Some? && r.value.kind == AssetPattern ==>
      ExactMatch(services, path).None? && RefererMatch(services, referer).None?
      && PatternMatch(services, path) == Some(r.value.index)
    ensures r.None? <==>
      ExactMatch(services, path).None? && RefererMatch(services, referer).None? && PatternMatch(services, path).None?
  {
    match ExactMatch(services, path)
    case Some(i) => Some(Route(i, ExactPrefix))
    case None =>
      match RefererMatch(services, referer)
      case Some(j) => Some(Route(j, RefererContext))
      case None =>
        match PatternMatch(services, path)
        case Some(k) => Some(Route(k, AssetPattern))
        case None => None
  }

  /**
   * Stage 1 is decided by the path alone: an exact match is taken exactly
   * when some prefix matches, it is the longest of them, and the later
   * stages are then never consulted.
   */
  lemma ResolveExact(services: seq<ServiceMapping>, path: string, referer: Option<string>)
    ensures (exists i :: 0 <= i < |services| && PrefixMatch(services[i], path)) <==>
      (Resolve(services, path, referer).Some? && Resolve(services, path, referer).value.kind == ExactPrefix)
    ensures Resolve(services, path, referer).Some? && Resolve(services, path, referer).value.kind == ExactPrefix ==>
      var m := services[Resolve(services, path, referer).value.index];
      && PrefixMatch(m, path)
      && forall j :: 0 <= j < |services| && PrefixMatch(services[j], path) ==> |services[j].pathPrefix| <= |m.pathPrefix|
  {
    if exists i :: 0 <= i < |services| && PrefixMatch(services[i], path) {
      var i :| 0 <= i < |services| && PrefixMatch(services[i], path);
      assert ExactMatch(services, path).Some?;
    }
  }

  /** Two prefixes of one path with the same length are the same string. */
  lemma SameLengthPrefixes(path: string, p: string, q: string)
    requires StartsWith(path, p) && StartsWith(path, q) && |p| == |q|
    ensures p == q
  {
    assert p == path[..|p|];
  }

  /**
   * With distinct prefixes (the `UNIQUE` column) the longest match does not
   * depend on registry order: it is the one matching entry that no other
   * matching entry outgrows.
   */
  lemma {:induction false} ExactMatchCharacterised(services: seq<ServiceMapping>, path: string, i: nat)
    requires DistinctPrefixes(services)
    requires i < |services|
    ensures ExactMatch(services, path) == Some(i) <==>
      && PrefixMatch(services[i], path)
      && forall j :: 0 <= j < |services| && PrefixMatch(services[j], path) ==>
           |services[j].pathPrefix| <= |services[i].pathPrefix|
  {
    var r := ExactMatch(services, path);
    if PrefixMatch(services[i], path)
      && forall j :: 0 <= j < |services| && PrefixMatch(services[j], path) ==>
           |services[j].pathPrefix| <= |services[i].pathPrefix|
    {
      var k := r.value;
      SameLengthPrefixes(path, services[k].pathPrefix, services[i].pathPrefix);
      assert k == i;
    }
  }

  /**
   * A catch-all entry with prefix `/` takes every path that starts with
   * `/`, so with one registered the Referer and asset fallbacks are dead.
   */
  lemma RootEntryShadowsFallbacks(services: seq<ServiceMapping>, path: string, referer: Option<string>, i: nat)
    requires i < |services| && services[i].pathPrefix == "/"
    requires StartsWith(path, "/")
    ensures Resolve(services, path, referer).Some?
    ensures Resolve(services, path, referer).value.kind == ExactPrefix
  {
    assert PrefixMatch(services[i], path);
    ResolveExact(services, path, referer);
  }

  /** The missing `/` boundary: prefix `/ha` claims the path `/hab/x`. */
  lemma NoBoundaryInExactMatch()
    ensures
      var services := [ServiceMapping(None, "Home Assistant", "/ha", "http://homeassistant:8123", None)];
      Resolve(services, "/hab/x", None) == Some(Route(0, ExactPrefix))
  {
    var services := [ServiceMapping(None, "Home Assistant", "/ha", "http://homeassistant:8123", None)];
    assert PrefixMatch(services[0], "/hab/x") by {
      assert "/hab/x"[..3] == "/ha";
    }
  }
}
