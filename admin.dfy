/**
 * The admin API's writes: a route entry arrives as a mutable entity, its
 * prefix is normalised to start with `/` (and, on update, its id is set
 * from the request path) before it is saved. Normalised prefixes are what
 * the resolvers' `startsWith` tests are written against.
 */
module Admin {
  import opened Wrappers
  import opened Strings
  import opened Registry
  import opened Routing

  /** A prefix without a leading `/` gets one. */
  function NormalizePrefix(p: string): (r: string)
    ensures StartsWith(r, "/")
    ensures StartsWith(p, "/") ==> r == p
    ensures !StartsWith(p, "/") ==> r == "/" + p
  {
    if !StartsWith(p, "/") then "/" + p else p
  }

  /** Normalising twice is normalising once. */
  lemma NormalizeIdempotent(p: string)
    ensures NormalizePrefix(NormalizePrefix(p)) == NormalizePrefix(p)
  {
  }

  /** A route entry as the request body binds it: every field settable. */
  class ServiceMappingEntity {
    var id: Option<int>
    var name: string
    var pathPrefix: string
    var targetUrl: string
    var host: Option<string>

    constructor (m: ServiceMapping)
      ensures Value() == m
    {
      id := m.id;
      name := m.name;
      pathPrefix := m.pathPrefix;
      targetUrl := m.targetUrl;
      host := m.host;
    }

    /** The row that saving the entity stores. */
    function Value(): ServiceMapping
      reads this
    {
      ServiceMapping(id, name, pathPrefix, targetUrl, host)
    }
  }

  /** `addService`: normalise the prefix in place, then save. */
  method AddService(service: ServiceMappingEntity) returns (saved: ServiceMapping)
    modifies service`pathPrefix
    ensures service.pathPrefix == NormalizePrefix(old(service.pathPrefix))
    ensures saved == service.Value()
    ensures saved == old(service.Value()).(pathPrefix := NormalizePrefix(old(service.pathPrefix)))
  {
    if !StartsWith(service.pathPrefix, "/") {
      service.pathPrefix := "/" + service.pathPrefix;
    }
    saved := service.Value();
  }

  /** `updateService`: take the id from the path, normalise, then save. */
  method UpdateService(id: int, service: ServiceMappingEntity) returns (saved: ServiceMapping)
    modifies service`id, service`pathPrefix
    ensures service.id == Some(id)
    ensures service.pathPrefix == NormalizePrefix(old(service.pathPrefix))
    ensures saved == service.Value()
    ensures saved == old(service.Value()).(id := Some(id), pathPrefix := NormalizePrefix(old(service.pathPrefix)))
  {
    service.id := Some(id);
    if !StartsWith(service.pathPrefix, "/") {
      service.pathPrefix := "/" + service.pathPrefix;
    }
    saved := service.Value();
  }

  /** Adding or replacing an entry with a normalised prefix keeps every prefix rooted. */
  lemma SaveKeepsRooted(services: seq<ServiceMapping>, m: ServiceMapping, i: nat)
    requires RootedPrefixes(services)
    requires i <= |services|
    ensures RootedPrefixes(services + [m.(pathPrefix := NormalizePrefix(m.pathPrefix))])
    ensures i < |services| ==> RootedPrefixes(services[i := m.(pathPrefix := NormalizePrefix(m.pathPrefix))])
  {
    var n := m.(pathPrefix := NormalizePrefix(m.pathPrefix));
    assert forall k :: 0 <= k < |services| ==> (services + [n])[k] == services[k];
  }

  /** With rooted prefixes, a path not starting with `/` has no exact match. */
  lemma RootedNeedsRootedPath(services: seq<ServiceMapping>, path: string)
    requires RootedPrefixes(services)
    requires !StartsWith(path, "/")
    ensures ExactMatch(services, path).None?
  {
    forall j | 0 <= j < |services| ensures !PrefixMatch(services[j], path) {
      var p := services[j].pathPrefix;
      assert StartsWith(p, "/");
      assert |p| > 0 && p[0] == '/';
    }
  }
}
