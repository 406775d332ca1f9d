/**
 * Route entries as the registry hands them to the proxy: a snapshot of
 * `ServiceMapping` rows, read in registry order on every request.
 */
module Registry {
  import opened Wrappers
  import opened Strings

  /**
   * One route entry. `host` is the optional Host override (a nullable
   * column); `id` is assigned by the registry and absent on a new entry.
   */
  datatype ServiceMapping = ServiceMapping(
    id: Option<int>,
    name: string,
    pathPrefix: string,
    targetUrl: string,
    host: Option<string>)

  /** The `UNIQUE` constraint on the `path_prefix` column. */
  predicate DistinctPrefixes(services: seq<ServiceMapping>) {
    forall i, j :: 0 <= i < j < |services| ==> services[i].pathPrefix != services[j].pathPrefix
  }

  /** What the admin endpoints guarantee of every stored prefix. */
  predicate RootedPrefixes(services: seq<ServiceMapping>) {
    forall i :: 0 <= i < |services| ==> StartsWith(services[i].pathPrefix, "/")
  }
}
