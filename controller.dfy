/**
 * The catch-all HTTP controller: every path under `/admin` is answered
 * with 404 before the proxy sees it; every other request is handed to the
 * proxy unchanged.
 */
module Controller {
  import opened Strings
  import opened Registry
  import opened Routing
  import opened Forwarding

  predicate AdminPath(path: string) {
    StartsWith(path, "/admin")
  }

  /** The outcome of a request reaching the catch-all controller. */
  function Handle(services: seq<ServiceMapping>, req: Request): (r: Outcome)
    ensures AdminPath(req.path) ==> r == NotFound
    ensures !AdminPath(req.path) ==> r == Decide(services, req)
  {
    if AdminPath(req.path) then NotFound else Decide(services, req)
  }

  /**
   * Under `/admin` the answer depends on the path alone: neither the
   * registry nor anything else in the request changes it.
   */
  lemma AdminDecidedByPath(services: seq<ServiceMapping>, other: seq<ServiceMapping>, a: Request, b: Request)
    requires a.path == b.path && AdminPath(a.path)
    ensures Handle(services, a) == Handle(other, b) == NotFound
  {
  }

  /**
   * The guard wins over the registry: a route registered under `/admin`
   * would be selected by the proxy, yet the controller answers 404.
   */
  lemma AdminGuardShadowsRoutes(services: seq<ServiceMapping>, req: Request, i: nat)
    requires i < |services| && services[i].pathPrefix == "/admin"
    requires AdminPath(req.path)
    ensures Decide(services, req).Forward?
    ensures Handle(services, req) == NotFound
  {
    assert PrefixMatch(services[i], req.path);
    ResolveExact(services, req.path, RefererOf(req));
  }

  /**
   * The `/admin` test is a plain string prefix: `/administrator` and
   * `/adminfoo` are refused too.
   */
  lemma AdminGuardHasNoBoundary(services: seq<ServiceMapping>, req: Request)
    requires req.path == "/adminfoo"
    ensures Handle(services, req) == NotFound
  {
    assert req.path[..6] == "/admin";
  }
}
