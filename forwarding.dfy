/**
 * What the HTTP proxy does with a request once the registry snapshot is
 * read: answer 404 when no entry is selected, otherwise build the request
 * sent to the backend (rewritten path, target URL, filtered headers, Host
 * override), and relay the backend's answer (status, filtered headers with
 * `Location` repaired, body streamed or rewritten).
 */
module Forwarding {
  import opened Wrappers
  import opened Strings
  import opened Registry
  import opened Rewrite
  import opened Headers
  import opened Routing

  const NotFoundStatus: int := 404

  /**
   * An incoming request: method, raw (still percent-encoded) path, the
   * query as `URI.getQuery()` returns it (already decoded), headers.
   */
  datatype Request = Request(httpMethod: string, path: string, query: Option<string>, headers: HeaderList)

  /** The request sent to the backend. */
  datatype Outbound = Outbound(httpMethod: string, url: string, headers: HeaderList)

  /** `getFirst("Referer")` */
  function RefererOf(req: Request): (r: Option<string>)
    ensures r.Some? ==> exists i :: (0 <= i < |req.headers| && SameName(req.headers[i].0, "Referer")
      && req.headers[i].1 != [] && r.value == req.headers[i].1[0])
    ensures (forall i :: 0 <= i < |req.headers| ==> !SameName(req.headers[i].0, "Referer")) ==> r.None?
    ensures Find(req.headers, "Referer").Some? && req.headers[Find(req.headers, "Referer").value].1 != [] ==>
      r == Some(req.headers[Find(req.headers, "Referer").value].1[0])
    ensures r.Some? ==>
      (Find(req.headers, "Referer").Some?
       && req.headers[Find(req.headers, "Referer").value].1 != []
       && r.value == req.headers[Find(req.headers, "Referer").value].1[0])
  {
    GetFirst(req.headers, "Referer")
  }

  /** The route's Host override, applied only when it is present and non-empty. */
  function OverrideHost(h: HeaderList, host: Option<string>): (r: HeaderList)
    ensures host.None? || host.value == "" ==> r == h
    ensures forall n :: !SameName(n, "Host") ==> Get(r, n) == Get(h, n)
    ensures host.Some? && host.value != "" && DistinctNames(h) ==>
      DistinctNames(r) && Get(r, "Host") == Some([host.value])
    ensures NoHopByHop(h) ==> NoHopByHop(r)
  {
    if host.Some? && host.value != "" then
      HostNotHopByHop();
      SetLookup(h, "Host", host.value);
      Set(h, "Host", host.value)
    else h
  }

  /** The backend request built for `req` once `m` is selected. */
  function Forwarded(req: Request, m: ServiceMapping): (r: Outbound)
    ensures r.httpMethod == req.httpMethod
    ensures StartsWith(r.url, m.targetUrl)
  {
    var newPath := RewritePath(req.path, m.pathPrefix);
    var url := TargetUrl(m.targetUrl, newPath, req.query);
    assert url[..|m.targetUrl|] == (m.targetUrl + newPath)[..|m.targetUrl|] == m.targetUrl;
    Outbound(req.httpMethod, url, OverrideHost(CopyHeaders([], req.headers, None), m.host))
  }

  datatype Outcome = NotFound | Forward(route: Route, request: Outbound)

  /**
   * The decision `proxy` takes: 404 when no stage selects an entry,
   * otherwise the backend request for the selected entry.
   */
  function Decide(services: seq<ServiceMapping>, req: Request): (r: Outcome)
    ensures r.NotFound? <==> Resolve(services, req.path, RefererOf(req)).None?
    ensures r.Forward? ==>
      && Resolve(services, req.path, RefererOf(req)) == Some(r.route)
      && r.request == Forwarded(req, services[r.route.index])
  {
    match Resolve(services, req.path, RefererOf(req))
    case None => NotFound
    case Some(route) => Forward(route, Forwarded(req, services[route.index]))
  }

  /**
   * The forwarded headers: `Host` is the override when there is one; a
   * hop-by-hop name is absent; every other name carries exactly the values
   * the client sent under it, in order.
   */
  lemma ForwardedHeaders(req: Request, m: ServiceMapping, n: string)
    ensures var h := Forwarded(req, m).headers;
      && (m.host.Some? && m.host.value != "" && SameName(n, "Host") ==> Get(h, n) == Some([m.host.value]))
      && (m.host.None? || m.host.value == "" || !SameName(n, "Host") ==>
            Get(h, n) == if IsHopByHop(n) then None else Collect(req.headers, n, None))
  {
    var copied := CopyHeaders([], req.headers, None);
    CopyHeadersGet([], req.headers, None, n);
    assert Get([], n) == None;
    var c := Collect(req.headers, n, None);
    assert Merge(None, c) == c by {
      if c.Some? {
        assert [] + c.value == c.value;
      }
    }
    if m.host.Some? && m.host.value != "" && SameName(n, "Host") {
      CopyHeadersWellFormed([], req.headers, None);
      GetSameName(OverrideHost(copied, m.host), n, "Host");
    }
  }

  /** Forwarded headers hold one entry per name and no hop-by-hop entry. */
  lemma ForwardedWellFormed(req: Request, m: ServiceMapping)
    ensures DistinctNames(Forwarded(req, m).headers)
    ensures NoHopByHop(Forwarded(req, m).headers)
  {
    CopyHeadersWellFormed([], req.headers, None);
  }

  /**
   * A client request whose headers have one entry per name and no
   * hop-by-hop entry, sent through a route without a Host override, keeps
   * its headers unchanged.
   */
  lemma ForwardedKeepsCleanHeaders(req: Request, m: ServiceMapping)
    requires DistinctNames(req.headers) && NoHopByHop(req.headers)
    requires m.host.None? || m.host.value == ""
    ensures Forwarded(req, m).headers == req.headers
  {
    CopyHeadersIdentity(req.headers);
  }

  /** The backend request is built with `proxyRequest`'s own steps. */
  method ProxyRequest(req: Request, m: ServiceMapping) returns (out: Outbound)
    ensures out == Forwarded(req, m)
  {
    var newPath: string;
    if StartsWith(req.path, m.pathPrefix + "/") || req.path == m.pathPrefix {
      newPath := req.path[|m.pathPrefix|..];
      if newPath == [] || !StartsWith(newPath, "/") {
        newPath := "/" + newPath;
      }
    } else {
      newPath := req.path;
    }
    var targetUrl := m.targetUrl + newPath;
    if req.query.Some? {
      targetUrl := targetUrl + "?" + req.query.value;
    }
    var headers := TransferHeaders([], req.headers, None);
    if m.host.Some? && m.host.value != "" {
      headers := Set(headers, "Host", m.host.value);
    }
    out := Outbound(req.httpMethod, targetUrl, headers);
  }

  datatype Body = NoBody | Streamed(content: string) | Rewritten(content: string)

  /** The response under construction, as the framework hands it to the proxy. */
  class ServerResponse {
    var status: Option<int>
    var headers: HeaderList
    var body: Body
    var complete: bool

    constructor ()
      ensures status == None && headers == [] && body == NoBody && !complete
    {
      status := None;
      headers := [];
      body := NoBody;
      complete := false;
    }
  }

  /**
   * `proxy`: the 404 is set and the response completed without a body when
   * nothing is selected; otherwise the response is left to the relay and
   * the backend request is returned.
   */
  method Proxy(services: seq<ServiceMapping>, req: Request, response: ServerResponse) returns (out: Option<Outbound>)
    modifies response
    ensures Decide(services, req).NotFound? ==>
      && out.None?
      && response.status == Some(NotFoundStatus) && response.complete
      && response.body == old(response.body) && response.headers == old(response.headers)
    ensures Decide(services, req).Forward? ==>
      out == Some(Decide(services, req).request) && unchanged(response)
  {
    var referer := GetFirst(req.headers, "Referer");
    var selected := Resolve(services, req.path, referer);
    if selected.None? {
      response.status := Some(NotFoundStatus);
      response.complete := true;
      return None;
    }
    var request := ProxyRequest(req, services[selected.value.index]);
    out := Some(request);
  }

  /** What the backend answered: status, headers, parsed content type and length, body text. */
  datatype BackendResponse = BackendResponse(
    status: int,
    headers: HeaderList,
    contentType: Option<MediaType>,
    contentLength: Option<int>,
    body: string)

  /**
   * The body rewrite for the route's prefix: the regular-expression stage
   * (a parameter of the model) followed by the literal API-path
   * substitutions.
   */
  function RewriteContent(content: string, prefix: string, regexStage: (string, string) -> string): (r: string)
    ensures |regexStage(content, prefix)| <= |r|
    ensures !Contains(prefix, "immich") && !Contains(prefix, "ha") ==> r == regexStage(content, prefix)
  {
    RewriteApiPaths(regexStage(content, prefix), prefix)
  }

  /** The relay of the backend's answer through `response`. */
  method Relay(response: ServerResponse, backend: BackendResponse, m: ServiceMapping, regexStage: (string, string) -> string)
    modifies response
    ensures response.status == Some(backend.status)
    ensures response.headers == CopyHeaders(old(response.headers), backend.headers, Some(m.pathPrefix))
    ensures response.body ==
      if ShouldRewriteBody(backend.contentType, backend.contentLength)
      then Rewritten(RewriteContent(backend.body, m.pathPrefix, regexStage))
      else Streamed(backend.body)
    ensures response.complete
  {
    response.status := Some(backend.status);
    var headers := TransferHeaders(response.headers, backend.headers, Some(m.pathPrefix));
    response.headers := headers;
    if ShouldRewriteContent(backend.contentType) && IsSmallResponse(backend.contentLength) {
      var rewritten := ApplyApiSubstitutions(regexStage(backend.body, m.pathPrefix), m.pathPrefix);
      response.body := Rewritten(rewritten);
    } else {
      response.body := Streamed(backend.body);
    }
    response.complete := true;
  }

  /**
   * The relayed headers: a hop-by-hop name keeps only what the response
   * already held; any other name gets the backend's values appended, with
   * every `Location` value rewritten for the prefix.
   */
  lemma RelayedHeaders(acc: HeaderList, backend: HeaderList, prefix: string, n: string)
    ensures Get(CopyHeaders(acc, backend, Some(prefix)), n) ==
      if IsHopByHop(n) then Get(acc, n)
      else Merge(Get(acc, n), Relocated(Collect(backend, n, None), n, prefix))
  {
    CopyHeadersGet(acc, backend, Some(prefix), n);
    CollectRelocated(backend, n, prefix);
  }

  /**
   * The missing `/` boundary end to end: `/hab/x` is taken by the `/ha`
   * entry and, not being under `/ha/`, is forwarded unstripped.
   */
  lemma HabForwardedUnstripped()
    ensures
      var services := [ServiceMapping(None, "Home Assistant", "/ha", "http://homeassistant:8123", None)];
      var req := Request("GET", "/hab/x", None, []);
      Decide(services, req) == Forward(Route(0, ExactPrefix), Outbound("GET", "http://homeassistant:8123" + "/hab/x", []))
  {
    var services := [ServiceMapping(None, "Home Assistant", "/ha", "http://homeassistant:8123", None)];
    var req := Request("GET", "/hab/x", None, []);
    assert RefererOf(req) == None;
    NoBoundaryInExactMatch();
    HabPathKept(req.path);
    assert CopyHeaders([], [], None) == [];
  }

  lemma HabPathKept(path: string)
    requires path == "/hab/x"
    ensures RewritePath(path, "/ha") == path
  {
    assert !StartsWith(path, "/ha/") by {
      assert path[..4][3] == 'b' != "/ha/"[3];
    }
  }


  /**
   * A Pi-hole route end to end, request side: the prefix is stripped and
   * the query kept.
   */
  lemma PiholeRequest(services: seq<ServiceMapping>, req: Request)
    requires services == [ServiceMapping(None, "Pi-hole", "/pihole", "http://pihole:80", None)]
    requires req == Request("GET", "/pihole/admin/index.php", Some("tab=1"), [])
    ensures Decide(services, req) ==
      Forward(Route(0, ExactPrefix), Outbound("GET", "http://pihole:80" + "/admin/index.php" + "?" + "tab=1", []))
  {
    assert RefererOf(req) == None;
    PiholeSelected(services, req.path);
    PiholePath(req.path);
    assert CopyHeaders([], [], None) == [];
  }

  /**
   * The Referer fallback end to end: `/manifest.json` carries no prefix,
   * and the page it was requested from names `/ha`.
   */
  lemma RefererExample(services: seq<ServiceMapping>, req: Request)
    requires services == [ServiceMapping(None, "Home Assistant", "/ha", "http://homeassistant:8123", None)]
    requires req == Request("GET", "/manifest.json", None, [("Referer", ["https://host/ha/dashboard"])])
    ensures Decide(services, req).Forward?
    ensures Decide(services, req).route == Route(0, RefererContext)
  {
    RefererHeaderRead(req.headers);
    ManifestResolved(services, req.path, "https://host/ha/dashboard");
  }

  lemma RefererHeaderRead(h: HeaderList)
    requires h == [("Referer", ["https://host/ha/dashboard"])]
    ensures GetFirst(h, "Referer") == Some("https://host/ha/dashboard")
  {
    assert SameName(h[0].0, "Referer");
    assert Find(h, "Referer") == Some(0);
  }

  lemma ManifestResolved(services: seq<ServiceMapping>, path: string, referer: string)
    requires services == [ServiceMapping(None, "Home Assistant", "/ha", "http://homeassistant:8123", None)]
    requires path == "/manifest.json" && referer == "https://host/ha/dashboard"
    ensures Resolve(services, path, Some(referer)) == Some(Route(0, RefererContext))
  {
    assert !PrefixMatch(services[0], path) by {
      assert path[..3][1] == 'm' && "/ha"[1] == 'h';
    }
    assert Contains(referer, "/ha") by {
      assert StartsWith(referer[12..], "/ha");
    }
  }

  lemma PiholeSelected(services: seq<ServiceMapping>, path: string)
    requires services == [ServiceMapping(None, "Pi-hole", "/pihole", "http://pihole:80", None)]
    requires path == "/pihole/admin/index.php"
    ensures Resolve(services, path, None) == Some(Route(0, ExactPrefix))
  {
    assert path[..7] == "/pihole";
    assert PrefixMatch(services[0], path);
  }

  lemma PiholePath(path: string)
    requires path == "/pihole/admin/index.php"
    ensures RewritePath(path, "/pihole") == "/admin/index.php"
  {
    assert StartsWith(path, "/pihole/") by {
      assert path[..8] == "/pihole/";
    }
    var newPath := RewritePath(path, "/pihole");
    assert ("/pihole" + newPath)[7..] == newPath;
    assert path[7..] == "/admin/index.php";
  }

  /**
   * The same route, response side: the backend's root-relative redirect
   * is sent back under the prefix.
   */
  lemma PiholeRedirect()
    ensures CopyHeaders([], [("Location", ["/admin/"])], Some("/pihole")) == [("Location", ["/pihole" + "/admin/"])]
  {
    var location := [("Location", ["/admin/"])];
    LocationNotHopByHop();
    assert !StartsWith("/admin/", "/pihole") by {
      assert "/admin/"[1] == 'a' != "/pihole"[1];
    }
    assert StartsWith("/admin/", "/") by {
      assert "/admin/"[..1] == "/";
    }
    var rewritten := RewriteLocations(["/admin/"], "/pihole");
    assert rewritten == ["/pihole" + "/admin/"] by {
      assert |rewritten| == 1 && rewritten[0] == "/pihole" + "/admin/";
    }
    assert location[..0] == [];
    assert CopyHeaders([], [], Some("/pihole")) == [];
    assert Outgoing("Location", ["/admin/"], Some("/pihole")) == rewritten;
  }

  /** A path no stage claims is answered with 404 and no backend request. */
  lemma UnknownPathNotFound()
    ensures
      var services := [ServiceMapping(None, "Pi-hole", "/pihole", "http://pihole:80", None)];
      Decide(services, Request("GET", "/unknown/path", None, [])) == NotFound
  {
    var services := [ServiceMapping(None, "Pi-hole", "/pihole", "http://pihole:80", None)];
    assert !PrefixMatch(services[0], "/unknown/path") by {
      assert "/unknown/path"[1] == 'u' != "/pihole"[1];
    }
    assert !ImmichAsset("/unknown/path") by {
      assert "/unknown/path"[1] == 'u';
    }
    assert !HomeAssistantAsset("/unknown/path") by {
      assert "/unknown/path"[1] == 'u';
    }
  }
}
