/**
 * The WebSocket side of the proxy: which upgrade requests are refused
 * outright, which route entry takes the rest, and the `ws://`/`wss://`
 * address the session is relayed to. Unlike the HTTP resolver, the entry
 * chosen is the FIRST in registry order whose prefix the path starts with,
 * not the longest.
 */
module WebSocket {
  import opened Wrappers
  import opened Strings
  import opened Seqs
  import opened Registry
  import opened Rewrite
  import opened Routing

  /** Paths the handler closes without looking at the registry. */
  function Reserved(path: string): (r: bool)
    ensures r ==> StartsWith(path, "/")
  {
    StartsWith(path, "/admin") || path == "/health" || path == "/status" || path == "/"
  }

  /** `filter(startsWith).next()`: the first entry whose prefix matches. */
  function FirstMatch(services: seq<ServiceMapping>, path: string): (r: Option<nat>)
    ensures r.Some? ==> r.value < |services| && PrefixMatch(services[r.value], path)
    ensures r.Some? ==> forall j :: 0 <= j < r.value ==> !PrefixMatch(services[j], path)
    ensures r.None? <==> forall j :: 0 <= j < |services| ==> !PrefixMatch(services[j], path)
  {
    FindFirst(services, (s: ServiceMapping) => PrefixMatch(s, path))
  }

  /**
   * `path.replaceFirst("^" + prefix, "")` for a prefix without regular
   * expression metacharacters: a leading occurrence is removed.
   */
  function StripLeading(path: string, prefix: string): (r: string)
    ensures StartsWith(path, prefix) ==> prefix + r == path
    ensures !StartsWith(path, prefix) ==> r == path
  {
    if StartsWith(path, prefix) then
      assert prefix + path[|prefix|..] == path by {
        assert path == path[..|prefix|] + path[|prefix|..];
      }
      path[|prefix|..]
    else path
  }

  /**
   * The path sent to the backend: the prefix is stripped without any `/`
   * boundary, and a `/` is put back in front when the remainder lacks one.
   */
  function WsPath(path: string, prefix: string): (r: string)
    ensures StartsWith(r, "/")
    ensures StartsWith(path, prefix) && StartsWith(path[|prefix|..], "/") ==> prefix + r == path
    ensures StartsWith(path, prefix) && !StartsWith(path[|prefix|..], "/") ==> prefix + r[1..] == path
    ensures !StartsWith(path, prefix) && StartsWith(path, "/") ==> r == path
  {
    var newPath := StripLeading(path, prefix);
    if !StartsWith(newPath, "/") then "/" + newPath else newPath
  }

  /** `replace("http://", "ws://").replace("https://", "wss://")` */
  function WsScheme(url: string): (r: string)
    ensures |r| <= |url|
    ensures !Contains(url, "http://") && !Contains(url, "https://") ==> r == url
  {
    if !Contains(url, "http://") && !Contains(url, "https://") then
      ReplaceAllAbsent(url, "http://", "ws://");
      ReplaceAllAbsent(url, "https://", "wss://");
      ReplaceAll(ReplaceAll(url, "http://", "ws://"), "https://", "wss://")
    else
      ReplaceAll(ReplaceAll(url, "http://", "ws://"), "https://", "wss://")
  }

  /** The address the upgraded session is opened to; the query is not carried over. */
  function WsUrl(targetUrl: string, newPath: string): (r: string)
    ensures |newPath| <= |r| <= |targetUrl| + |newPath|
    ensures r[|r| - |newPath|..] == newPath
    ensures !Contains(targetUrl, "http://") && !Contains(targetUrl, "https://") ==> r == targetUrl + newPath
  {
    WsScheme(targetUrl) + newPath
  }

  datatype WsOutcome = Close | Connect(index: nat, url: string)

  /**
   * What the handler does with an upgrade request for `path`, the
   * handshake URI's `getPath()`: unlike the HTTP side, which reads the raw
   * path, this path is already percent-decoded.
   */
  function Handle(services: seq<ServiceMapping>, path: string): (r: WsOutcome)
    ensures Reserved(path) ==> r == Close
    ensures !Reserved(path) ==> (r == Close <==> forall j :: 0 <= j < |services| ==> !PrefixMatch(services[j], path))
    ensures r.Connect? ==>
      && r.index < |services|
      && PrefixMatch(services[r.index], path)
      && (forall j :: 0 <= j < r.index ==> !PrefixMatch(services[j], path))
      && r.url == WsUrl(services[r.index].targetUrl, WsPath(path, services[r.index].pathPrefix))
  {
    if Reserved(path) then Close
    else
      match FirstMatch(services, path)
      case None => Close
      case Some(i) => Connect(i, WsUrl(services[i].targetUrl, WsPath(path, services[i].pathPrefix)))
  }

  /** A reserved path is closed whatever the registry holds. */
  lemma ReservedIgnoresRegistry(services: seq<ServiceMapping>, other: seq<ServiceMapping>, path: string)
    requires Reserved(path)
    ensures Handle(services, path) == Handle(other, path) == Close
  {
  }

  /**
   * First match against longest match: the first matching entry never
   * comes after the HTTP resolver's choice, and the two agree exactly when
   * no matching entry has a longer prefix than the first one.
   */
  lemma FirstVersusLongest(services: seq<ServiceMapping>, path: string)
    ensures FirstMatch(services, path).None? <==> ExactMatch(services, path).None?
    ensures FirstMatch(services, path).Some? ==> FirstMatch(services, path).value <= ExactMatch(services, path).value
    ensures FirstMatch(services, path) == ExactMatch(services, path) <==>
      (FirstMatch(services, path).None? ||
       forall j :: 0 <= j < |services| && PrefixMatch(services[j], path) ==>
         |services[j].pathPrefix| <= |services[FirstMatch(services, path).value].pathPrefix|)
  {
    var f, e := FirstMatch(services, path), ExactMatch(services, path);
    if f.Some? {
      assert e.Some?;
      assert f.value <= e.value;
    }
  }

  /** The two resolvers disagree on nested prefixes listed shortest first. */
  lemma NestedPrefixesDisagree()
    ensures
      var services := [
        ServiceMapping(None, "Home Assistant", "/ha", "http://homeassistant:8123", None),
        ServiceMapping(None, "Sub", "/ha/sub", "http://sub:80", None)];
      FirstMatch(services, "/ha/sub/x") == Some(0) && ExactMatch(services, "/ha/sub/x") == Some(1)
  {
    var services := [
      ServiceMapping(None, "Home Assistant", "/ha", "http://homeassistant:8123", None),
      ServiceMapping(None, "Sub", "/ha/sub", "http://sub:80", None)];
    assert PrefixMatch(services[0], "/ha/sub/x") by {
      assert "/ha/sub/x"[..3] == "/ha";
    }
    assert PrefixMatch(services[1], "/ha/sub/x") by {
      assert "/ha/sub/x"[..7] == "/ha/sub";
    }
  }

  /**
   * On the paths the HTTP rule strips (the prefix itself, or the prefix
   * followed by `/`), both rules send the same path to the backend.
   */
  lemma WsPathAgreesWithHttp(path: string, prefix: string)
    requires path == prefix || StartsWith(path, prefix + "/")
    ensures WsPath(path, prefix) == RewritePath(path, prefix)
  {
    if path == prefix {
      assert path[|prefix|..] == [];
    } else {
      assert path[|prefix|..][..1] == path[|prefix|..|prefix| + 1] == (prefix + "/")[|prefix|..|prefix| + 1];
      assert StartsWith(path, prefix);
    }
  }

  /** Without a `/` boundary the two rules part: `/hab` under `/ha` becomes `/b`. */
  lemma WsPathWithoutBoundary()
    ensures WsPath("/hab", "/ha") == "/b"
    ensures RewritePath("/hab", "/ha") == "/hab"
  {
    assert StartsWith("/hab", "/ha") by {
      assert "/hab"[..3] == "/ha";
    }
    assert "/hab"[3..] == "b";
    assert !StartsWith("/hab", "/ha/") by {
      assert "/hab"[..4][3] == 'b' != "/ha/"[3];
    }
  }

  /** An `http://` base becomes `ws://`, the rest of the address untouched. */
  lemma {:induction false} WsSchemeHttp(rest: string)
    requires !Contains(rest, "http://") && !Contains(rest, "https://")
    ensures WsScheme("http://" + rest) == "ws://" + rest
  {
    ReplaceAllLead("http://", rest, "ws://");
    ReplaceAllAbsent(rest, "http://", "ws://");
    NoOccurrenceAdded("ws://", rest, "https://");
    ReplaceAllAbsent("ws://" + rest, "https://", "wss://");
  }

  /**
   * An `https://` base becomes `wss://`: the first replacement finds no
   * `http://` in it, so only the second one applies.
   */
  lemma {:induction false} WsSchemeHttps(rest: string)
    requires !Contains(rest, "http://") && !Contains(rest, "https://")
    ensures WsScheme("https://" + rest) == "wss://" + rest
  {
    var url := "https://" + rest;
    NoOccurrenceAdded("ttps://", rest, "http://");
    assert url == ['h'] + ("ttps://" + rest);
    assert !StartsWith(url, "http://") by {
      assert url[4] == 's';
    }
    NotContainsCons('h', "ttps://" + rest, "http://");
    ReplaceAllAbsent(url, "http://", "ws://");
    ReplaceAllLead("https://", rest, "wss://");
    ReplaceAllAbsent(rest, "https://", "wss://");
  }
}
