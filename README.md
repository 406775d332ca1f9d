# funnelproxy routing and rewriting, modelled in Dafny

funnelproxy is a reverse proxy that puts several backend web applications
(Home Assistant, Immich, Pi-hole, ...) behind one public origin. Each
application is a route entry — a name, a path prefix such as `/ha`, a
backend base URL and an optional `Host` override — kept in a registry
that the proxy reads afresh on every request.

The Dafny project models the decisions the proxy takes:

- **HTTP route resolution** (`Routing`). The entry with the longest prefix
  the path starts with is chosen first; failing that, the first entry whose
  prefix occurs in the `Referer`; failing that, a fixed table of Immich and
  Home Assistant asset paths chooses by a keyword in the entry's name.
  Otherwise the answer is 404.
- **The forwarded request** (`Rewrite`, `Headers`, `Forwarding`). This
  covers:
  - the stripped path;
  - the target URL with its query;
  - the request headers copied without the eight hop-by-hop headers;
  - the `Host` override.
- **The relayed response** (`Rewrite`, `Headers`, `Forwarding`). This
  covers:
  - the status;
  - the response headers, with root-relative `Location` values moved
    under the route's prefix;
  - the gate that decides whether a body is rewritten (HTML, smaller than
    1 MiB);
  - the literal quote-plus-API-path substitutions in rewritten bodies.
- **WebSocket upgrades** (`WebSocket`). Reserved paths are closed. The
  first matching entry in registry order is taken, not the longest. The
  prefix is stripped without a `/` boundary. `http://` becomes `ws://` and
  `https://` becomes `wss://`.
- **The catch-all controller** (`Controller`). Every path under `/admin`
  is answered with 404.
- **The admin API's writes** (`Admin`). A prefix is normalised to start
  with `/`, and on update the id is taken from the URL.

A route entry is the datatype `Registry.ServiceMapping`. The registry is a
`seq` snapshot in registry order. The `UNIQUE` constraint on the
`path_prefix` column is the predicate `Registry.DistinctPrefixes`, taken as
a precondition where it matters.

Headers are a `seq` of (name, values) entries with at most one entry per
case-insensitive name, as the framework's case-insensitive header map keeps
them:

- `addAll` appends values to the existing entry, which keeps its spelling;
- `set` replaces the entry in place when it is spelt the same, and
  otherwise removes it and adds the key at the end.

The response under construction is a class whose fields `Proxy` and
`Relay` update. `proxyRequest` and the header copy are methods whose local
variables are reassigned as in the source. Each is proved equal to a
specification function, and the properties are proved about those
functions.

Where the documented behaviour and the code differ, the model follows the
code:

- **No `/` boundary in the exact match.** The documented rule asks for
  `path == prefix` or `prefix + "/"`. The code tests plain `startsWith`,
  so `/hab/x` is taken by `/ha` (`Routing.NoBoundaryInExactMatch`). The
  path is then forwarded unstripped, because the strip rule does need the
  boundary (`Forwarding.HabForwardedUnstripped`).
- **WebSocket uses the first match.** The documentation says upgrades use
  the same longest match as HTTP. The code takes the first match
  (`WebSocket.FirstVersusLongest`, `WebSocket.NestedPrefixesDisagree`).
- **Only `/admin` is refused by the catch-all HTTP controller.** The
  documentation lists `/admin*`, `/health`, `/status` and `/` as refused for
  both protocols. The WebSocket handler refuses all four. The catch-all
  `/**` controller (`ProxyController.java:21-32`) refuses only `/admin*` and
  hands every other path to the resolver. A GET on `/health`, `/status` or
  `/` never reaches it, because `HealthController.java:10-25` maps those
  three; other methods on them, which the health controller does not map,
  are not modelled here.
- **Tie-breaking.** The documentation calls the order among equally long
  prefixes undefined. `Stream.max` keeps the earliest of them
  (`Routing.LongestUpTo`). With distinct prefixes no tie can arise at all
  (`Routing.SameLengthPrefixes`, `Routing.ExactMatchCharacterised`).
- **No double-prefix guard.** The documentation promises that rewriting
  never prepends the prefix twice. The `src`/`href` substitution has no
  such guard. The model proves idempotence only for the literal API-path
  substitutions, and only under `Rewrite.SafePrefix`.

## Model

Source paths are relative to the repository root.

| member | source | states |
|---|---|---|
| Seqs.FindFirst | src/main/java/com/example/funnelproxy/service/ProxyService.java:50-53 | `filter(p).findFirst()`: the index found satisfies `p` and no earlier element does; nothing is found exactly when no element satisfies `p` |
| Strings.Lower | src/main/java/com/example/funnelproxy/service/ProxyService.java:208 | `toLowerCase` keeps the length and lower-cases each character (ASCII letters) |
| Strings.ReplaceAllAbsent | src/main/java/com/example/funnelproxy/websocket/WebSocketProxyHandler.java:59 | `replace` leaves a string without the pattern unchanged |
| Strings.ReplaceAll | src/main/java/com/example/funnelproxy/websocket/WebSocketProxyHandler.java:59 | `replace` puts the replacement in place of a leading occurrence and keeps a first character that starts none; a replacement as long as the pattern keeps the length, a shorter one never lengthens the string, and replacing the pattern by itself changes nothing |
| Strings.ReplaceAllLead | src/main/java/com/example/funnelproxy/websocket/WebSocketProxyHandler.java:59 | after a leading occurrence is replaced, the scan continues on the rest of the string, without overlap |
| Routing.LongestUpTo | src/main/java/com/example/funnelproxy/service/ProxyService.java:40-43 | the entry chosen matches by `startsWith`; no matching entry has a longer prefix; every earlier matching entry has a strictly shorter one (first among the longest); nothing is chosen exactly when no prefix matches |
| Routing.ExactMatch | src/main/java/com/example/funnelproxy/service/ProxyService.java:40-43 | over the whole registry: the entry chosen matches; no matching entry is longer, every earlier matching one is strictly shorter; nothing is chosen exactly when no prefix matches |
| Routing.RefererMatch | src/main/java/com/example/funnelproxy/service/ProxyService.java:46-53 | only with a Referer present: the first entry whose prefix occurs as a substring of it; nothing when there is no Referer or no prefix occurs |
| Routing.PatternMatch | src/main/java/com/example/funnelproxy/service/ProxyService.java:60-83 | `/_app/immutable/` and `/api/` paths take the first entry whose lower-cased name contains "immich"; the four Home Assistant paths take the first whose name contains "home" or "assistant"; any other path takes nothing |
| Routing.Resolve | src/main/java/com/example/funnelproxy/service/ProxyService.java:39-92 | the three stages in order: the Referer stage only when there is no exact match, the pattern stage only when both failed; no entry exactly when all three fail |
| Routing.ResolveExact | src/main/java/com/example/funnelproxy/service/ProxyService.java:40-47 | the exact stage decides exactly when some prefix matches the path, and then picks a longest matching prefix |
| Routing.SameLengthPrefixes | src/main/java/com/example/funnelproxy/service/ProxyService.java:41-42 | two prefixes of one path with equal length are the same string, so distinct prefixes never tie |
| Routing.ExactMatchCharacterised | src/main/java/com/example/funnelproxy/service/ProxyService.java:40-43 | with distinct prefixes, entry `i` is chosen if and only if it matches and no matching entry is longer, whatever the registry order |
| Routing.RootEntryShadowsFallbacks | src/main/java/com/example/funnelproxy/service/ProxyService.java:40-61 | with a `/` entry, the exact stage decides every path starting with `/`, so the Referer and pattern stages never run |
| Routing.NoBoundaryInExactMatch | src/main/java/com/example/funnelproxy/service/ProxyService.java:41 | prefix `/ha` takes the path `/hab/x` |
| Rewrite.RewritePath | src/main/java/com/example/funnelproxy/service/ProxyService.java:101-113 | the prefix itself becomes `/`; under `prefix + "/"` the result starts with `/` and prefix + result is the path; any other path is unchanged |
| Rewrite.SplitQuery | src/main/java/com/example/funnelproxy/service/ProxyService.java:115-119 | the reference split of a URL at its first `?`: address and query put back together give the URL, and the address holds no `?` |
| Rewrite.TargetUrl | src/main/java/com/example/funnelproxy/service/ProxyService.java:115-119 | the URL starts with base + new path; it is exactly that when there is no query; with one, a `?` and the query follow |
| Rewrite.TargetUrlRoundTrip | src/main/java/com/example/funnelproxy/service/ProxyService.java:115-119 | the target URL is base + new path, with `?query` only when a query is present, so splitting it gives back both |
| Rewrite.RewriteLocation | src/main/java/com/example/funnelproxy/service/ProxyService.java:199-205 | a root-relative value not starting with the prefix gets the prefix prepended; any other value is unchanged; a root-relative result always starts with the prefix |
| Rewrite.RewriteLocationIdempotent | src/main/java/com/example/funnelproxy/service/ProxyService.java:199-205 | rewriting a `Location` twice is rewriting it once |
| Rewrite.RewriteLocations | src/main/java/com/example/funnelproxy/service/ProxyService.java:155-157 | every value is rewritten, in order, none dropped |
| Rewrite.RewriteLocationsAppend | src/main/java/com/example/funnelproxy/service/ProxyService.java:151-162 | rewriting two header lines' values one after the other is rewriting their concatenation |
| Rewrite.Includes | src/main/java/com/example/funnelproxy/service/ProxyService.java:248-250 | `MimeType.includes`: a `*` main type includes everything, every type includes itself, a `*` subtype includes every subtype of its main type, and inclusion needs a `*` or an equal main type; a concrete subtype includes only the identical type; a `*+suffix` subtype with no other `+` includes a different subtype of its main type exactly when that subtype's text after its last `+` is the suffix, and one with a further `+` includes no different subtype |
| Rewrite.ShouldRewriteContent | src/main/java/com/example/funnelproxy/service/ProxyService.java:248-250 | a content type is present and includes `text/html` exactly when its main type is `*`, or is `text` with subtype `html` or `*` |
| Rewrite.IsSmallResponse | src/main/java/com/example/funnelproxy/service/ProxyService.java:252-255 | small exactly when no length is declared (counted as 0) or the declared length is below 1048576 |
| Rewrite.ShouldRewriteBody | src/main/java/com/example/funnelproxy/service/ProxyService.java:168 | a body is rewritten if and only if a content type is present whose main type is `*`, or is `text` with subtype `html` or `*`, and any declared length is below 1048576 (a missing length counts as 0) |
| Rewrite.QuoteSubAbsent | src/main/java/com/example/funnelproxy/service/ProxyService.java:286 | a text with no quote directly followed by the path is left unchanged |
| Rewrite.QuoteSub | src/main/java/com/example/funnelproxy/service/ProxyService.java:284-293 | one quote-plus-path substitution (a quote, then the prefix, then the path): the text never shrinks, and an empty prefix leaves it as it is |
| Rewrite.QuoteSubLeavesNone | src/main/java/com/example/funnelproxy/service/ProxyService.java:284-293 | when neither the path nor `w` contains a quote, and after a substitution whose inserted text contains no quote and cannot start `w`, no quote followed by `w` is left (if none was there before, or if `w` is the substituted path) |
| Rewrite.QuoteSubIdempotent | src/main/java/com/example/funnelproxy/service/ProxyService.java:286 | with a quote-free prefix that cannot start the path, substituting twice is substituting once |
| Rewrite.RewriteApiPaths | src/main/java/com/example/funnelproxy/service/ProxyService.java:284-293 | the body never shrinks, and a prefix containing neither "immich" nor "ha" leaves it unchanged |
| Rewrite.ApplyApiSubstitutions | src/main/java/com/example/funnelproxy/service/ProxyService.java:284-293 | the reassigned `rewritten` text ends up equal to `RewriteApiPaths` |
| Rewrite.RewriteApiPathsLeavesNone | src/main/java/com/example/funnelproxy/service/ProxyService.java:284-293 | for a prefix satisfying `SafePrefix` (no quote, and nothing a substitution inserts after a quote can start `/api/`, `/auth/` or `/hacsfiles/`), no quoted `/api/` is left after the substitutions when the prefix contains "immich", and no quoted `/auth/` or `/hacsfiles/` when it contains "ha" |
| Rewrite.RewriteApiPathsIdempotent | src/main/java/com/example/funnelproxy/service/ProxyService.java:284-293 | for a safe prefix, rewriting an already rewritten body changes nothing |
| Headers.IsHopByHop | src/main/java/com/example/funnelproxy/service/ProxyService.java:207-217 | only a name of 2 (`te`) to 19 (`proxy-authorization`) characters can be hop-by-hop |
| Headers.ConnectionIsHopByHop | src/main/java/com/example/funnelproxy/service/ProxyService.java:207-217 | `Connection`, in the capitalisation clients send, is hop-by-hop |
| Headers.KeepAliveIsHopByHop | src/main/java/com/example/funnelproxy/service/ProxyService.java:207-217 | `Keep-Alive`, in the capitalisation clients send, is hop-by-hop |
| Headers.ProxyAuthenticateIsHopByHop | src/main/java/com/example/funnelproxy/service/ProxyService.java:207-217 | `Proxy-Authenticate`, in the capitalisation clients send, is hop-by-hop |
| Headers.ProxyAuthorizationIsHopByHop | src/main/java/com/example/funnelproxy/service/ProxyService.java:207-217 | `Proxy-Authorization`, in the capitalisation clients send, is hop-by-hop |
| Headers.TeIsHopByHop | src/main/java/com/example/funnelproxy/service/ProxyService.java:207-217 | `TE`, in the capitalisation clients send, is hop-by-hop |
| Headers.TrailersIsHopByHop | src/main/java/com/example/funnelproxy/service/ProxyService.java:207-217 | `Trailers`, in the capitalisation clients send, is hop-by-hop |
| Headers.TransferEncodingIsHopByHop | src/main/java/com/example/funnelproxy/service/ProxyService.java:207-217 | `Transfer-Encoding`, in the capitalisation clients send, is hop-by-hop |
| Headers.UpgradeIsHopByHop | src/main/java/com/example/funnelproxy/service/ProxyService.java:207-217 | `Upgrade`, in the capitalisation clients send, is hop-by-hop |
| Headers.HopSameName | src/main/java/com/example/funnelproxy/service/ProxyService.java:207-208 | the test ignores letter case: two spellings of one name are both hop-by-hop or neither |
| Headers.HostNotHopByHop | src/main/java/com/example/funnelproxy/service/ProxyService.java:207-217 | `Host` is not one of the eight hop-by-hop names |
| Headers.LocationNotHopByHop | src/main/java/com/example/funnelproxy/service/ProxyService.java:207-217 | `Location` is not one of the eight hop-by-hop names |
| Headers.Find | src/main/java/com/example/funnelproxy/service/ProxyService.java:129 | the case-insensitive lookup behind `addAll`: the entry found carries the name and no earlier one does; nothing is found exactly when no entry carries it |
| Headers.AddAll | src/main/java/com/example/funnelproxy/service/ProxyService.java:129 | every existing entry keeps its name and place, and at most one entry, spelt as the key, is added at the end |
| Headers.AddAllLookup | src/main/java/com/example/funnelproxy/service/ProxyService.java:129 | after `addAll` the key holds its old values followed by the new ones, every other name is looked up as before, and no name is doubled |
| Headers.GetFirst | src/main/java/com/example/funnelproxy/service/ProxyService.java:31 | `getFirst`: when the first entry carrying the name has a value, its first value is returned; a value returned is always that one; with no entry carrying the name nothing is returned |
| Headers.Set | src/main/java/com/example/funnelproxy/service/ProxyService.java:133-137 | `set` leaves an entry spelt as the key with exactly the new value; the length is unchanged exactly when the name was present, and grows by one otherwise |
| Headers.SetLookup | src/main/java/com/example/funnelproxy/service/ProxyService.java:133-137 | after `set` every other name is looked up as before; with one entry per name, the key then holds exactly the new value and no name is doubled; no hop-by-hop entry appears unless the key is one |
| Headers.CopyHeaders | src/main/java/com/example/funnelproxy/service/ProxyService.java:124-131 | every entry of the target keeps its place and its name, and at most one entry per source entry is added |
| Headers.CopyHeadersWellFormed | src/main/java/com/example/funnelproxy/service/ProxyService.java:124-131 | the copy adds no second entry for a name and no hop-by-hop entry |
| Headers.CopyHeadersGet | src/main/java/com/example/funnelproxy/service/ProxyService.java:124-131 | a hop-by-hop name gets nothing new; any other name gets what the target held followed by every value the source holds under it, in order |
| Headers.CollectRelocated | src/main/java/com/example/funnelproxy/service/ProxyService.java:150-164 | on the response side a lookup sees the backend's values with every `Location` value rewritten for the prefix |
| Headers.CopyHeadersIdentity | src/main/java/com/example/funnelproxy/service/ProxyService.java:124-131 | headers with one entry per name and no hop-by-hop entry are copied exactly as they are |
| Headers.TransferHeaders | src/main/java/com/example/funnelproxy/service/ProxyService.java:126-131 | the `forEach` loop builds exactly the specified copy |
| Forwarding.RefererOf | src/main/java/com/example/funnelproxy/service/ProxyService.java:31 | the Referer is the first value of the first entry named `Referer` in any letter case, whenever that entry has a value; any Referer returned is that one; without such an entry there is none |
| Forwarding.OverrideHost | src/main/java/com/example/funnelproxy/service/ProxyService.java:133-137 | with no override or an empty one the headers are unchanged; with one, `Host` holds only the override and every other name is unchanged |
| Forwarding.Forwarded | src/main/java/com/example/funnelproxy/service/ProxyService.java:115-140 | the backend request keeps the client's method, and its URL starts with the route's target URL |
| Forwarding.Decide | src/main/java/com/example/funnelproxy/service/ProxyService.java:86-94 | 404 exactly when resolution selects nothing; otherwise the backend request built for the entry selected |
| Forwarding.ForwardedHeaders | src/main/java/com/example/funnelproxy/service/ProxyService.java:124-137 | the forwarded `Host` is the override when there is one; a hop-by-hop name is absent; every other name carries exactly the client's values, in order |
| Forwarding.ForwardedWellFormed | src/main/java/com/example/funnelproxy/service/ProxyService.java:124-137 | forwarded headers hold one entry per name and no hop-by-hop entry |
| Forwarding.ForwardedKeepsCleanHeaders | src/main/java/com/example/funnelproxy/service/ProxyService.java:124-137 | clean client headers on a route without an override are forwarded unchanged |
| Forwarding.ProxyRequest | src/main/java/com/example/funnelproxy/service/ProxyService.java:98-137 | the method's reassigned path, URL and header map produce exactly the specified backend request |
| Forwarding.Proxy | src/main/java/com/example/funnelproxy/service/ProxyService.java:29-96 | with no entry: status 404, response completed, no body written (the body is left as it was) and no backend request; otherwise the backend request for the entry selected, the response untouched |
| Forwarding.RewriteContent | src/main/java/com/example/funnelproxy/service/ProxyService.java:257-296 | the literal substitutions after the regular-expression stage never shrink its output, and leave it unchanged for a prefix containing neither "immich" nor "ha" |
| Forwarding.Relay | src/main/java/com/example/funnelproxy/service/ProxyService.java:147-180 | status copied; backend headers copied with `Location` rewritten; a rewritten body exactly when the gate allows it, the body passed through otherwise |
| Forwarding.RelayedHeaders | src/main/java/com/example/funnelproxy/service/ProxyService.java:150-164 | each relayed name keeps what the response held and gets the backend's values appended, with `Location` values rewritten; hop-by-hop names get nothing |
| Forwarding.HabForwardedUnstripped | src/main/java/com/example/funnelproxy/service/ProxyService.java:101-113 | `/hab/x`, taken by `/ha`, is forwarded with its path unstripped |
| Forwarding.RefererExample | src/main/java/com/example/funnelproxy/service/ProxyService.java:29-57 | `/manifest.json` with `Referer: https://host/ha/dashboard` and one `/ha` entry is sent to that entry by the Referer stage |
| Forwarding.PiholeRequest | src/main/java/com/example/funnelproxy/service/ProxyService.java:98-119 | `/pihole/admin/index.php?tab=1` is sent to `http://pihole:80/admin/index.php?tab=1` |
| Forwarding.PiholeRedirect | src/main/java/com/example/funnelproxy/service/ProxyService.java:150-164 | the backend's redirect to `/admin/` reaches the client as `/pihole/admin/` |
| Forwarding.UnknownPathNotFound | src/main/java/com/example/funnelproxy/service/ProxyService.java:86-92 | a path no stage claims is answered with 404 |
| WebSocket.Reserved | src/main/java/com/example/funnelproxy/websocket/WebSocketProxyHandler.java:30-34 | every reserved path starts with `/` |
| WebSocket.WsScheme | src/main/java/com/example/funnelproxy/websocket/WebSocketProxyHandler.java:59 | the scheme rewrite never lengthens the address, and leaves an address without `http://` and `https://` unchanged |
| WebSocket.WsUrl | src/main/java/com/example/funnelproxy/websocket/WebSocketProxyHandler.java:58-59 | the upgrade address ends with the new path and is at most base + path long; a base without `http://` and `https://` is kept as it is |
| WebSocket.FirstMatch | src/main/java/com/example/funnelproxy/websocket/WebSocketProxyHandler.java:36-43 | the entry taken is the first in registry order whose prefix the path starts with; nothing exactly when none does |
| WebSocket.StripLeading | src/main/java/com/example/funnelproxy/websocket/WebSocketProxyHandler.java:53 | one leading occurrence of the prefix is removed; a path without it is unchanged |
| WebSocket.WsPath | src/main/java/com/example/funnelproxy/websocket/WebSocketProxyHandler.java:52-56 | the result always starts with `/`; prefix + result is the path when the remainder starts with `/`, otherwise a `/` was put in front of it |
| WebSocket.Handle | src/main/java/com/example/funnelproxy/websocket/WebSocketProxyHandler.java:25-59 | reserved paths are closed; otherwise closed exactly when no prefix matches, and else connected to the first match's `ws` URL and path |
| WebSocket.ReservedIgnoresRegistry | src/main/java/com/example/funnelproxy/websocket/WebSocketProxyHandler.java:30-34 | `/admin*`, `/health`, `/status` and `/` are closed whatever the registry holds |
| WebSocket.FirstVersusLongest | src/main/java/com/example/funnelproxy/websocket/WebSocketProxyHandler.java:36-43 | the first match exists exactly when the longest match does and never comes after it; the two agree exactly when no matching entry is longer than the first |
| WebSocket.NestedPrefixesDisagree | src/main/java/com/example/funnelproxy/websocket/WebSocketProxyHandler.java:36-43 | with `/ha` listed before `/ha/sub`, `/ha/sub/x` goes to `/ha` over WebSocket and to `/ha/sub` over HTTP |
| WebSocket.WsPathAgreesWithHttp | src/main/java/com/example/funnelproxy/websocket/WebSocketProxyHandler.java:52-56 | on the prefix itself and on paths under `prefix + "/"` both protocols forward the same path |
| WebSocket.WsPathWithoutBoundary | src/main/java/com/example/funnelproxy/websocket/WebSocketProxyHandler.java:52-56 | `/hab` under `/ha` becomes `/b` over WebSocket and stays `/hab` over HTTP |
| WebSocket.WsSchemeHttp | src/main/java/com/example/funnelproxy/websocket/WebSocketProxyHandler.java:59 | an `http://` base becomes `ws://`, the rest untouched |
| WebSocket.WsSchemeHttps | src/main/java/com/example/funnelproxy/websocket/WebSocketProxyHandler.java:59 | an `https://` base becomes `wss://`, the rest untouched |
| Controller.Handle | src/main/java/com/example/funnelproxy/controller/ProxyController.java:22-32 | paths starting with `/admin` get 404; every other request gets exactly the proxy's decision |
| Controller.AdminDecidedByPath | src/main/java/com/example/funnelproxy/controller/ProxyController.java:23-29 | under `/admin` the answer depends on the path alone, not on the registry or the rest of the request |
| Controller.AdminGuardShadowsRoutes | src/main/java/com/example/funnelproxy/controller/ProxyController.java:25-31 | a route registered under `/admin` would be selected by the proxy, yet the answer is 404 |
| Controller.AdminGuardHasNoBoundary | src/main/java/com/example/funnelproxy/controller/ProxyController.java:26 | `/adminfoo` is refused too |
| Admin.NormalizePrefix | src/main/java/com/example/funnelproxy/controller/AdminController.java:43-46 | the result starts with `/`; a prefix starting with `/` is unchanged; any other prefix, the empty one included, becomes `"/" + prefix` |
| Admin.NormalizeIdempotent | src/main/java/com/example/funnelproxy/controller/AdminController.java:43-46 | normalising twice is normalising once |
| Admin.ServiceMappingEntity.constructor | src/main/java/com/example/funnelproxy/model/ServiceMapping.java:9-14 | the bound entity holds exactly the given field values |
| Admin.AddService | src/main/java/com/example/funnelproxy/controller/AdminController.java:41-48 | only the prefix is changed, to its normalised form, and the saved row is the entity's new state |
| Admin.UpdateService | src/main/java/com/example/funnelproxy/controller/AdminController.java:50-58 | the id becomes the path's id, the prefix is normalised, every other field is unchanged, and the saved row is the entity's new state |
| Admin.SaveKeepsRooted | src/main/java/com/example/funnelproxy/controller/AdminController.java:41-58 | adding or replacing an entry with a normalised prefix keeps every stored prefix starting with `/` |
| Admin.RootedNeedsRootedPath | src/main/java/com/example/funnelproxy/service/ProxyService.java:41 | with every prefix starting with `/`, a path that does not start with `/` has no exact match |

## Left out

- Network I/O is not modelled: the `WebClient` exchange, body streaming, buffer accumulation and UTF-8 decoding and encoding. The backend's answer is a parameter (`Forwarding.BackendResponse`), and a body is a string.
- The 502 path on transport errors is not modelled. It branches on exception messages only to choose a log hint.
- The regular-expression rewrites of `src`/`href`, `fetch`/`import`, `url()`, module imports and dynamic imports are not modelled. `Forwarding.Relay` takes them as the parameter `regexStage`, because modelling them faithfully needs Java's regex semantics (lazy quantifiers, groups, `replaceAll` scanning). For the same reason no "never prefixes twice" property is claimed for them.
- Regex metacharacters are not modelled. The quote substitutions and the WebSocket `replaceFirst("^" + prefix, "")` treat the prefix as literal text. A prefix holding a regex metacharacter, or `$` or `\` in a replacement string, is not modelled.
- The WebSocket frame relay and the `URI.create` failure path are not modelled. They are concurrency and transport.
- The admin dashboard HTML, the read and delete endpoints, the repository calls, id generation, table creation and sample data are not modelled. Only the `UNIQUE` prefix constraint is kept, as `Registry.DistinctPrefixes`.
- Logging, the request-logging filter, the web and WebSocket configuration and the health controller are not modelled.
- `null` fields and the exceptions they would raise are not modelled. An absent `Referer`, query, host override, content type or length is an `Option`.
- Case folding covers ASCII letters only. Java's `toLowerCase` and `equalsIgnoreCase` also fold other scripts.
- Framework parsing is done outside the model. The content type arrives parsed (`Rewrite.MediaType`, both parts lower-cased), and the content length arrives as a number.
- The query string: `URI.getQuery()` returns the query already percent-decoded, and `ProxyService.java:117-118` appends it to the target URL as it is, so an escaped `&`, `=`, `+` or `#` reaches the backend unescaped. The model takes the query as a given string and does not model the decoding.
- The WebSocket path is read with `getHandshakeInfo().getUri().getPath()`, which percent-decodes it; the HTTP path is the raw `getPath().value()`. Both are strings given to the model, and the decoding is not modelled, so a percent-encoded prefix can route differently over the two protocols.
- WebSocket.WsSchemeHttp: stated only for a base whose remainder contains no further `http://` or `https://`. A remainder that does contain one is also rewritten by Java's `replace`, and that case is not covered.
- WebSocket.WsSchemeHttps: the same restriction as `WsSchemeHttp`.
- Rewrite.RewriteApiPathsIdempotent: proved only for prefixes satisfying `Rewrite.SafePrefix`. A safe prefix has no quote, and nothing a substitution inserts after a quote can start `/api/`, `/auth/` or `/hacsfiles/`. Other prefixes are not covered.
- Rewrite.TargetUrlRoundTrip: requires that neither the base nor the new path contains `?`. Otherwise the query cannot be recovered from the URL at all.
