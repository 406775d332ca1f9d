/**
 * The request and response rewriting rules of the HTTP proxy: the path
 * sent to the backend, the target URL, redirect (`Location`) repair, the
 * gate that decides whether a response body is rewritten, and the literal
 * quote-plus-path substitutions applied to rewritten bodies.
 */
module Rewrite {
  import opened Wrappers
  import opened Strings

  // ---------------------------------------------------------------------
  // Path and target URL
  // ---------------------------------------------------------------------

  /**
   * The path forwarded to the backend. The prefix is stripped only when the
   * path is the prefix itself or continues it with a `/`; a path that was
   * routed some other way (or that merely shares leading characters with
   * the prefix) is forwarded as it is.
   */
  function RewritePath(path: string, prefix: string): (r: string)
    ensures path == prefix ==> r == "/"
    ensures StartsWith(path, prefix + "/") ==> StartsWith(r, "/") && prefix + r == path
    ensures path != prefix && !StartsWith(path, prefix + "/") ==> r == path
  {
    if StartsWith(path, prefix + "/") || path == prefix then
      var rest := path[|prefix|..];
      assert prefix + rest == path by {
        assert path[..|prefix|] == (prefix + "/")[..|prefix|] || path == prefix;
      }
      if rest == [] || !StartsWith(rest, "/") then "/" + rest else rest
    else
      path
  }

  /** The backend URL: base, rewritten path, and `?query` when a query is present. */
  function TargetUrl(base: string, newPath: string, query: Option<string>): (r: string)
    ensures StartsWith(r, base + newPath)
    ensures query.None? <==> r == base + newPath
    ensures query.Some? ==> r[|base + newPath|] == '?' && r[|base + newPath| + 1..] == query.value
  {
    match query
    case Some(q) => base + newPath + "?" + q
    case None => base + newPath
  }

  /** A URL split at its first `?` into address and query. */
  function SplitQuery(url: string): (r: (string, Option<string>))
    ensures r.0 + (if r.1.Some? then "?" + r.1.value else "") == url
    ensures '?' !in r.0
  {
    if url == [] then ("", None)
    else if url[0] == '?' then ("", Some(url[1..]))
    else
      var tail := SplitQuery(url[1..]);
      ([url[0]] + tail.0, tail.1)
  }

  /** Splitting an address that has no `?` followed by more text. */
  lemma {:induction false} SplitQueryAt(address: string, rest: string)
    requires '?' !in address
    ensures SplitQuery(address + rest) == (address + SplitQuery(rest).0, SplitQuery(rest).1)
  {
    if address == [] {
      assert address + rest == rest;
      assert address + SplitQuery(rest).0 == SplitQuery(rest).0;
    } else {
      assert address[0] != '?';
      assert (address + rest)[0] == address[0];
      assert (address + rest)[1..] == address[1..] + rest;
      SplitQueryAt(address[1..], rest);
      assert SplitQuery(address + rest) == ([address[0]] + SplitQuery(address[1..] + rest).0, SplitQuery(address[1..] + rest).1);
      assert [address[0]] + address[1..] == address;
      assert [address[0]] + (address[1..] + SplitQuery(rest).0) == address + SplitQuery(rest).0;
    }
  }

  /**
   * The target URL is exactly base + path, with the query recoverable at
   * the first `?`, whenever neither the base nor the path holds a `?`.
   */
  lemma TargetUrlRoundTrip(base: string, newPath: string, query: Option<string>)
    requires '?' !in base + newPath
    ensures SplitQuery(TargetUrl(base, newPath, query)) == (base + newPath, query)
  {
    match query
    case None =>
      SplitQueryAt(base + newPath, "");
      assert base + newPath + "" == base + newPath;
      assert SplitQuery("") == ("", None);
    case Some(q) =>
      SplitQueryAt(base + newPath, "?" + q);
      assert base + newPath + "?" + q == (base + newPath) + ("?" + q);
      assert ("?" + q)[0] == '?' && ("?" + q)[1..] == q;
      assert SplitQuery("?" + q) == ("", Some(q));
      assert base + newPath + "" == base + newPath;
  }

  // ---------------------------------------------------------------------
  // Location header
  // ---------------------------------------------------------------------

  /**
   * A root-relative redirect that does not already start with the prefix
   * gets the prefix prepended; every other value is left alone.
   */
  function RewriteLocation(location: string, prefix: string): (r: string)
    ensures StartsWith(location, "/") ==> StartsWith(r, prefix)
    ensures !StartsWith(location, "/") || StartsWith(location, prefix) ==> r == location
    ensures r == location || r == prefix + location
  {
    if StartsWith(location, "/") && !StartsWith(location, prefix) then prefix + location else location
  }

  /** Rewriting a redirect twice is rewriting it once. */
  lemma RewriteLocationIdempotent(location: string, prefix: string)
    ensures RewriteLocation(RewriteLocation(location, prefix), prefix) == RewriteLocation(location, prefix)
  {
  }

  /** Every value of a `Location` header, rewritten in order. */
  function RewriteLocations(values: seq<string>, prefix: string): (r: seq<string>)
    ensures |r| == |values|
    ensures forall i :: 0 <= i < |values| ==> r[i] == RewriteLocation(values[i], prefix)
  {
    seq(|values|, i requires 0 <= i < |values| => RewriteLocation(values[i], prefix))
  }

  /** Rewriting the values of two header lines is rewriting their concatenation. */
  lemma RewriteLocationsAppend(a: seq<string>, b: seq<string>, prefix: string)
    ensures RewriteLocations(a + b, prefix) == RewriteLocations(a, prefix) + RewriteLocations(b, prefix)
  {
    var l, r := RewriteLocations(a + b, prefix), RewriteLocations(a, prefix) + RewriteLocations(b, prefix);
    assert |l| == |r|;
    forall i | 0 <= i < |l| ensures l[i] == r[i] {
      if i < |a| {
        assert (a + b)[i] == a[i];
      } else {
        assert (a + b)[i] == b[i - |a|];
      }
    }
  }

  // ---------------------------------------------------------------------
  // The body-rewrite gate
  // ---------------------------------------------------------------------

  /** A parsed media type; the parser stores both parts lower-cased. */
  datatype MediaType = MediaType(mainType: string, subtype: string)

  const TextHtml := MediaType("text", "html")

  /** Bodies declared at this size or larger are never rewritten. */
  const MaxRewriteSize: int := 1024 * 1024

  /** The position of the last `c` in `s`, or -1. */
  function LastIndexOf(s: string, c: char): (r: int)
    ensures -1 <= r < |s|
    ensures r >= 0 ==> s[r] == c && forall k :: r < k < |s| ==> s[k] != c
    ensures r == -1 ==> forall k :: 0 <= k < |s| ==> s[k] != c
  {
    if s == [] then -1
    else if s[|s| - 1] == c then |s| - 1
    else LastIndexOf(s[..|s| - 1], c)
  }

  predicate IsWildcardSubtype(t: MediaType) {
    t.subtype == "*" || StartsWith(t.subtype, "*+")
  }

  /**
   * Whether media type `t` includes `other`: `*` includes everything, a
   * wildcard subtype includes every subtype of its type, and a
   * `*+suffix` subtype includes subtypes with that suffix.
   */
  function Includes(t: MediaType, other: MediaType): (r: bool)
    ensures t.mainType == "*" ==> r
    ensures t == other ==> r
    ensures t.mainType == other.mainType && t.subtype == "*" ==> r
    ensures r ==> t.mainType == "*" || t.mainType == other.mainType
    ensures t.mainType != "*" && !IsWildcardSubtype(t) ==> (r <==> t == other)
    ensures (t.mainType != "*" && t.mainType == other.mainType && t.subtype != other.subtype
             && StartsWith(t.subtype, "*+")) ==>
      (r <==> LastIndexOf(t.subtype, '+') == 1 && LastIndexOf(other.subtype, '+') != -1
              && other.subtype[LastIndexOf(other.subtype, '+') + 1..] == t.subtype[2..])
  {
    if t.mainType == "*" then true
    else if t.mainType != other.mainType then false
    else if t.subtype == other.subtype then true
    else if !IsWildcardSubtype(t) then false
    else
      var thisPlus := LastIndexOf(t.subtype, '+');
      assert StartsWith(t.subtype, "*+") ==> t.subtype[0] == '*' && t.subtype[1] == '+';
      assert thisPlus > 1 ==> |t.subtype[..thisPlus]| != |"*"|;
      if thisPlus == -1 then true
      else
        var otherPlus := LastIndexOf(other.subtype, '+');
        otherPlus != -1
        && t.subtype[thisPlus + 1..] == other.subtype[otherPlus + 1..]
        && t.subtype[..thisPlus] == "*"
  }

  /** The content type announces HTML. */
  function ShouldRewriteContent(contentType: Option<MediaType>): (r: bool)
    ensures r <==>
      (contentType.Some?
       && (contentType.value.mainType == "*"
           || (contentType.value.mainType == "text"
               && (contentType.value.subtype == "html" || contentType.value.subtype == "*"))))
  {
    if contentType.Some? then
      var t := contentType.value;
      assert LastIndexOf(TextHtml.subtype, '+') == -1;
      assert t.mainType == "text" && t.subtype != "html" && IsWildcardSubtype(t) && t.subtype != "*"
        ==> t.subtype[1] == '+' && LastIndexOf(t.subtype, '+') != -1;
      Includes(t, TextHtml)
    else
      false
  }

  /** The declared length, a missing one counted as 0, is below 1 MiB. */
  function IsSmallResponse(contentLength: Option<int>): (r: bool)
    ensures r <==> contentLength.None? || contentLength.value < 1048576
  {
    contentLength.GetOr(0) < MaxRewriteSize
  }

  /**
   * A body is rewritten only when it is announced as HTML and is small: the
   * main type is a wildcard, or it is "text" with subtype "html" or a
   * wildcard, and any declared length is below 1048576.
   */
  function ShouldRewriteBody(contentType: Option<MediaType>, contentLength: Option<int>): (r: bool)
    ensures r <==>
      (contentType.Some?
       && (contentType.value.mainType == "*"
           || (contentType.value.mainType == "text"
               && (contentType.value.subtype == "html" || contentType.value.subtype == "*")))
       && (contentLength.None? || contentLength.value < 1048576))
  {
    ShouldRewriteContent(contentType) && IsSmallResponse(contentLength)
  }

  // ---------------------------------------------------------------------
  // Literal substitutions in rewritten bodies
  // ---------------------------------------------------------------------

  predicate IsQuote(c: char) {
    c == '\'' || c == '"'
  }

  predicate QuoteFree(s: string) {
    forall k :: 0 <= k < |s| ==> !IsQuote(s[k])
  }

  /** A quote at position `i` of `s` followed directly by `w`. */
  predicate QuotedAt(s: string, i: int, w: string) {
    0 <= i < |s| && IsQuote(s[i]) && StartsWith(s[i + 1..], w)
  }

  /** `s` holds `w` directly after a quote somewhere. */
  predicate Quoted(s: string, w: string) {
    exists i :: 0 <= i < |s| && QuotedAt(s, i, w)
  }

  /** `a` and `b` differ at a position both have. */
  predicate Diverge(a: string, b: string) {
    exists k :: 0 <= k < |a| && k < |b| && a[k] != b[k]
  }

  /**
   * Replacing every quote followed by `path` with the quote, the prefix and
   * `path`, scanning left to right without overlap; this is what a
   * `replaceAll` of the pattern `(['"])` + path with `$1` + prefix + path
   * computes.
   */
  function QuoteSub(s: string, path: string, prefix: string): (r: string)
    ensures |s| <= |r|
    ensures prefix == [] ==> r == s
    decreases |s|
  {
    if |s| < |path| + 1 then s
    else if IsQuote(s[0]) && s[1..|path| + 1] == path then
      assert s == [s[0]] + path + s[|path| + 1..];
      [s[0]] + prefix + path + QuoteSub(s[|path| + 1..], path, prefix)
    else
      [s[0]] + QuoteSub(s[1..], path, prefix)
  }

  /** A text without quoted `path` is left as it is. */
  lemma {:induction false} QuoteSubAbsent(s: string, path: string, prefix: string)
    requires !Quoted(s, path)
    ensures QuoteSub(s, path, prefix) == s
    decreases |s|
  {
    if |s| >= |path| + 1 {
      assert !QuotedAt(s, 0, path);
      assert s[1..][..|path|] == s[1..|path| + 1];
      forall i | 0 <= i < |s[1..]|
        ensures !QuotedAt(s[1..], i, path)
      {
        assert !QuotedAt(s, i + 1, path);
        assert s[1..][i + 1..] == s[i + 2..];
      }
      QuoteSubAbsent(s[1..], path, prefix);
    }
  }

  /** A quoted `path` at the front is prefixed, and the scan resumes after it. */
  lemma QuoteSubLead(q: char, path: string, rest: string, prefix: string)
    requires IsQuote(q)
    ensures QuoteSub([q] + path + rest, path, prefix) == [q] + prefix + path + QuoteSub(rest, path, prefix)
  {
    var s := [q] + path + rest;
    assert s[1..|path| + 1] == path;
    assert s[|path| + 1..] == rest;
  }

  /**
   * The substitution never makes a text start with a quote-free word it
   * did not start with.
   */
  lemma {:induction false} QuoteSubKeepsStart(t: string, w: string, path: string, prefix: string)
    requires QuoteFree(w)
    requires !StartsWith(t, w)
    ensures !StartsWith(QuoteSub(t, path, prefix), w)
    decreases |t|
  {
    var out := QuoteSub(t, path, prefix);
    if |t| >= |path| + 1 {
      assert |w| > 0 by { assert t[..0] == []; }
      if IsQuote(t[0]) && t[1..|path| + 1] == path {
        assert out[0] == t[0];
        assert !IsQuote(w[0]);
      } else if t[0] == w[0] {
        assert !StartsWith(t[1..], w[1..]) by {
          if |w| <= |t| {
            assert t[..|w|] == [t[0]] + t[1..][..|w| - 1];
            assert w == [w[0]] + w[1..];
          }
        }
        assert QuoteFree(w[1..]) by {
          forall k | 0 <= k < |w[1..]| ensures !IsQuote(w[1..][k]) {
            assert w[1..][k] == w[k + 1];
          }
        }
        QuoteSubKeepsStart(t[1..], w[1..], path, prefix);
        var tail := QuoteSub(t[1..], path, prefix);
        assert out == [t[0]] + tail;
        assert out[1..] == tail;
        if |w| <= |out| {
          assert out[..|w|] == [out[0]] + tail[..|w| - 1];
          assert w == [w[0]] + w[1..];
        }
      } else {
        assert out[0] == t[0];
      }
    }
  }

  /**
   * After substituting `path`, no quoted `w` remains, provided the
   * substitution inserts no quote, what it inserts after a quote cannot
   * start `w`, and every quoted `w` of the input was a quoted `path`.
   */
  lemma {:induction false} QuoteSubLeavesNone(s: string, path: string, w: string, prefix: string)
    requires QuoteFree(prefix) && QuoteFree(path) && QuoteFree(w)
    requires Diverge(prefix + path, w)
    requires w == path || !Quoted(s, w)
    ensures !Quoted(QuoteSub(s, path, prefix), w)
    decreases |s|
  {
    if |s| < |path| + 1 {
      if w == path {
        ShortNotQuoted(s, w);
      }
    } else if IsQuote(s[0]) && s[1..|path| + 1] == path {
      if w != path {
        NotQuotedDrop(s, |path| + 1, w);
      }
      QuoteSubLeavesNone(s[|path| + 1..], path, w, prefix);
      LeavesNoneAtMatch(s, path, w, prefix);
    } else {
      if w != path {
        NotQuotedDrop(s, 1, w);
      }
      QuoteSubLeavesNone(s[1..], path, w, prefix);
      LeavesNoneAtSkip(s, path, w, prefix);
    }
  }

  /** The step of `QuoteSubLeavesNone` at a quoted `path`. */
  lemma {:induction false} LeavesNoneAtMatch(s: string, path: string, w: string, prefix: string)
    requires QuoteFree(prefix) && QuoteFree(path) && QuoteFree(w)
    requires Diverge(prefix + path, w)
    requires |s| >= |path| + 1 && IsQuote(s[0]) && s[1..|path| + 1] == path
    requires !Quoted(QuoteSub(s[|path| + 1..], path, prefix), w)
    ensures !Quoted(QuoteSub(s, path, prefix), w)
  {
    var ins := prefix + path;
    QuoteFreeConcat(prefix, path);
    var tail := QuoteSub(s[|path| + 1..], path, prefix);
    assert QuoteSub(s, path, prefix) == [s[0]] + prefix + path + tail;
    assert [s[0]] + prefix + path + tail == [s[0]] + (ins + tail);
    NotQuotedAfterQuoteFree(ins, tail, w);
    DivergeNotStarts(ins, tail, w);
    NotQuotedCons(s[0], ins + tail, w);
  }

  /** The step of `QuoteSubLeavesNone` at any other character. */
  lemma {:induction false} LeavesNoneAtSkip(s: string, path: string, w: string, prefix: string)
    requires QuoteFree(prefix) && QuoteFree(path) && QuoteFree(w)
    requires Diverge(prefix + path, w)
    requires w == path || !Quoted(s, w)
    requires |s| >= |path| + 1 && !(IsQuote(s[0]) && s[1..|path| + 1] == path)
    requires !Quoted(QuoteSub(s[1..], path, prefix), w)
    ensures !Quoted(QuoteSub(s, path, prefix), w)
  {
    var tail := QuoteSub(s[1..], path, prefix);
    if IsQuote(s[0]) {
      assert !StartsWith(s[1..], w) by {
        if w == path {
          assert s[1..][..|path|] == s[1..|path| + 1];
        } else {
          assert !QuotedAt(s, 0, w);
        }
      }
      QuoteSubKeepsStart(s[1..], w, path, prefix);
    }
    NotQuotedCons(s[0], tail, w);
  }

  lemma ShortNotQuoted(s: string, w: string)
    requires |s| < |w| + 1
    ensures !Quoted(s, w)
  {
    forall i | 0 <= i < |s| ensures !QuotedAt(s, i, w) {
      assert |s[i + 1..]| < |w|;
    }
  }

  lemma QuoteFreeConcat(a: string, b: string)
    requires QuoteFree(a) && QuoteFree(b)
    ensures QuoteFree(a + b)
  {
    forall k | 0 <= k < |a + b| ensures !IsQuote((a + b)[k]) {
      if k < |a| { assert (a + b)[k] == a[k]; } else { assert (a + b)[k] == b[k - |a|]; }
    }
  }

  /** Dropping a front part of a text leaves no quoted `w` it did not have. */
  lemma NotQuotedDrop(s: string, d: nat, w: string)
    requires d <= |s| && !Quoted(s, w)
    ensures !Quoted(s[d..], w)
  {
    forall i | 0 <= i < |s[d..]| ensures !QuotedAt(s[d..], i, w) {
      assert !QuotedAt(s, i + d, w);
      assert s[d..][i + 1..] == s[i + d + 1..];
    }
  }

  /** One character in front adds a quoted `w` only if it is a quote and `w` follows. */
  lemma NotQuotedCons(c: char, t: string, w: string)
    requires !Quoted(t, w)
    requires IsQuote(c) ==> !StartsWith(t, w)
    ensures !Quoted([c] + t, w)
  {
    var out := [c] + t;
    forall i | 0 <= i < |out| ensures !QuotedAt(out, i, w) {
      if i == 0 {
        assert out[1..] == t;
      } else {
        assert out[i] == t[i - 1];
        assert out[i + 1..] == t[i..];
        assert !QuotedAt(t, i - 1, w);
      }
    }
  }

  /** A quote-free front part adds no quoted `w`. */
  lemma NotQuotedAfterQuoteFree(a: string, t: string, w: string)
    requires QuoteFree(a) && !Quoted(t, w)
    ensures !Quoted(a + t, w)
  {
    var out := a + t;
    forall i | 0 <= i < |out| ensures !QuotedAt(out, i, w) {
      if i < |a| {
        assert out[i] == a[i];
      } else {
        assert out[i] == t[i - |a|];
        assert out[i + 1..] == t[i - |a| + 1..];
        assert !QuotedAt(t, i - |a|, w);
      }
    }
  }

  lemma DivergeNotStarts(a: string, t: string, w: string)
    requires Diverge(a, w)
    ensures !StartsWith(a + t, w)
  {
    var k :| 0 <= k < |a| && k < |w| && a[k] != w[k];
    assert (a + t)[k] == a[k];
  }

  /** The substitution is idempotent under the conditions above. */
  lemma QuoteSubIdempotent(s: string, path: string, prefix: string)
    requires QuoteFree(prefix) && QuoteFree(path)
    requires Diverge(prefix + path, path)
    ensures QuoteSub(QuoteSub(s, path, prefix), path, prefix) == QuoteSub(s, path, prefix)
  {
    QuoteSubLeavesNone(s, path, path, prefix);
    QuoteSubAbsent(QuoteSub(s, path, prefix), path, prefix);
  }

  /**
   * The backend-specific substitutions: Immich API calls when the prefix
   * mentions "immich", Home Assistant auth and HACS paths when it
   * mentions "ha".
   */
  function RewriteApiPaths(content: string, prefix: string): (r: string)
    ensures |content| <= |r|
    ensures !Contains(prefix, "immich") && !Contains(prefix, "ha") ==> r == content
  {
    var afterApi := if Contains(prefix, "immich") then QuoteSub(content, "/api/", prefix) else content;
    if Contains(prefix, "ha") then
      QuoteSub(QuoteSub(afterApi, "/auth/", prefix), "/hacsfiles/", prefix)
    else
      afterApi
  }

  /** The substitutions applied one after another to the body text. */
  method ApplyApiSubstitutions(content: string, prefix: string) returns (rewritten: string)
    ensures rewritten == RewriteApiPaths(content, prefix)
  {
    rewritten := content;
    if Contains(prefix, "immich") {
      rewritten := QuoteSub(rewritten, "/api/", prefix);
    }
    if Contains(prefix, "ha") {
      rewritten := QuoteSub(rewritten, "/auth/", prefix);
      rewritten := QuoteSub(rewritten, "/hacsfiles/", prefix);
    }
  }

  /**
   * A prefix for which the substitutions cannot feed each other: it holds
   * no quote, and what a substitution inserts after a quote never starts
   * one of the substituted paths.
   */
  predicate SafePrefix(prefix: string) {
    && QuoteFree(prefix)
    && Diverge(prefix + "/api/", "/api/")
    && Diverge(prefix + "/auth/", "/api/")
    && Diverge(prefix + "/auth/", "/auth/")
    && Diverge(prefix + "/hacsfiles/", "/api/")
    && Diverge(prefix + "/hacsfiles/", "/auth/")
    && Diverge(prefix + "/hacsfiles/", "/hacsfiles/")
  }

  /** The three substituted paths hold no quote. */
  lemma ApiPathsQuoteFree()
    ensures QuoteFree("/api/") && QuoteFree("/auth/") && QuoteFree("/hacsfiles/")
  {
  }

  /** After the substitutions, no quoted path they target is left. */
  lemma RewriteApiPathsLeavesNone(content: string, prefix: string)
    requires SafePrefix(prefix)
    ensures Contains(prefix, "immich") ==> !Quoted(RewriteApiPaths(content, prefix), "/api/")
    ensures Contains(prefix, "ha") ==>
      !Quoted(RewriteApiPaths(content, prefix), "/auth/") && !Quoted(RewriteApiPaths(content, prefix), "/hacsfiles/")
  {
    ApiPathsQuoteFree();
    var afterApi := if Contains(prefix, "immich") then QuoteSub(content, "/api/", prefix) else content;
    if Contains(prefix, "immich") {
      QuoteSubLeavesNone(content, "/api/", "/api/", prefix);
    }
    if Contains(prefix, "ha") {
      var afterAuth := QuoteSub(afterApi, "/auth/", prefix);
      QuoteSubLeavesNone(afterApi, "/auth/", "/auth/", prefix);
      QuoteSubLeavesNone(afterAuth, "/hacsfiles/", "/hacsfiles/", prefix);
      QuoteSubLeavesNone(afterAuth, "/hacsfiles/", "/auth/", prefix);
      if Contains(prefix, "immich") {
        QuoteSubLeavesNone(afterApi, "/auth/", "/api/", prefix);
        QuoteSubLeavesNone(afterAuth, "/hacsfiles/", "/api/", prefix);
      }
    }
  }

  /**
   * Rewriting an already rewritten body again changes nothing: these
   * substitutions never prepend the prefix twice.
   */
  lemma RewriteApiPathsIdempotent(content: string, prefix: string)
    requires SafePrefix(prefix)
    ensures RewriteApiPaths(RewriteApiPaths(content, prefix), prefix) == RewriteApiPaths(content, prefix)
  {
    var once := RewriteApiPaths(content, prefix);
    RewriteApiPathsLeavesNone(content, prefix);
    if Contains(prefix, "immich") {
      QuoteSubAbsent(once, "/api/", prefix);
    }
    if Contains(prefix, "ha") {
      QuoteSubAbsent(once, "/auth/", prefix);
      QuoteSubAbsent(once, "/hacsfiles/", prefix);
    }
  }
}
