/**
 * HTTP header maps as the proxy builds them: an ordered list of
 * (name, values) entries with at most one entry per case-insensitive name,
 * the way a case-insensitive multi-value header map keeps them. Copying
 * skips the hop-by-hop headers; on the response side `Location` values
 * are repaired for the route's prefix.
 */
module Headers {
  import opened Wrappers
  import opened Strings
  import opened Seqs
  import opened Rewrite

  type Header = (string, seq<string>)
  type HeaderList = seq<Header>

  /** Header names compare case-insensitively. */
  predicate SameName(a: string, b: string) {
    EqualsIgnoreCase(a, b)
  }

  /** The eight hop-by-hop headers, compared case-insensitively. */
  function IsHopByHop(name: string): (r: bool)
    ensures r ==> 2 <= |name| <= 19
  {
    var n := Lower(name);
    || n == "connection"
    || n == "keep-alive"
    || n == "proxy-authenticate"
    || n == "proxy-authorization"
    || n == "te"
    || n == "trailers"
    || n == "transfer-encoding"
    || n == "upgrade"
  }

  /** A string whose characters lower-case one by one to `t` lower-cases to `t`. */
  lemma LowerIs(s: string, t: string)
    requires |s| == |t| && forall i :: 0 <= i < |s| ==> LowerChar(s[i]) == t[i]
    ensures Lower(s) == t
  {
  }

  /** `Connection`, as clients spell it, is hop-by-hop. */
  lemma ConnectionIsHopByHop()
    ensures IsHopByHop("Connection")
  {
    LowerIs("Connection", "connection");
  }

  /** `Keep-Alive`, as clients spell it, is hop-by-hop. */
  lemma KeepAliveIsHopByHop()
    ensures IsHopByHop("Keep-Alive")
  {
    LowerIs("Keep-Alive", "keep-alive");
  }

  /** `Proxy-Authenticate`, as clients spell it, is hop-by-hop. */
  lemma ProxyAuthenticateIsHopByHop()
    ensures IsHopByHop("Proxy-Authenticate")
  {
    LowerIs("Proxy-Authenticate", "proxy-authenticate");
  }

  /** `Proxy-Authorization`, as clients spell it, is hop-by-hop. */
  lemma ProxyAuthorizationIsHopByHop()
    ensures IsHopByHop("Proxy-Authorization")
  {
    LowerIs("Proxy-Authorization", "proxy-authorization");
  }

  /** `TE`, as clients spell it, is hop-by-hop. */
  lemma TeIsHopByHop()
    ensures IsHopByHop("TE")
  {
    LowerIs("TE", "te");
  }

  /** `Trailers`, as clients spell it, is hop-by-hop. */
  lemma TrailersIsHopByHop()
    ensures IsHopByHop("Trailers")
  {
    LowerIs("Trailers", "trailers");
  }

  /** `Transfer-Encoding`, as clients spell it, is hop-by-hop. */
  lemma TransferEncodingIsHopByHop()
    ensures IsHopByHop("Transfer-Encoding")
  {
    LowerIs("Transfer-Encoding", "transfer-encoding");
  }

  /** `Upgrade`, as clients spell it, is hop-by-hop. */
  lemma UpgradeIsHopByHop()
    ensures IsHopByHop("Upgrade")
  {
    LowerIs("Upgrade", "upgrade");
  }

  /** `Host` is an end-to-end header. */
  lemma HostNotHopByHop()
    ensures !IsHopByHop("Host")
  {
    assert Lower("Host") == "host";
  }

  /** `Location` is an end-to-end header. */
  lemma LocationNotHopByHop()
    ensures !IsHopByHop("Location")
  {
    assert Lower("Location") == "location";
  }

  predicate DistinctNames(h: HeaderList) {
    forall i, j :: 0 <= i < j < |h| ==> !SameName(h[i].0, h[j].0)
  }

  predicate NoHopByHop(h: HeaderList) {
    forall i :: 0 <= i < |h| ==> !IsHopByHop(h[i].0)
  }

  /** The position of the entry for `name`. */
  function Find(h: HeaderList, name: string): (r: Option<nat>)
    ensures r.Some? ==> r.value < |h| && SameName(h[r.value].0, name)
    ensures r.Some? ==> forall j :: 0 <= j < r.value ==> !SameName(h[j].0, name)
    ensures r.None? <==> forall j :: 0 <= j < |h| ==> !SameName(h[j].0, name)
  {
    FindFirst(h, (e: Header) => SameName(e.0, name))
  }

  /** The values stored under `name`, looked up case-insensitively. */
  function Get(h: HeaderList, name: string): Option<seq<string>> {
    match Find(h, name)
    case Some(i) => Some(h[i].1)
    case None => None
  }

  /** The first value stored under `name`. */
  function GetFirst(h: HeaderList, name: string): (r: Option<string>)
    ensures r.Some? ==> exists i :: 0 <= i < |h| && SameName(h[i].0, name) && h[i].1 != [] && r.value == h[i].1[0]
    ensures (forall i :: 0 <= i < |h| ==> !SameName(h[i].0, name)) ==> r.None?
    ensures Find(h, name).Some? && h[Find(h, name).value].1 != [] ==> r == Some(h[Find(h, name).value].1[0])
    ensures r.Some? ==> Find(h, name).Some? && h[Find(h, name).value].1 != [] && r.value == h[Find(h, name).value].1[0]
  {
    match Get(h, name)
    case Some(values) => if |values| > 0 then Some(values[0]) else None
    case None => None
  }

  /** `Find` depends only on which entries carry the name. */
  lemma FindAgree(h: HeaderList, a: string, r: HeaderList, b: string)
    requires |h| <= |r|
    requires forall i :: 0 <= i < |h| ==> SameName(r[i].0, b) == SameName(h[i].0, a)
    requires forall i :: |h| <= i < |r| ==> !SameName(r[i].0, b)
    ensures Find(r, b) == Find(h, a)
  {
    match Find(h, a)
    case Some(i) =>
      assert SameName(r[i].0, b);
      var j := Find(r, b).value;
      assert j <= i;
      assert SameName(h[j].0, a);
    case None =>
      assert Find(r, b).None?;
  }

  /** The lookup of a name is the lookup of any spelling of it. */
  lemma GetSameName(h: HeaderList, a: string, b: string)
    requires SameName(a, b)
    ensures Get(h, a) == Get(h, b)
  {
    FindAgree(h, a, h, b);
  }

  /** Values joined from two sources, absent only when absent from both. */
  function Merge(a: Option<seq<string>>, b: Option<seq<string>>): (r: Option<seq<string>>)
    ensures r.None? <==> a.None? && b.None?
    ensures r.Some? ==> r.value == a.GetOr([]) + b.GetOr([])
  {
    if a.None? && b.None? then None else Some(a.GetOr([]) + b.GetOr([]))
  }

  /**
   * `addAll(key, values)`: the values are appended to the entry for `key`,
   * which keeps its spelling; a missing entry is added at the end.
   */
  function AddAll(h: HeaderList, key: string, values: seq<string>): (r: HeaderList)
    ensures |r| == |h| || (|r| == |h| + 1 && r[|h|].0 == key)
    ensures forall i :: 0 <= i < |h| ==> r[i].0 == h[i].0
  {
    match Find(h, key)
    case Some(i) => h[i := (h[i].0, h[i].1 + values)]
    case None => h + [(key, values)]
  }

  /**
   * After `addAll` the key holds its old values followed by the new ones,
   * every other name is looked up as before, and no name is doubled.
   */
  lemma AddAllLookup(h: HeaderList, key: string, values: seq<string>)
    ensures Get(AddAll(h, key, values), key) == Some(Get(h, key).GetOr([]) + values)
    ensures forall n :: !SameName(n, key) ==> Get(AddAll(h, key, values), n) == Get(h, n)
    ensures DistinctNames(h) ==> DistinctNames(AddAll(h, key, values))
  {
    match Find(h, key)
    case Some(i) => AddAllExisting(h, i, key, values);
    case None => AddAllAppended(h, key, values);
  }

  lemma AddAllExisting(h: HeaderList, i: nat, key: string, values: seq<string>)
    requires Find(h, key) == Some(i)
    ensures Get(h[i := (h[i].0, h[i].1 + values)], key) == Some(Get(h, key).GetOr([]) + values)
    ensures forall n :: !SameName(n, key) ==> Get(h[i := (h[i].0, h[i].1 + values)], n) == Get(h, n)
    ensures DistinctNames(h) ==> DistinctNames(h[i := (h[i].0, h[i].1 + values)])
  {
    var e := (h[i].0, h[i].1 + values);
    GetReplaced(h, i, e, key);
    forall n | !SameName(n, key) ensures Get(h[i := e], n) == Get(h, n) {
      GetReplaced(h, i, e, n);
    }
    ReplacedWellFormed(h, i, e);
  }

  /** Replacing an entry by one spelt the same changes only the values found at it. */
  lemma GetReplaced(h: HeaderList, i: nat, e: Header, n: string)
    requires i < |h| && e.0 == h[i].0
    ensures Get(h[i := e], n) == if Find(h, n) == Some(i) then Some(e.1) else Get(h, n)
  {
    assert forall k :: 0 <= k < |h| ==> h[i := e][k].0 == h[k].0;
    FindAgree(h, n, h[i := e], n);
  }

  lemma ReplacedWellFormed(h: HeaderList, i: nat, e: Header)
    requires i < |h| && e.0 == h[i].0
    ensures DistinctNames(h) ==> DistinctNames(h[i := e])
    ensures NoHopByHop(h) ==> NoHopByHop(h[i := e])
  {
    assert forall k :: 0 <= k < |h| ==> h[i := e][k].0 == h[k].0;
  }

  lemma AddAllAppended(h: HeaderList, key: string, values: seq<string>)
    requires Find(h, key).None?
    ensures Get(h + [(key, values)], key) == Some(Get(h, key).GetOr([]) + values)
    ensures forall n :: !SameName(n, key) ==> Get(h + [(key, values)], n) == Get(h, n)
    ensures DistinctNames(h) ==> DistinctNames(h + [(key, values)])
  {
    var e := (key, values);
    FindAppended(h, e, key);
    assert Get(h, key).GetOr([]) + values == values;
    forall n | !SameName(n, key) ensures Get(h + [e], n) == Get(h, n) {
      GetAppendedOther(h, e, n);
    }
    AppendedDistinct(h, e);
  }

  /** Appending an entry for another name does not change a lookup. */
  lemma GetAppendedOther(h: HeaderList, e: Header, n: string)
    requires !SameName(e.0, n)
    ensures Get(h + [e], n) == Get(h, n)
  {
    GetConcat(h, [e], n);
    assert Find([e], n).None?;
  }

  lemma AppendedDistinct(h: HeaderList, e: Header)
    requires Find(h, e.0).None?
    ensures DistinctNames(h) ==> DistinctNames(h + [e])
  {
    var r := h + [e];
    assert forall k :: 0 <= k < |h| ==> r[k] == h[k];
    assert r[|h|] == e;
  }

  /** Removing an entry for another name does not change a lookup. */
  lemma GetRemove(h: HeaderList, i: nat, n: string)
    requires i < |h| && !SameName(h[i].0, n)
    ensures Get(h[..i] + h[i + 1..], n) == Get(h, n)
  {
    var front, rest := h[..i], h[i + 1..];
    assert h == front + ([h[i]] + rest);
    GetConcat(front, [h[i]] + rest, n);
    GetConcat([h[i]], rest, n);
    GetConcat(front, rest, n);
  }

  /** A lookup in two lists joined is the lookup in the first one, failing that in the second. */
  lemma GetConcat(a: HeaderList, b: HeaderList, n: string)
    ensures Get(a + b, n) == if Find(a, n).Some? then Get(a, n) else Get(b, n)
  {
    var r := a + b;
    assert forall j :: 0 <= j < |a| ==> r[j] == a[j];
    assert forall j :: |a| <= j < |r| ==> r[j] == b[j - |a|];
    match Find(a, n)
    case Some(k) =>
      FindIs(r, n, k);
    case None =>
      match Find(b, n)
      case Some(k) =>
        FindIs(r, n, |a| + k);
      case None =>
        assert forall j :: 0 <= j < |r| ==> !SameName(r[j].0, n);
  }

  /** The first entry carrying the name is the one found. */
  lemma FindIs(h: HeaderList, n: string, k: nat)
    requires k < |h| && SameName(h[k].0, n)
    requires forall j :: 0 <= j < k ==> !SameName(h[j].0, n)
    ensures Find(h, n) == Some(k)
  {
    var f := Find(h, n).value;
    assert f <= k;
  }

  /** Appending an entry for a name that is missing makes it the entry found. */
  lemma FindAppended(h: HeaderList, e: Header, name: string)
    requires Find(h, name).None? && SameName(e.0, name)
    ensures Find(h + [e], name) == Some(|h|)
  {
    var r := h + [e];
    assert forall k :: 0 <= k < |h| ==> r[k] == h[k];
    assert r[|h|] == e;
    var f := Find(r, name).value;
    assert f <= |h|;
  }

  /**
   * `set(key, value)` on a case-insensitive map: an entry spelt exactly
   * `key` gets the single value in place; an entry spelt differently is
   * removed and `key` is added at the end, as is a missing entry.
   */
  function Set(h: HeaderList, key: string, value: string): (r: HeaderList)
    ensures (key, [value]) in r
    ensures Find(h, key).Some? <==> |r| == |h|
    ensures Find(h, key).None? ==> |r| == |h| + 1
  {
    match Find(h, key)
    case Some(i) =>
      if h[i].0 == key then
        assert h[i := (key, [value])][i] == (key, [value]);
        h[i := (key, [value])]
      else h[..i] + h[i + 1..] + [(key, [value])]
    case None => h + [(key, [value])]
  }

  /**
   * After `set` every other name is looked up as before; in a map with one
   * entry per name the key then holds exactly the new value and no name is
   * doubled; no hop-by-hop entry appears unless the key is one.
   */
  lemma SetLookup(h: HeaderList, key: string, value: string)
    ensures forall n :: !SameName(n, key) ==> Get(Set(h, key, value), n) == Get(h, n)
    ensures DistinctNames(h) ==> DistinctNames(Set(h, key, value)) && Get(Set(h, key, value), key) == Some([value])
    ensures NoHopByHop(h) && !IsHopByHop(key) ==> NoHopByHop(Set(h, key, value))
  {
    match Find(h, key)
    case Some(i) =>
      if h[i].0 == key {
        SetInPlace(h, i, key, value);
      } else {
        SetMoved(h, i, key, value);
      }
    case None =>
      SetAppended(h, key, value);
  }

  lemma SetInPlace(h: HeaderList, i: nat, key: string, value: string)
    requires Find(h, key) == Some(i) && h[i].0 == key
    ensures forall n :: !SameName(n, key) ==> Get(h[i := (key, [value])], n) == Get(h, n)
    ensures DistinctNames(h) ==> DistinctNames(h[i := (key, [value])])
    ensures Get(h[i := (key, [value])], key) == Some([value])
    ensures NoHopByHop(h) ==> NoHopByHop(h[i := (key, [value])])
  {
    var e := (key, [value]);
    GetReplaced(h, i, e, key);
    forall n | !SameName(n, key) ensures Get(h[i := e], n) == Get(h, n) {
      GetReplaced(h, i, e, n);
    }
    ReplacedWellFormed(h, i, e);
  }

  lemma SetMoved(h: HeaderList, i: nat, key: string, value: string)
    requires Find(h, key) == Some(i)
    ensures forall n :: !SameName(n, key) ==> Get(h[..i] + h[i + 1..] + [(key, [value])], n) == Get(h, n)
    ensures DistinctNames(h) ==>
      DistinctNames(h[..i] + h[i + 1..] + [(key, [value])]) && Get(h[..i] + h[i + 1..] + [(key, [value])], key) == Some([value])
    ensures NoHopByHop(h) && !IsHopByHop(key) ==> NoHopByHop(h[..i] + h[i + 1..] + [(key, [value])])
  {
    var g := h[..i] + h[i + 1..];
    var e := (key, [value]);
    if NoHopByHop(h) && !IsHopByHop(key) {
      NoHopByHopRemove(h, i);
      NoHopByHopAppend(g, e);
    }
    forall n | !SameName(n, key) ensures Get(g + [e], n) == Get(h, n) {
      GetRemove(h, i, n);
      GetAppendedOther(g, e, n);
    }
    if DistinctNames(h) {
      RemovedDistinct(h, i, key);
      AppendedDistinct(g, e);
      FindAppended(g, e, key);
    }
  }

  /** Without the entry for `key`, a map with one entry per name lacks `key`. */
  lemma RemovedDistinct(h: HeaderList, i: nat, key: string)
    requires Find(h, key) == Some(i) && DistinctNames(h)
    ensures DistinctNames(h[..i] + h[i + 1..])
    ensures Find(h[..i] + h[i + 1..], key).None?
  {
    var g := h[..i] + h[i + 1..];
    assert forall k :: 0 <= k < |g| ==> g[k] == h[if k < i then k else k + 1];
  }

  lemma NoHopByHopAppend(h: HeaderList, e: Header)
    requires NoHopByHop(h) && !IsHopByHop(e.0)
    ensures NoHopByHop(h + [e])
  {
    assert forall k :: 0 <= k < |h| ==> (h + [e])[k] == h[k];
  }

  lemma NoHopByHopRemove(h: HeaderList, i: nat)
    requires NoHopByHop(h) && i < |h|
    ensures NoHopByHop(h[..i] + h[i + 1..])
  {
    var g := h[..i] + h[i + 1..];
    assert forall k :: 0 <= k < |g| ==> g[k] == h[if k < i then k else k + 1];
  }

  lemma SetAppended(h: HeaderList, key: string, value: string)
    requires Find(h, key).None?
    ensures forall n :: !SameName(n, key) ==> Get(h + [(key, [value])], n) == Get(h, n)
    ensures DistinctNames(h) ==> DistinctNames(h + [(key, [value])])
    ensures Get(h + [(key, [value])], key) == Some([value])
    ensures NoHopByHop(h) && !IsHopByHop(key) ==> NoHopByHop(h + [(key, [value])])
  {
    var e := (key, [value]);
    if NoHopByHop(h) && !IsHopByHop(key) {
      NoHopByHopAppend(h, e);
    }
    FindAppended(h, e, key);
    forall n | !SameName(n, key) ensures Get(h + [e], n) == Get(h, n) {
      GetAppendedOther(h, e, n);
    }
    AppendedDistinct(h, e);
  }

  /**
   * The values copied for one entry: on the response side (`relocate`
   * holds the route's prefix) every `Location` value is rewritten.
   */
  function Outgoing(name: string, values: seq<string>, relocate: Option<string>): seq<string> {
    match relocate
    case Some(prefix) => if SameName(name, "Location") then RewriteLocations(values, prefix) else values
    case None => values
  }

  /**
   * Every entry of `src` that is not hop-by-hop, in order, added to `acc`
   * with `addAll`.
   */
  function CopyHeaders(acc: HeaderList, src: HeaderList, relocate: Option<string>): (r: HeaderList)
    ensures |acc| <= |r| <= |acc| + |src|
    ensures forall i :: 0 <= i < |acc| ==> r[i].0 == acc[i].0
    decreases |src|
  {
    if src == [] then acc
    else
      var h := CopyHeaders(acc, src[..|src| - 1], relocate);
      var name := src[|src| - 1].0;
      if IsHopByHop(name) then h
      else AddAll(h, name, Outgoing(name, src[|src| - 1].1, relocate))
  }

  /** The copy keeps a map with one entry per name as such, and adds no hop-by-hop entry. */
  lemma {:induction false} CopyHeadersWellFormed(acc: HeaderList, src: HeaderList, relocate: Option<string>)
    ensures DistinctNames(acc) ==> DistinctNames(CopyHeaders(acc, src, relocate))
    ensures NoHopByHop(acc) ==> NoHopByHop(CopyHeaders(acc, src, relocate))
    decreases |src|
  {
    if src != [] {
      var h := CopyHeaders(acc, src[..|src| - 1], relocate);
      var name := src[|src| - 1].0;
      CopyHeadersWellFormed(acc, src[..|src| - 1], relocate);
      if !IsHopByHop(name) {
        var values := Outgoing(name, src[|src| - 1].1, relocate);
        AddAllLookup(h, name, values);
        if NoHopByHop(h) {
          AddAllNoHopByHop(h, name, values);
        }
      }
    }
  }

  lemma AddAllNoHopByHop(h: HeaderList, key: string, values: seq<string>)
    requires NoHopByHop(h) && !IsHopByHop(key)
    ensures NoHopByHop(AddAll(h, key, values))
  {
  }

  /** Everything `src` holds under `name`, in order, as it is copied. */
  function Collect(src: HeaderList, name: string, relocate: Option<string>): Option<seq<string>>
    decreases |src|
  {
    if src == [] then None
    else
      var before := Collect(src[..|src| - 1], name, relocate);
      var last := src[|src| - 1];
      if SameName(last.0, name) then Some(before.GetOr([]) + Outgoing(last.0, last.1, relocate))
      else before
  }

  /**
   * What the copy holds under any name: nothing new for a hop-by-hop name,
   * and otherwise what `acc` held followed by every value `src` holds under
   * that name, in order.
   */
  lemma {:induction false} CopyHeadersGet(acc: HeaderList, src: HeaderList, relocate: Option<string>, n: string)
    ensures Get(CopyHeaders(acc, src, relocate), n) ==
      if IsHopByHop(n) then Get(acc, n) else Merge(Get(acc, n), Collect(src, n, relocate))
    decreases |src|
  {
    if src != [] {
      var init := src[..|src| - 1];
      var name := src[|src| - 1].0;
      var values := Outgoing(name, src[|src| - 1].1, relocate);
      CopyHeadersGet(acc, init, relocate, n);
      CopyStep(acc, src, relocate, n);
      HopSameName(n, name);
      if !IsHopByHop(name) && SameName(n, name) {
        MergeAppend(Get(acc, n), Collect(init, n, relocate), values);
      }
    } else {
      assert Get(acc, n).GetOr([]) + [] == Get(acc, n).GetOr([]);
    }
  }

  /** One step of the copy, as seen by a lookup of `n`. */
  lemma CopyStep(acc: HeaderList, src: HeaderList, relocate: Option<string>, n: string)
    requires src != []
    ensures
      var init, name := src[..|src| - 1], src[|src| - 1].0;
      var values := Outgoing(name, src[|src| - 1].1, relocate);
      var g := Get(CopyHeaders(acc, init, relocate), n);
      && Get(CopyHeaders(acc, src, relocate), n) ==
           (if !IsHopByHop(name) && SameName(n, name) then Some(g.GetOr([]) + values) else g)
      && Collect(src, n, relocate) ==
           (if SameName(n, name) then Some(Collect(init, n, relocate).GetOr([]) + values)
            else Collect(init, n, relocate))
  {
    var init, name := src[..|src| - 1], src[|src| - 1].0;
    var values := Outgoing(name, src[|src| - 1].1, relocate);
    var h := CopyHeaders(acc, init, relocate);
    if !IsHopByHop(name) {
      AddAllLookup(h, name, values);
    }
    if !IsHopByHop(name) && SameName(n, name) {
      GetSameName(AddAll(h, name, values), n, name);
      GetSameName(h, n, name);
    }
    SameNameSymmetric(n, name);
  }

  lemma SameNameSymmetric(a: string, b: string)
    ensures SameName(a, b) == SameName(b, a)
  {
  }

  /** Two spellings of one name are both hop-by-hop or neither. */
  lemma HopSameName(a: string, b: string)
    ensures SameName(a, b) ==> IsHopByHop(a) == IsHopByHop(b)
  {
  }

  lemma MergeAppend(a: Option<seq<string>>, b: Option<seq<string>>, v: seq<string>)
    ensures Merge(a, Some(b.GetOr([]) + v)) == Some(Merge(a, b).GetOr([]) + v)
  {
    assert a.GetOr([]) + (b.GetOr([]) + v) == a.GetOr([]) + b.GetOr([]) + v;
  }

  /** `Location` values of a lookup rewritten for `prefix`; other names as they are. */
  function Relocated(values: Option<seq<string>>, n: string, prefix: string): Option<seq<string>> {
    match values
    case None => None
    case Some(v) => Some(if SameName(n, "Location") then RewriteLocations(v, prefix) else v)
  }

  /**
   * On the response side a lookup sees the backend's values, with every
   * `Location` value rewritten for the route's prefix.
   */
  lemma {:induction false} CollectRelocated(src: HeaderList, n: string, prefix: string)
    ensures Collect(src, n, Some(prefix)) == Relocated(Collect(src, n, None), n, prefix)
    decreases |src|
  {
    if src != [] {
      var init, last := src[..|src| - 1], src[|src| - 1];
      CollectRelocated(init, n, prefix);
      if SameName(last.0, n) {
        assert SameName(last.0, "Location") == SameName(n, "Location");
        var before := Collect(init, n, None).GetOr([]);
        if SameName(n, "Location") {
          RewriteLocationsAppend(before, last.1, prefix);
        }
      }
    }
  }

  /**
   * A header list that already has one entry per name and no hop-by-hop
   * entry is forwarded exactly as it is.
   */
  lemma {:induction false} CopyHeadersIdentity(src: HeaderList)
    requires DistinctNames(src) && NoHopByHop(src)
    ensures CopyHeaders([], src, None) == src
    decreases |src|
  {
    if src != [] {
      var init, last := src[..|src| - 1], src[|src| - 1];
      WellFormedInit(src);
      calc {
        CopyHeaders([], src, None);
        AddAll(CopyHeaders([], init, None), last.0, last.1);
        { CopyHeadersIdentity(init); }
        AddAll(init, last.0, last.1);
        { AddAllMissing(init, last.0, last.1); }
        init + [last];
        { assert init + [last] == src; }
        src;
      }
    }
  }

  /** Without all but its last entry, a well-formed list stays well-formed and lacks the last name. */
  lemma WellFormedInit(src: HeaderList)
    requires src != [] && DistinctNames(src) && NoHopByHop(src)
    ensures DistinctNames(src[..|src| - 1]) && NoHopByHop(src[..|src| - 1])
    ensures !IsHopByHop(src[|src| - 1].0) && Find(src[..|src| - 1], src[|src| - 1].0).None?
  {
    var init := src[..|src| - 1];
    assert forall k :: 0 <= k < |init| ==> init[k] == src[k];
  }

  lemma AddAllMissing(h: HeaderList, key: string, values: seq<string>)
    requires Find(h, key).None?
    ensures AddAll(h, key, values) == h + [(key, values)]
  {
  }

  /** One more entry of `src` run through the copy. */
  lemma CopyHeadersSnoc(acc: HeaderList, src: HeaderList, i: nat, relocate: Option<string>)
    requires i < |src|
    ensures CopyHeaders(acc, src[..i + 1], relocate) ==
      if IsHopByHop(src[i].0) then CopyHeaders(acc, src[..i], relocate)
      else AddAll(CopyHeaders(acc, src[..i], relocate), src[i].0, Outgoing(src[i].0, src[i].1, relocate))
  {
    assert src[..i + 1][..i] == src[..i];
  }

  /** The copy loop: `forEach` over `src`, skipping hop-by-hop names. */
  method TransferHeaders(acc: HeaderList, src: HeaderList, relocate: Option<string>) returns (out: HeaderList)
    ensures out == CopyHeaders(acc, src, relocate)
  {
    out := acc;
    var i := 0;
    while i < |src|
      invariant 0 <= i <= |src|
      invariant out == CopyHeaders(acc, src[..i], relocate)
    {
      var (name, values) := src[i];
      CopyHeadersSnoc(acc, src, i, relocate);
      if !IsHopByHop(name) {
        out := AddAll(out, name, Outgoing(name, values, relocate));
      }
      i := i + 1;
    }
    assert src[..|src|] == src;
  }
}
