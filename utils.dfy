/**
 * The proxy's utility functions: the protected request-header names and the
 * header merge used for upstream calls, the `env:` substitution of
 * configuration trees, dotted-path resolution into nested objects, and the
 * client-address lookup.
 */
module Utils {
  import opened Wrappers
  import opened PyStr
  import opened Values

  // ------------------------------------------------------- sensitive headers

  /** Header names a caller's extra headers may never set: credentials,
    * transport metadata, connection control, caching, proxy, security, host,
    * range and HTTP/2 pseudo-headers. */
  const SensitiveHeaders: set<string> := {
    "authorization", "www-authenticate",
    "content-length", "content-type", "transfer-encoding",
    "connection", "keep-alive", "upgrade",
    "cache-control", "etag", "if-none-match",
    "proxy-authorization", "proxy-connection",
    "strict-transport-security",
    "host",
    "range", "if-range",
    ":method", ":path", ":scheme", ":authority", "te", "trailer"
  }

  /** A header name is protected whatever its casing. */
  predicate IsSensitive(name: string) {
    Lower(name) in SensitiveHeaders
  }

  /** The headers whose names are not protected, with their values unchanged. */
  function FilterSensitiveHeaders<V>(headers: map<string, V>): (r: map<string, V>)
    ensures forall k :: k in r <==> k in headers && !IsSensitive(k)
    ensures forall k :: k in r ==> r[k] == headers[k]
  {
    map k | k in headers && !IsSensitive(k) :: headers[k]
  }

  /** Two spellings of one name are treated alike: both dropped when the name
    * is protected, both kept (with their values) when it is not. */
  lemma FilterRemovesEveryCasing<V>(headers: map<string, V>, n1: string, n2: string)
    requires Lower(n1) == Lower(n2) && n1 in headers && n2 in headers
    ensures n1 in FilterSensitiveHeaders(headers) <==> n2 in FilterSensitiveHeaders(headers)
    ensures Lower(n1) in SensitiveHeaders ==> n1 !in FilterSensitiveHeaders(headers) && n2 !in FilterSensitiveHeaders(headers)
    ensures Lower(n1) !in SensitiveHeaders ==>
      FilterSensitiveHeaders(headers)[n1] == headers[n1] && FilterSensitiveHeaders(headers)[n2] == headers[n2]
  { }

  /** Filtering an already filtered map changes nothing, and every name that
    * is not protected keeps its value. */
  lemma FilterIdempotent<V>(headers: map<string, V>)
    ensures FilterSensitiveHeaders(FilterSensitiveHeaders(headers)) == FilterSensitiveHeaders(headers)
  { }

  /** `authorization` is protected in every casing: each letter in lower or in
    * upper case. */
  lemma AuthorizationIsSensitive(name: string)
    requires |name| == |"authorization"|
    requires forall i :: 0 <= i < |name| ==>
      name[i] == "authorization"[i] || name[i] as int == "authorization"[i] as int - 32
    ensures IsSensitive(name)
  {
    LowerMatches(name, "authorization");
  }

  /** A name starting with `x` or `X` (such as `X-Custom-Header`) is not
    * protected, so filtering keeps it with its value. */
  lemma CustomHeaderNotSensitive<V>(headers: map<string, V>, name: string)
    requires |name| > 0 && LowerChar(name[0]) == 'x'
    ensures !IsSensitive(name)
    ensures name in headers ==>
      name in FilterSensitiveHeaders(headers) && FilterSensitiveHeaders(headers)[name] == headers[name]
  {
    NotListed(Lower(name));
  }

  /** No protected name starts with `x`. */
  lemma NotListed(name: string)
    requires |name| > 0 && name[0] == 'x'
    ensures name !in SensitiveHeaders
  { }

  // ------------------------------------------------------------ header merge

  /** The merged headers: the override's entries win over the base's, a missing
    * map counts as empty, and protected names are dropped when filtering. */
  function Merge<V>(base: Option<map<string, V>>, override: Option<map<string, V>>,
                    filterSensitive: bool): (r: map<string, V>)
    ensures forall k :: k in r <==>
      (k in base.GetOr(map[]) || k in override.GetOr(map[])) && !(filterSensitive && IsSensitive(k))
    ensures forall k :: k in r && k in override.GetOr(map[]) ==> r[k] == override.value[k]
    ensures forall k :: k in r && k !in override.GetOr(map[]) ==> r[k] == base.value[k]
  {
    var merged := base.GetOr(map[]) + override.GetOr(map[]);
    if filterSensitive then FilterSensitiveHeaders(merged) else merged
  }

  /** Copies the base headers (if any), updates them with the override (if any)
    * and filters the result when asked. */
  method MergeHeaders<V>(base: Option<map<string, V>>, override: Option<map<string, V>>,
                         filterSensitive: bool)
    returns (result: map<string, V>)
    ensures result == Merge(base, override, filterSensitive)
  {
    result := if base.Some? && base.value != map[] then base.value else map[];
    if override.Some? && override.value != map[] {
      result := result + override.value;
    }
    if filterSensitive {
      result := FilterSensitiveHeaders(result);
    }
  }

  /** The override cannot smuggle a protected header in, while a base header
    * it does not mention is kept. */
  lemma MergeNeverSetsSensitive<V>(base: Option<map<string, V>>, override: Option<map<string, V>>, name: string)
    requires IsSensitive(name)
    ensures name !in Merge(base, override, true)
  { }

  /** Without filtering the merge is the plain dictionary update. */
  lemma MergeUnfiltered<V>(base: map<string, V>, override: map<string, V>)
    ensures Merge(Some(base), Some(override), false) == base + override
  { }

  /** Merging twice with the same override is the same as merging once. */
  lemma MergeIdempotent<V>(base: Option<map<string, V>>, override: Option<map<string, V>>, f: bool)
    ensures Merge(Some(Merge(base, override, f)), override, f) == Merge(base, override, f)
  { }

  // ------------------------------------------------------ env substitution

  /** `os.environ.get(name, "")`. */
  function EnvLookup(env: map<string, string>, name: string): string {
    if name in env then env[name] else ""
  }

  /** A string that names an environment variable. */
  predicate IsEnvRef(v: Value) {
    v.Str? && StartsWith(v.s, "env:")
  }

  /** Some string at any depth of dicts and lists names an environment variable. */
  predicate HasEnvRef(v: Value)
    decreases v
  {
    match v
    case Str(_) => IsEnvRef(v)
    case List(items) => exists i :: 0 <= i < |items| && HasEnvRef(items[i])
    case Dict(m) => exists k :: k in m && HasEnvRef(m[k])
    case _ => false
  }

  /** The tree with every `env:NAME` string, at any depth of dicts and lists,
    * replaced by the variable's value (or by "" when it is unset). */
  function ReplaceEnvStringsRecursive(data: Value, env: map<string, string>): (r: Value)
    ensures data.Dict? <==> r.Dict?
    ensures data.Dict? ==> r.entries.Keys == data.entries.Keys
    ensures data.List? <==> r.List?
    ensures data.List? ==> |r.items| == |data.items|
    ensures data.Dict? ==> forall k :: k in data.entries ==>
      r.entries[k] == ReplaceEnvStringsRecursive(data.entries[k], env)
    ensures data.List? ==> forall i :: 0 <= i < |data.items| ==>
      r.items[i] == ReplaceEnvStringsRecursive(data.items[i], env)
    ensures IsEnvRef(data) ==> r == Str(EnvLookup(env, data.s[4..]))
    ensures !data.Dict? && !data.List? && !IsEnvRef(data) ==> r == data
    decreases data
  {
    match data
    case Dict(m) => Dict(map k | k in m :: ReplaceEnvStringsRecursive(m[k], env))
    case List(items) => List(seq(|items|, i requires 0 <= i < |items| => ReplaceEnvStringsRecursive(items[i], env)))
    case Str(s) => if StartsWith(s, "env:") then Str(EnvLookup(env, s[4..])) else data
    case _ => data
  }

  /** A tree without references comes back unchanged. */
  lemma {:induction false} ReplaceEnvIdentity(data: Value, env: map<string, string>)
    requires !HasEnvRef(data)
    ensures ReplaceEnvStringsRecursive(data, env) == data
    decreases data
  {
    match data
    case Dict(m) =>
      forall k | k in m
        ensures ReplaceEnvStringsRecursive(m[k], env) == m[k]
      {
        ReplaceEnvIdentity(m[k], env);
      }
      assert ReplaceEnvStringsRecursive(data, env).entries == m;
    case List(items) =>
      forall i | 0 <= i < |items|
        ensures ReplaceEnvStringsRecursive(items[i], env) == items[i]
      {
        ReplaceEnvIdentity(items[i], env);
      }
      assert ReplaceEnvStringsRecursive(data, env).items == items;
    case _ =>
  }

  /** When no variable's value itself starts with `env:`, the result holds no
    * reference any more. */
  lemma {:induction false} ReplaceEnvLeavesNoRef(data: Value, env: map<string, string>)
    requires forall name :: name in env ==> !StartsWith(env[name], "env:")
    ensures !HasEnvRef(ReplaceEnvStringsRecursive(data, env))
    decreases data
  {
    var r := ReplaceEnvStringsRecursive(data, env);
    match data
    case Dict(m) =>
      forall k | k in m
        ensures !HasEnvRef(r.entries[k])
      {
        ReplaceEnvLeavesNoRef(m[k], env);
      }
    case List(items) =>
      forall i | 0 <= i < |items|
        ensures !HasEnvRef(r.items[i])
      {
        ReplaceEnvLeavesNoRef(items[i], env);
      }
    case Str(s) =>
    case _ =>
  }

  /** Under the same condition the substitution is idempotent. */
  lemma ReplaceEnvIdempotent(data: Value, env: map<string, string>)
    requires forall name :: name in env ==> !StartsWith(env[name], "env:")
    ensures ReplaceEnvStringsRecursive(ReplaceEnvStringsRecursive(data, env), env)
         == ReplaceEnvStringsRecursive(data, env)
  {
    ReplaceEnvLeavesNoRef(data, env);
    ReplaceEnvIdentity(ReplaceEnvStringsRecursive(data, env), env);
  }

  /** A walk that goes through dicts and lists only, never an instance. */
  predicate ContainerPath(data: Value, parts: seq<string>)
    decreases |parts|
  {
    parts == [] ||
    ((data.Dict? || data.List?) &&
     match Step(data, parts[0])
     case None => true
     case Some(next) => ContainerPath(next, parts[1..]))
  }

  /** An `env:` string at any depth of dicts and lists is replaced where it
    * stands: the same path leads to the variable's value in the result. */
  lemma {:induction false} ReplaceEnvAlongPath(data: Value, parts: seq<string>, env: map<string, string>)
    requires ContainerPath(data, parts)
    requires Walk(data, parts).Some? && IsEnvRef(Walk(data, parts).value)
    ensures Walk(ReplaceEnvStringsRecursive(data, env), parts)
         == Some(Str(EnvLookup(env, Walk(data, parts).value.s[4..])))
    decreases |parts|
  {
    if parts != [] {
      var r := ReplaceEnvStringsRecursive(data, env);
      var next := Step(data, parts[0]).value;
      assert Step(r, parts[0]) == Some(ReplaceEnvStringsRecursive(next, env)) by {
        if data.List? {
          var n := ParseInt(parts[0]).value;
          if 0 <= n < |data.items| {
            assert next == data.items[n];
          } else {
            assert next == data.items[|data.items| + n];
          }
        }
      }
      ReplaceEnvAlongPath(next, parts[1..], env);
    }
  }

  /** `[["env:X"]]` and `{"data": {"field": "env:X"}}` have their string
    * replaced. */
  lemma ReplaceEnvNestedExamples(env: map<string, string>)
    ensures ReplaceEnvStringsRecursive(List([List([Str("env:X")])]), env) == List([List([Str(EnvLookup(env, "X"))])])
    ensures ReplaceEnvStringsRecursive(Dict(map["data" := Dict(map["field" := Str("env:X")])]), env)
         == Dict(map["data" := Dict(map["field" := Str(EnvLookup(env, "X"))])])
  {
    var leaf := ReplaceEnvStringsRecursive(Str("env:X"), env);
    assert "env:X"[..4] == "env:" && "env:X"[4..] == "X";
    assert leaf == Str(EnvLookup(env, "X"));
    var inner := ReplaceEnvStringsRecursive(List([Str("env:X")]), env);
    assert inner.items == [leaf];
    assert ReplaceEnvStringsRecursive(List([List([Str("env:X")])]), env).items == [inner];
    var field := ReplaceEnvStringsRecursive(Dict(map["field" := Str("env:X")]), env);
    assert field.entries == map["field" := leaf];
    assert ReplaceEnvStringsRecursive(Dict(map["data" := Dict(map["field" := Str("env:X")])]), env).entries
        == map["data" := field];
  }

  // --------------------------------------------------------- dotted paths

  /** `seq[n]` with Python's negative indices. */
  function PyIndex<T>(items: seq<T>, n: int): (r: Option<T>)
    ensures r.Some? <==> -|items| <= n < |items|
    ensures 0 <= n < |items| ==> r == Some(items[n])
    ensures -|items| <= n < 0 ==> r == Some(items[|items| + n])
  {
    if 0 <= n < |items| then Some(items[n])
    else if -|items| <= n < 0 then Some(items[|items| + n])
    else None
  }

  /** One path segment: a key of a dict, an index (parsed by `int()`) of a list,
    * or an attribute of an instance; any failure is `None`. */
  function Step(obj: Value, part: string): (r: Option<Value>)
    ensures obj.Dict? ==> (r.Some? <==> part in obj.entries)
    ensures obj.Dict? && r.Some? ==> r.value == obj.entries[part]
    ensures obj.Object? ==> (r.Some? <==> part in obj.attrs)
    ensures obj.List? ==> (r.Some? <==> ParseInt(part).Some? && -|obj.items| <= ParseInt(part).value < |obj.items|)
    ensures obj.List? && r.Some? ==> r == PyIndex(obj.items, ParseInt(part).value)
    ensures IsScalar(obj) ==> r.None?
  {
    match obj
    case Dict(m) => if part in m then Some(m[part]) else None
    case List(items) =>
      (match ParseInt(part)
       case None => None
       case Some(n) => PyIndex(items, n))
    case Object(_, attrs) => if part in attrs then Some(attrs[part]) else None
    case _ => None
  }

  /** Following segments one after another; the first failing one fails the walk. */
  function Walk(obj: Value, parts: seq<string>): Option<Value>
    decreases |parts|
  {
    if parts == [] then Some(obj)
    else match Step(obj, parts[0])
      case None => None
      case Some(next) => Walk(next, parts[1..])
  }

  /** What `resolve_obj_path(obj, path, default)` returns. */
  function Resolve(obj: Value, path: string, default: Value): Value {
    Walk(obj, Split(path, ".")).GetOr(default)
  }

  /** Walking a concatenation walks the first part, then the second from where
    * that ended. */
  lemma {:induction false} WalkAppend(obj: Value, a: seq<string>, b: seq<string>)
    ensures Walk(obj, a + b) == (match Walk(obj, a) case None => None case Some(o) => Walk(o, b))
    decreases |a|
  {
    if a == [] {
      assert a + b == b;
    } else {
      assert (a + b)[0] == a[0] && (a + b)[1..] == a[1..] + b;
      match Step(obj, a[0])
      case None =>
      case Some(next) =>
        WalkAppend(next, a[1..], b);
        assert Walk(obj, a + b) == Walk(next, a[1..] + b);
        assert Walk(obj, a) == Walk(next, a[1..]);
    }
  }

  /** A path through dict keys only resolves to the nested entry. */
  lemma ResolveTwoKeys(inner: map<string, Value>, outer: map<string, Value>, k1: string, k2: string, default: Value)
    requires !Contains(k1, ".") && !Contains(k2, ".")
    requires k1 in outer && outer[k1] == Dict(inner) && k2 in inner
    ensures Resolve(Dict(outer), k1 + "." + k2, default) == inner[k2]
  {
    assert k1 + "."[..0] == k1;
    SplitHead(k1, ".", k2);
    SplitOfFree(k2, ".");
    assert Split(k1 + "." + k2, ".") == [k1, k2];
    assert Walk(Dict(outer), [k1, k2]) == Walk(Dict(inner), [k2]);
    assert Walk(Dict(inner), [k2]) == Walk(inner[k2], []);
  }

  /** A list segment is an index in Python's sense: `key.-1` gives the last
    * element, and an index out of range gives the default. */
  lemma ResolveListIndex(outer: map<string, Value>, key: string, items: seq<Value>, n: int, default: Value)
    requires !Contains(key, ".") && key in outer && outer[key] == List(items)
    ensures Resolve(Dict(outer), key + "." + IntToString(n), default) == PyIndex(items, n).GetOr(default)
    ensures n == -1 && items != [] ==> Resolve(Dict(outer), key + "." + IntToString(n), default) == items[|items| - 1]
    ensures (n < -|items| || |items| <= n) ==> Resolve(Dict(outer), key + "." + IntToString(n), default) == default
  {
    var idx := IntToString(n);
    NoDotInInt(n);
    TwoSegments(Dict(outer), key, idx, default);
    assert Walk(Dict(outer), [key, idx]) == Walk(List(items), [idx]);
    assert Step(List(items), idx) == PyIndex(items, n) by {
      IntRoundTrip(n);
    }
    match PyIndex(items, n)
    case None =>
    case Some(v) => assert Walk(List(items), [idx]) == Walk(v, []);
  }

  /** A path with one dot is two segments. */
  lemma TwoSegments(obj: Value, k1: string, k2: string, default: Value)
    requires !Contains(k1, ".") && !Contains(k2, ".")
    ensures Resolve(obj, k1 + "." + k2, default) == Walk(obj, [k1, k2]).GetOr(default)
  {
    assert k1 + "."[..0] == k1;
    SplitHead(k1, ".", k2);
    SplitOfFree(k2, ".");
    assert Split(k1 + "." + k2, ".") == [k1, k2];
  }

  lemma NoDotInInt(n: int)
    ensures !Contains(IntToString(n), ".")
  {
    var s := IntToString(n);
    forall i | 0 <= i < |s| ensures s[i] != '.' {
      if n < 0 && i > 0 { assert s[i] == NatToDigits(-n)[i - 1]; }
    }
    NoCharNoOccurrence(s, '.');
  }

  /** The walk fails exactly when some segment fails, after all before it succeeded. */
  lemma ResolveFromWalk(obj: Value, path: string, default: Value, parts: seq<string>, w: Option<Value>)
    requires parts == Split(path, ".") && Walk(obj, parts) == w
    ensures Resolve(obj, path, default) == w.GetOr(default)
  { }

  lemma WalkFailsAtSegment(obj: Value, parts: seq<string>, i: nat, at: Value)
    requires i < |parts| && Walk(obj, parts[..i]) == Some(at) && Step(at, parts[i]) == None
    ensures Walk(obj, parts) == None
  {
    WalkAppend(obj, parts[..i], parts[i..]);
    assert parts[..i] + parts[i..] == parts;
  }

  lemma WalkExtend(obj: Value, parts: seq<string>, i: nat, at: Value)
    requires i < |parts| && Walk(obj, parts[..i]) == Some(at) && Step(at, parts[i]).Some?
    ensures Walk(obj, parts[..i + 1]) == Some(Step(at, parts[i]).value)
  {
    assert Walk(obj, parts[..i] + [parts[i]]) == Walk(at, [parts[i]]) by {
      WalkAppend(obj, parts[..i], [parts[i]]);
    }
    assert parts[..i] + [parts[i]] == parts[..i + 1];
    assert Walk(at, [parts[i]]) == Some(Step(at, parts[i]).value) by {
      var next := Step(at, parts[i]).value;
      assert [parts[i]][1..] == [];
      assert Walk(next, []) == Some(next);
    }
  }

  /** Resolves the segments of `path` one by one, returning `default` at the
    * first segment that cannot be followed. */
  method ResolveObjPath(obj: Value, path: string, default: Value) returns (r: Value)
    ensures r == Resolve(obj, path, default)
  {
    var parts := Split(path, ".");
    var cur := obj;
    var i := 0;
    while i < |parts|
      invariant 0 <= i <= |parts|
      invariant Walk(obj, parts[..i]) == Some(cur)
    {
      var next := Step(cur, parts[i]);
      if next.None? {
        WalkFailsAtSegment(obj, parts, i, cur);
        ResolveFromWalk(obj, path, default, parts, None);
        return default;
      }
      WalkExtend(obj, parts, i, cur);
      cur := next.value;
      i := i + 1;
    }
    assert parts[..i] == parts;
    ResolveFromWalk(obj, path, default, parts, Some(cur));
    r := cur;
  }

  // ------------------------------------------------------- client address

  /** The first header called `key`. Header names arrive from the ASGI server
    * in lower case and the lookup lower-cases the name it is asked for, so
    * `key` is that lower-cased name. */
  function HeaderGet(headers: seq<(string, string)>, key: string): (r: Option<string>)
    ensures r.None? <==> forall i :: 0 <= i < |headers| ==> headers[i].0 != key
    ensures r.Some? ==> exists i :: (0 <= i < |headers| && headers[i].0 == key
      && headers[i].1 == r.value && forall j :: 0 <= j < i ==> headers[j].0 != key)
  {
    if headers == [] then None
    else if headers[0].0 == key then Some(headers[0].1)
    else
      var r := HeaderGet(headers[1..], key);
      assert r.Some? ==> exists i :: (1 <= i < |headers| && headers[i].0 == key
        && headers[i].1 == r.value && forall j :: 0 <= j < i ==> headers[j].0 != key) by {
        if r.Some? {
          var i :| 0 <= i < |headers[1..]| && headers[1..][i].0 == key
            && headers[1..][i].1 == r.value && forall j :: 0 <= j < i ==> headers[1..][j].0 != key;
          assert forall j :: 1 <= j < i + 1 ==> headers[j] == headers[1..][j - 1];
        }
      }
      r
  }

  /** A header that is present with a non-empty value. */
  function Present(headers: seq<(string, string)>, key: string): Option<string> {
    match HeaderGet(headers, key)
    case Some(v) => if v != "" then Some(v) else None
    case None => None
  }

  /** The address in a `Forwarded` header as the code reads it: after the first
    * `for=`, up to the first `;`, stripped. */
  function ForwardedFor(forwarded: string): (a: string)
    requires Contains(forwarded, "for=")
    ensures !Contains(a, ";")
    ensures a == [] || (!IsSpace(a[0]) && !IsSpace(a[|a| - 1]))
  {
    var cut := Split(Split(forwarded, "for=")[1], ";")[0];
    SplitPartsFree(Split(forwarded, "for=")[1], ";");
    StripFree(cut, ";");
    Strip(cut)
  }

  /** The client's address: the first `X-Forwarded-For` entry, else `X-Real-IP`,
    * else the `Forwarded` header's `for=`, else the peer's host, else "unknown".
    * `client` is the connection's peer host, if the server knows it. */
  function GetClientIp(headers: seq<(string, string)>, client: Option<string>): (ip: string)
    ensures Present(headers, "x-forwarded-for").Some? ==>
      ip == Strip(Split(Present(headers, "x-forwarded-for").value, ",")[0])
    ensures Present(headers, "x-forwarded-for").None? && Present(headers, "x-real-ip").Some? ==>
      ip == Present(headers, "x-real-ip").value
    ensures (Present(headers, "x-forwarded-for").None? && Present(headers, "x-real-ip").None? &&
      Present(headers, "forwarded").Some? && Contains(Present(headers, "forwarded").value, "for=")) ==>
      ip == ForwardedFor(Present(headers, "forwarded").value)
    ensures (Present(headers, "x-forwarded-for").None? && Present(headers, "x-real-ip").None? &&
      !(Present(headers, "forwarded").Some? && Contains(Present(headers, "forwarded").value, "for="))) ==>
      ip == client.GetOr("unknown")
  {
    var xff := Present(headers, "x-forwarded-for");
    var realIp := Present(headers, "x-real-ip");
    var fwd := Present(headers, "forwarded");
    if xff.Some? then Strip(Split(xff.value, ",")[0])
    else if realIp.Some? then realIp.value
    else if fwd.Some? && Contains(fwd.value, "for=") then ForwardedFor(fwd.value)
    else client.GetOr("unknown")
  }

  /** Of a proxy chain `first, rest...` only the first, stripped, is the client. */
  lemma ClientIpFirstHop(headers: seq<(string, string)>, client: Option<string>, first: string, rest: string)
    requires !Contains(first, ",")
    requires HeaderGet(headers, "x-forwarded-for") == Some(first + "," + rest)
    ensures GetClientIp(headers, client) == Strip(first)
  {
    var v := first + "," + rest;
    assert v != "";
    assert Present(headers, "x-forwarded-for") == Some(v);
    assert first + ","[..0] == first;
    SplitHead(first, ",", rest);
    assert Split(v, ",")[0] == first;
  }

  /** Without any forwarding header the peer's host (or "unknown") is used. */
  lemma ClientIpFallback(client: Option<string>)
    ensures GetClientIp([], client) == client.GetOr("unknown")
  { }

  // ------------------------------------------------------- Forwarded lists

  /** A string with no surrounding whitespace. */
  predicate Trimmed(s: string) {
    s != [] && !IsSpace(s[0]) && !IsSpace(s[|s| - 1])
  }

  lemma StripTrailingSpace(ip: string)
    requires Trimmed(ip)
    ensures Strip(ip + ", ") == ip + ","
  {
    var s := ip + ", ";
    assert StripRight(s) == StripRight(ip + ",") by {
      assert s[..|s| - 1] == ip + ",";
    }
    assert StripRight(ip + ",") == ip + ",";
    assert (ip + ",")[0] == ip[0];
  }

  /** No `for=` can start before the `=` the string lacks. */
  lemma NoForWithoutEquals(s: string)
    requires forall i :: 0 <= i < |s| ==> s[i] != '='
    ensures !Contains(s, "for=")
  {
    forall i | 0 <= i && i + 4 <= |s|
      ensures !OccursAt(s, "for=", i)
    {
      assert s[i..i + 4][3] == s[i + 3];
    }
  }

  /** In `for=A, for=B` the text between the first two `for=` is `A, `. */
  lemma ForwardedSecondSegment(ip: string, ip2: string)
    requires forall i :: 0 <= i < |ip| ==> ip[i] != '='
    ensures Split("for=" + ip + ", for=" + ip2, "for=")[1] == ip + ", "
  {
    var fwd := "for=" + ip + ", for=" + ip2;
    var head := ip + ", ";
    var rest := head + "for=" + ip2;
    NoForWithoutEquals("for=" [..3]);
    assert fwd == "" + "for=" + rest;
    SplitHead("", "for=", rest);
    NoForWithoutEquals(head + "for=" [..3]);
    SplitHead(head, "for=", ip2);
  }

  /** A two-element `Forwarded` list `for=A, for=B`, read as the code reads it,
    * gives `A,`: the list separator stays attached to the address. */
  lemma ForwardedListAsWritten(ip: string, ip2: string)
    requires Trimmed(ip)
    requires forall i :: 0 <= i < |ip| ==> ip[i] != '=' && ip[i] != ';'
    ensures Contains("for=" + ip + ", for=" + ip2, "for=")
    ensures ForwardedFor("for=" + ip + ", for=" + ip2) == ip + ","
    ensures ForwardedFor("for=" + ip + ", for=" + ip2) != ip
  {
    var fwd := "for=" + ip + ", for=" + ip2;
    assert OccursAt(fwd, "for=", 0);
    ForwardedSecondSegment(ip, ip2);
    var head := ip + ", ";
    NoCharNoOccurrence(head, ';');
    SplitOfFree(head, ";");
    StripTrailingSpace(ip);
  }

  /** The address of the first `Forwarded` element: after the first `for=`, up to
    * the first `;` or `,`, stripped. */
  function ForwardedForCorrected(forwarded: string): string
    requires Contains(forwarded, "for=")
  {
    Strip(StopAt(SplitOnce(forwarded, "for=")[1]))
  }

  /** The prefix before the first `;` or `,`. */
  function StopAt(s: string): (r: string)
    ensures forall i :: 0 <= i < |r| ==> r[i] != ';' && r[i] != ','
    ensures r <= s
    ensures |r| < |s| ==> s[|r|] == ';' || s[|r|] == ','
  {
    if s == [] || s[0] == ';' || s[0] == ',' then [] else [s[0]] + StopAt(s[1..])
  }

  /** The corrected reading gives the first element's address, whether the
    * header holds one element or a list, and whatever parameters follow. */
  lemma ForwardedForCorrectedFirst(ip: string, rest: string)
    requires Trimmed(ip)
    requires forall i :: 0 <= i < |ip| ==> ip[i] != ';' && ip[i] != ','
    requires rest == [] || rest[0] == ';' || rest[0] == ','
    ensures Contains("for=" + ip + rest, "for=")
    ensures ForwardedForCorrected("for=" + ip + rest) == ip
  {
    var fwd := "for=" + ip + rest;
    assert OccursAt(fwd, "for=", 0);
    assert Find(fwd, "for=") == Some(0);
    assert SplitOnce(fwd, "for=")[1] == ip + rest by {
      assert fwd == "" + "for=" + (ip + rest);
    }
    StopAtPrefix(ip, rest);
    StripOfTrimmed(ip);
  }

  lemma {:induction false} StopAtPrefix(ip: string, rest: string)
    requires forall i :: 0 <= i < |ip| ==> ip[i] != ';' && ip[i] != ','
    requires rest == [] || rest[0] == ';' || rest[0] == ','
    ensures StopAt(ip + rest) == ip
    decreases |ip|
  {
    if ip != [] {
      assert (ip + rest)[0] == ip[0];
      assert (ip + rest)[1..] == ip[1..] + rest;
      StopAtPrefix(ip[1..], rest);
      assert [ip[0]] + ip[1..] == ip;
    }
  }
}
