/**
 * Checking a client's API key by asking an external service: the key is
 * substituted for a placeholder in the configured URL and header values, the
 * request is sent, and its outcome decides the group and, optionally, the
 * user information. The HTTP exchange itself is a parameter.
 */
module ApiKeyWithRequest {
  import opened Wrappers
  import opened PyStr
  import opened Values

  /** The checker's configuration. */
  datatype Checker = Checker(
    url: string,
    httpMethod: string,
    headers: map<string, Scalar>,
    responseAsUserInfo: bool,
    groupField: Option<string>,
    defaultGroup: string,
    keyPlaceholder: string,
    useCache: bool,
    cacheSize: int,
    cacheTtl: int,
    timeout: int)

  /** A checker for `url` with every other field at its default. */
  function NewChecker(url: string): (c: Checker)
    ensures c.url == url && c.httpMethod == "get" && c.headers == map[]
    ensures !c.responseAsUserInfo && c.groupField.None?
    ensures c.defaultGroup == "default" && c.keyPlaceholder == "{api_key}"
    ensures !c.useCache && c.cacheSize == 16384 && c.cacheTtl == 300 && c.timeout == 5
  {
    Checker(url, "get", map[], false, None, "default", "{api_key}", false, 1024 * 16, 60 * 5, 5)
  }

  /** The request the checker sends. */
  datatype HttpRequest = HttpRequest(httpMethod: string, url: string, headers: map<string, string>, timeout: int)

  /** What came back: a transport failure (connection refused, timeout, bad
    * URL), or a response with its status and its body parsed as JSON (`None`
    * when it is not JSON). */
  datatype HttpOutcome = TransportFailed | Response(status: int, json: Option<Value>)

  /** The client the checker talks through. */
  type HttpClient = HttpRequest -> HttpOutcome

  /** The decision: no group (the key is refused), a group with the user
    * information (`Null` when not asked for), or an exception that escapes. */
  datatype Decision = Refused | Granted(group: Value, userInfo: Value) | Raises(error: PyException)

  /** The URL with every occurrence of the placeholder replaced by the key. */
  function RequestUrl(c: Checker, apiKey: string): string {
    Replace(c.url, c.keyPlaceholder, apiKey)
  }

  /** The headers: the same keys, each value `str(v)` with the placeholder
    * replaced by the key. */
  function RequestHeaders(c: Checker, apiKey: string): (h: map<string, string>)
    ensures h.Keys == c.headers.Keys
    ensures forall k :: k in h ==> h[k] == Replace(ScalarStr(c.headers[k]), c.keyPlaceholder, apiKey)
  {
    map k | k in c.headers :: Replace(ScalarStr(c.headers[k]), c.keyPlaceholder, apiKey)
  }

  function BuildRequest(c: Checker, apiKey: string): (r: HttpRequest)
    ensures r.httpMethod == c.httpMethod && r.timeout == c.timeout
    ensures r.url == RequestUrl(c, apiKey) && r.headers == RequestHeaders(c, apiKey)
  {
    HttpRequest(c.httpMethod, RequestUrl(c, apiKey), RequestHeaders(c, apiKey), c.timeout)
  }

  /** `raise_for_status` raises for client and server errors. */
  predicate IsErrorStatus(status: int) {
    400 <= status < 600
  }

  /** What the checker makes of the outcome of its request. */
  function Decide(c: Checker, out: HttpOutcome): (d: Decision)
    ensures out.TransportFailed? ==> d == Refused
    ensures out.Response? && IsErrorStatus(out.status) ==> d == Refused
    ensures out.Response? && !IsErrorStatus(out.status) && !c.responseAsUserInfo ==>
      d == Granted(Str(c.defaultGroup), Null)
    ensures out.Response? && !IsErrorStatus(out.status) && c.responseAsUserInfo && out.json.None? ==>
      d == Refused
    ensures out.Response? && !IsErrorStatus(out.status) && c.responseAsUserInfo && out.json.Some?
            && (c.groupField.None? || c.groupField.value == "") ==>
      d == Granted(Str(c.defaultGroup), out.json.value)
    ensures out.Response? && !IsErrorStatus(out.status) && c.responseAsUserInfo && out.json.Some?
            && c.groupField.Some? && c.groupField.value != "" ==>
      (match out.json.value
       case Dict(m) =>
         d == Granted(if c.groupField.value in m then m[c.groupField.value] else Str(c.defaultGroup),
                      out.json.value)
       case _ => d == Raises(NoAttribute(out.json.value, "get")))
  {
    match out
    case TransportFailed => Refused
    case Response(status, json) =>
      if IsErrorStatus(status) then Refused
      else if !c.responseAsUserInfo then Granted(Str(c.defaultGroup), Null)
      else if json.None? then Refused
      else if c.groupField.None? || c.groupField.value == "" then Granted(Str(c.defaultGroup), json.value)
      else
        match json.value
        case Dict(m) =>
          Granted(if c.groupField.value in m then m[c.groupField.value] else Str(c.defaultGroup), json.value)
        case _ => Raises(NoAttribute(json.value, "get"))
  }

  /** `check_func`: build the request, send it, and decide. */
  method CheckFunc(c: Checker, http: HttpClient, apiKey: string) returns (d: Decision)
    ensures d == Decide(c, http(BuildRequest(c, apiKey)))
  {
    var url := Replace(c.url, c.keyPlaceholder, apiKey);
    var headers := map k | k in c.headers :: Replace(ScalarStr(c.headers[k]), c.keyPlaceholder, apiKey);
    var response := http(HttpRequest(c.httpMethod, url, headers, c.timeout));
    if response.TransportFailed? || IsErrorStatus(response.status) {
      return Refused;
    }
    var group := Str(c.defaultGroup);
    var userInfo := Null;
    if c.responseAsUserInfo {
      if response.json.None? {
        return Refused;
      }
      userInfo := response.json.value;
      if c.groupField.Some? && c.groupField.value != "" {
        if !userInfo.Dict? {
          return Raises(NoAttribute(userInfo, "get"));
        }
        if c.groupField.value in userInfo.entries {
          group := userInfo.entries[c.groupField.value];
        }
      }
    }
    return Granted(group, userInfo);
  }

  // -------------------------------------------------------------- properties

  /** With a non-empty placeholder the URL is the template cut at every
    * placeholder and joined with the key. */
  lemma UrlIsSplitJoin(c: Checker, apiKey: string)
    requires c.keyPlaceholder != []
    ensures RequestUrl(c, apiKey) == Join(Split(c.url, c.keyPlaceholder), apiKey)
  {
    ReplaceIsSplitJoin(c.url, c.keyPlaceholder, apiKey);
  }

  /** A template without the placeholder is sent as it is, whatever the key. */
  lemma TemplateWithoutPlaceholder(c: Checker, apiKey: string)
    requires c.keyPlaceholder != [] && !Contains(c.url, c.keyPlaceholder)
    ensures RequestUrl(c, apiKey) == c.url
  {
    ReplaceAbsent(c.url, c.keyPlaceholder, apiKey);
  }

  /** The key lands where the placeholder was: a template made of a prefix
    * free of the placeholder, the placeholder and a suffix free of it becomes
    * prefix, key, suffix. */
  lemma KeySubstituted(prefix: string, placeholder: string, suffix: string, apiKey: string)
    requires placeholder != []
    requires !Contains(prefix + placeholder[..|placeholder| - 1], placeholder)
    requires !Contains(suffix, placeholder)
    ensures Replace(prefix + placeholder + suffix, placeholder, apiKey) == prefix + apiKey + suffix
  {
    var s := prefix + placeholder + suffix;
    FindAfterHead(prefix, placeholder, suffix);
    assert s[..|prefix|] == prefix;
    assert s[|prefix| + |placeholder|..] == suffix;
    ReplaceAbsent(suffix, placeholder, apiKey);
  }

  /** A refused request never raises: transport failures and error statuses
    * give no group. */
  lemma FailureNeverRaises(c: Checker, out: HttpOutcome)
    requires out.TransportFailed? || IsErrorStatus(out.status)
    ensures Decide(c, out) == Refused
  { }

  /** Only a user-information document that is not a dict, asked for a group
    * field, makes the check raise. */
  lemma RaisesOnlyOnNonDictUserInfo(c: Checker, out: HttpOutcome)
    requires Decide(c, out).Raises?
    ensures c.responseAsUserInfo && c.groupField.Some? && c.groupField.value != ""
    ensures out.Response? && out.json.Some? && !out.json.value.Dict?
    ensures Decide(c, out).error.typeName == "AttributeError"
  { }

  /** The default checker grants the default group on any successful answer. */
  lemma DefaultCheckerGrantsDefault(url: string, status: int, json: Option<Value>)
    requires !IsErrorStatus(status)
    ensures Decide(NewChecker(url), Response(status, json)) == Granted(Str("default"), Null)
  { }
}
