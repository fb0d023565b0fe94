/**
 * The record the proxy keeps for one request/response cycle, the request
 * body it carries, and the dictionary the cycle is exported as for logging.
 */
module BaseTypes {
  import opened Wrappers
  import opened Values

  /** The body of a chat/completions request. Floats are carried by their
    * `repr()`; messages are kept as the objects or dicts they were sent as. */
  datatype ChatRequest = ChatRequest(
    model: string,
    messages: seq<Value>,
    stream: Option<bool>,
    maxTokens: Option<int>,
    temperature: Option<string>,
    topP: Option<string>,
    n: Option<int>,
    stop: Option<seq<string>>,
    presencePenalty: Option<string>,
    frequencyPenalty: Option<string>,
    user: Option<string>)

  function OptStr(o: Option<string>): Value {
    if o.Some? then Str(o.value) else Null
  }

  function OptBool(o: Option<bool>): Value {
    if o.Some? then Bool(o.value) else Null
  }

  function OptInt(o: Option<int>): Value {
    if o.Some? then Int(o.value) else Null
  }

  function OptFloat(o: Option<string>): Value {
    if o.Some? then Float(o.value) else Null
  }

  function OptStrList(o: Option<seq<string>>): Value {
    if o.Some? then List(seq(|o.value|, i requires 0 <= i < |o.value| => Str(o.value[i]))) else Null
  }

  /** The request as the object the context holds. */
  function RequestObject(r: ChatRequest): Value {
    Object("ChatCompletionRequest", map[
      "model" := Str(r.model),
      "messages" := List(r.messages),
      "stream" := OptBool(r.stream),
      "max_tokens" := OptInt(r.maxTokens),
      "temperature" := OptFloat(r.temperature),
      "top_p" := OptFloat(r.topP),
      "n" := OptInt(r.n),
      "stop" := OptStrList(r.stop),
      "presence_penalty" := OptFloat(r.presencePenalty),
      "frequency_penalty" := OptFloat(r.frequencyPenalty),
      "user" := OptStr(r.user)])
  }

  /** A value holds only what JSON can carry: no instance at any depth. */
  predicate JsonLike(v: Value)
    decreases v
  {
    match v
    case Object(_, _) => false
    case List(items) => forall i :: 0 <= i < |items| ==> JsonLike(items[i])
    case Dict(m) => forall k :: k in m ==> JsonLike(m[k])
    case _ => true
  }

  /** A JSON-mode dump: every instance, at any depth, becomes the dict of its
    * attributes; everything else keeps its shape. */
  function JsonMode(v: Value): (r: Value)
    ensures JsonLike(r)
    ensures v.Object? ==> r.Dict? && r.entries.Keys == v.attrs.Keys
    ensures v.Dict? ==> r.Dict? && r.entries.Keys == v.entries.Keys
    ensures v.List? ==> r.List? && |r.items| == |v.items|
    ensures IsScalar(v) ==> r == v
    decreases v
  {
    match v
    case Object(_, attrs) => Dict(map k | k in attrs :: JsonMode(attrs[k]))
    case Dict(m) => Dict(map k | k in m :: JsonMode(m[k]))
    case List(items) => List(seq(|items|, i requires 0 <= i < |items| => JsonMode(items[i])))
    case _ => v
  }

  /** A value that already is JSON-like is its own dump. */
  lemma {:induction false} JsonModeOfJsonLike(v: Value)
    requires JsonLike(v)
    ensures JsonMode(v) == v
    decreases v
  {
    match v
    case Dict(m) =>
      forall k | k in m
        ensures JsonMode(m[k]) == m[k]
      {
        JsonModeOfJsonLike(m[k]);
      }
      assert JsonMode(v).entries == m;
    case List(items) =>
      forall i | 0 <= i < |items|
        ensures JsonMode(items[i]) == items[i]
      {
        JsonModeOfJsonLike(items[i]);
      }
      assert JsonMode(v).items == items;
    case _ =>
  }

  /** Dumping twice is dumping once. */
  lemma JsonModeIdempotent(v: Value)
    ensures JsonMode(JsonMode(v)) == JsonMode(v)
  {
    JsonModeOfJsonLike(JsonMode(v));
  }

  /** `request.model_dump(mode="json")`. */
  function Dump(r: ChatRequest): Value {
    JsonMode(RequestObject(r))
  }

  /** The dump is a JSON-like dict with one key per field of the request. */
  lemma DumpShape(r: ChatRequest)
    ensures Dump(r).Dict? && JsonLike(Dump(r))
    ensures Dump(r).entries.Keys == RequestObject(r).attrs.Keys
    ensures Dump(r).entries["model"] == Str(r.model)
  { }

  /** One request/response cycle. Objects the proxy does not look into (the
    * HTTP request, the LLM response, the exception, the group, the creation
    * time) are opaque values, `Null` when unset. */
  datatype RequestContext = RequestContext(
    id: Option<string>,
    request: Option<ChatRequest>,
    httpRequest: Value,
    response: Value,
    error: Value,
    group: Value,
    connection: Option<string>,
    model: Option<string>,
    llmParams: map<string, Value>,
    apiKeyId: Option<string>,
    remoteAddr: Option<string>,
    createdAt: Value,
    duration: Value,
    userInfo: Value,
    extra: map<string, Value>)

  /** A fresh context: the generated id and the creation time are given,
    * everything else is unset or empty. */
  function NewContext(id: string, now: Value): (c: RequestContext)
    ensures c.id == Some(id) && c.createdAt == now
    ensures c.request.None? && c.httpRequest == Null
    ensures c.response == Null && c.error == Null && c.group == Null
    ensures c.connection.None? && c.model.None?
    ensures c.llmParams == map[] && c.extra == map[]
    ensures c.apiKeyId.None? && c.remoteAddr.None? && c.duration == Null && c.userInfo == Null
  {
    RequestContext(Some(id), None, Null, Null, Null, Null, None, None, map[], None, None, now, Null, Null, map[])
  }

  /** The attributes of the context, as `__dict__` holds them. */
  function Attrs(c: RequestContext): map<string, Value> {
    map[
      "id" := OptStr(c.id),
      "request" := (if c.request.Some? then RequestObject(c.request.value) else Null),
      "http_request" := c.httpRequest,
      "response" := c.response,
      "error" := c.error,
      "group" := c.group,
      "connection" := OptStr(c.connection),
      "model" := OptStr(c.model),
      "llm_params" := Dict(c.llmParams),
      "api_key_id" := OptStr(c.apiKeyId),
      "remote_addr" := OptStr(c.remoteAddr),
      "created_at" := c.createdAt,
      "duration" := c.duration,
      "user_info" := c.userInfo,
      "extra" := Dict(c.extra)]
  }

  /** The context as an object whose attributes a dotted path can reach. */
  function ContextObject(c: RequestContext): Value {
    Object("RequestContext", Attrs(c))
  }

  /** `to_dict`: the attributes without the HTTP request, and with the request
    * body replaced by its JSON dump when there is one. */
  function ContextDict(c: RequestContext): (d: map<string, Value>)
    ensures "http_request" !in d
    ensures d.Keys == Attrs(c).Keys - {"http_request"}
    ensures d["request"] == (if c.request.Some? then Dump(c.request.value) else Null)
    ensures forall k :: k in d && k != "request" ==> d[k] == Attrs(c)[k]
  {
    var data := Attrs(c) - {"http_request"};
    if c.request.Some? then data["request" := Dump(c.request.value)] else data
  }

  /** The method itself: copy, delete, and overwrite the request entry. The
    * context is a value, so it is left as it was. */
  method ToDict(c: RequestContext) returns (data: map<string, Value>)
    ensures data == ContextDict(c)
  {
    data := Attrs(c);
    data := data - {"http_request"};
    if c.request.Some? {
      data := data["request" := Dump(c.request.value)];
    }
  }

  /** A fresh context exports its id and creation time, and no request. */
  lemma FreshContextIdentity(id: string, now: Value)
    ensures var d := ContextDict(NewContext(id, now));
      d["id"] == Str(id) && d["created_at"] == now && d["request"] == Null
  { }

  /** A fresh context exports `None` for the response, the error and the group. */
  lemma FreshContextNoOutcome(id: string, now: Value)
    ensures var d := ContextDict(NewContext(id, now));
      d["response"] == Null && d["error"] == Null && d["group"] == Null
  { }

  /** A fresh context exports no connection or model, and empty dicts for the
    * parameters and extras. */
  lemma FreshContextUnrouted(id: string, now: Value)
    ensures var d := ContextDict(NewContext(id, now));
      d["connection"] == Null && d["model"] == Null
      && d["llm_params"] == Dict(map[]) && d["extra"] == Dict(map[])
  { }
}
