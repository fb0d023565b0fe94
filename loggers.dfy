/**
 * Turning a request context into a log entry and handing it to a writer:
 * either a configured mapping from entry keys to dotted paths into the
 * context, a custom transformer, or, with none, the context's own export.
 */
module Loggers {
  import opened Wrappers
  import opened PyStr
  import opened Values
  import opened Utils
  import opened BaseTypes

  /** The entry a `LogEntryTransformer` with this key-to-path mapping makes:
    * each configured key holds what its path resolves to, `None` when it
    * does not resolve. */
  function MappedEntry(mapping: map<string, string>, c: RequestContext): (r: map<string, Value>)
    ensures r.Keys == mapping.Keys
    ensures forall k :: k in r ==> r[k] == Resolve(ContextObject(c), mapping[k], Null)
  {
    map k | k in mapping :: Resolve(ContextObject(c), mapping[k], Null)
  }

  /** `LogEntryTransformer.__call__`: fill the result one configured key at a
    * time. */
  method TransformEntry(mapping: map<string, string>, c: RequestContext) returns (result: map<string, Value>)
    ensures result == MappedEntry(mapping, c)
  {
    result := map[];
    var todo := mapping.Keys;
    while todo != {}
      invariant todo <= mapping.Keys
      invariant result.Keys == mapping.Keys - todo
      invariant forall k :: k in result ==> result[k] == Resolve(ContextObject(c), mapping[k], Null)
      decreases |todo|
    {
      var key :| key in todo;
      var value := ResolveObjPath(ContextObject(c), mapping[key], Null);
      result := result[key := value];
      todo := todo - {key};
    }
  }

  /** The entry transformer a logger was configured with. */
  datatype Transformer =
    | NoTransformer
    | Mapping(mapping: map<string, string>)
    | Custom(f: RequestContext -> map<string, Value>)

  /** `_transform`: the transformer's entry, or the context's export when
    * there is none. */
  function Transform(t: Transformer, c: RequestContext): (r: map<string, Value>)
    ensures t.NoTransformer? ==> r == ContextDict(c) && "http_request" !in r
    ensures t.Mapping? ==> r == MappedEntry(t.mapping, c) && r.Keys == t.mapping.Keys
    ensures t.Custom? ==> r == t.f(c)
  {
    match t
    case NoTransformer => ContextDict(c)
    case Mapping(m) => MappedEntry(m, c)
    case Custom(f) => f(c)
  }

  /** A logger; `written` holds what its writer has been handed, in order. */
  class Logger {
    const transformer: Transformer
    var written: seq<map<string, Value>>

    constructor (t: Transformer)
      ensures transformer == t && written == []
    {
      transformer := t;
      written := [];
    }

    /** One call hands the writer exactly one entry, the transformed one. */
    method Log(c: RequestContext)
      modifies this
      ensures written == old(written) + [Transform(transformer, c)]
    {
      var entry := Transform(transformer, c);
      written := written + [entry];
    }
  }

  // -------------------------------------------------------------- properties

  /** A path that does not resolve gives `None` and nothing fails. */
  lemma UnresolvedPathIsNone(mapping: map<string, string>, c: RequestContext, key: string)
    requires key in mapping && Walk(ContextObject(c), Split(mapping[key], ".")).None?
    ensures MappedEntry(mapping, c)[key] == Null
  { }

  /** A path without dots is one step. */
  lemma ResolveOneSegment(obj: Value, p: string)
    requires forall i :: 0 <= i < |p| ==> p[i] != '.'
    ensures Resolve(obj, p, Null) == Step(obj, p).GetOr(Null)
  {
    NoCharNoOccurrence(p, '.');
    SplitOfFree(p, ".");
    var parts := Split(p, ".");
    assert parts[0] == p && parts[1..] == [];
    match Step(obj, p)
    case None =>
    case Some(n) => assert Walk(n, parts[1..]) == Some(n);
  }

  /** A path with one dot is two steps. */
  lemma ResolveTwoSegments(obj: Value, p1: string, p2: string)
    requires forall i :: 0 <= i < |p1| ==> p1[i] != '.'
    requires forall i :: 0 <= i < |p2| ==> p2[i] != '.'
    ensures Resolve(obj, p1 + "." + p2, Null)
         == (match Step(obj, p1) case None => Null case Some(o) => Step(o, p2).GetOr(Null))
  {
    NoCharNoOccurrence(p1, '.');
    assert p1 + "."[..0] == p1;
    SplitHead(p1, ".", p2);
    NoCharNoOccurrence(p2, '.');
    SplitOfFree(p2, ".");
    var parts := Split(p1 + "." + p2, ".");
    assert parts == [p1, p2];
    assert parts[0] == p1 && parts[1..] == [p2] && parts[1..][0] == p2 && parts[1..][1..] == [];
    match Step(obj, p1)
    case None =>
    case Some(o) =>
      assert Walk(obj, parts) == Walk(o, parts[1..]);
      match Step(o, p2)
      case None =>
      case Some(n) => assert Walk(n, parts[1..][1..]) == Some(n);
  }

  /** A path without dots names an attribute of the context: the entry holds
    * that attribute when the context has it, `None` otherwise. */
  lemma AttributePath(mapping: map<string, string>, c: RequestContext, key: string)
    requires key in mapping
    requires forall i :: 0 <= i < |mapping[key]| ==> mapping[key][i] != '.'
    ensures MappedEntry(mapping, c)[key]
         == (if mapping[key] in Attrs(c) then Attrs(c)[mapping[key]] else Null)
  {
    ResolveOneSegment(ContextObject(c), mapping[key]);
  }

  /** `request.model` reads the model of the request body, and gives `None`
    * for a context without one. */
  lemma RequestModelPath(c: RequestContext)
    ensures Resolve(ContextObject(c), "request.model", Null)
         == (if c.request.Some? then Str(c.request.value.model) else Null)
  {
    assert "request.model" == "request" + "." + "model";
    ResolveTwoSegments(ContextObject(c), "request", "model");
    RequestAttribute(c);
    if c.request.Some? {
      RequestObjectModel(c.request.value);
    }
  }

  lemma RequestAttribute(c: RequestContext)
    ensures "request" in Attrs(c)
    ensures Attrs(c)["request"] == if c.request.Some? then RequestObject(c.request.value) else Null
  { }

  lemma RequestObjectModel(r: ChatRequest)
    ensures RequestObject(r).Object? && "model" in RequestObject(r).attrs
    ensures RequestObject(r).attrs["model"] == Str(r.model)
  { }

  /** A logger with no transformer writes the context's export, which never
    * carries the HTTP request. */
  lemma DefaultEntryIsExport(c: RequestContext)
    ensures Transform(NoTransformer, c) == ContextDict(c)
    ensures "http_request" !in Transform(NoTransformer, c)
  { }
}
