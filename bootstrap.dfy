/**
 * The wrapper that injects configured extra headers into every call of an
 * LLM function: request-level headers override the configured ones key by
 * key, protected headers are dropped, and an `AttributeError` raised by the
 * callee (an upstream that answered with HTML instead of JSON) is turned into
 * a `ValueError` that says so.
 */
module Bootstrap {
  import opened Wrappers
  import opened PyStr
  import opened Values
  import opened Utils

  /** How a call of the LLM function ends. */
  datatype CallOutcome = Returned(value: Value) | Failed(error: PyException)

  /** An LLM function: a prompt and keyword arguments to an outcome. */
  type LlmFunc = (Value, map<string, Value>) -> CallOutcome

  /** What `create_llm_wrapper` hands back: the function itself, or the
    * wrapper closing over the configured headers. */
  datatype Wrapper = Unwrapped | Injecting(headers: map<string, string>)

  const ExtraHeadersKey := "extra_headers"

  const InvalidFormatPrefix :=
    "Upstream provider returned invalid response format. "
    + "This often happens when the API returns HTML error page instead of JSON. "
    + "Original error: "

  /** `create_llm_wrapper`: without headers (none, or an empty dict) the
    * function is returned as it is. */
  function CreateLlmWrapper(extraHeaders: Option<map<string, string>>): (w: Wrapper)
    ensures w.Unwrapped? <==> extraHeaders.None? || extraHeaders.value == map[]
    ensures w.Injecting? ==> w.headers == extraHeaders.value && w.headers != map[]
  {
    if extraHeaders.None? || extraHeaders.value == map[] then Unwrapped
    else Injecting(extraHeaders.value)
  }

  /** The request-level headers a caller may pass: absent, `None`, or a dict. */
  predicate WellTypedKwargs(kwargs: map<string, Value>) {
    ExtraHeadersKey in kwargs ==> kwargs[ExtraHeadersKey].Null? || kwargs[ExtraHeadersKey].Dict?
  }

  /** The headers popped from the keyword arguments, `None` when absent. */
  function RequestHeaders(kwargs: map<string, Value>): (r: Option<map<string, Value>>)
    requires WellTypedKwargs(kwargs)
    ensures r.Some? <==> ExtraHeadersKey in kwargs && kwargs[ExtraHeadersKey].Dict?
    ensures r.Some? ==> r.value == kwargs[ExtraHeadersKey].entries
  {
    if ExtraHeadersKey in kwargs && kwargs[ExtraHeadersKey].Dict? then Some(kwargs[ExtraHeadersKey].entries)
    else None
  }

  /** The merged headers: the configured ones updated by the request's, with
    * protected names removed. */
  function MergedHeaders(config: map<string, string>, kwargs: map<string, Value>): map<string, Value>
    requires WellTypedKwargs(kwargs)
  {
    Merge(Some(StrDict(config)), RequestHeaders(kwargs), true)
  }

  /** The keyword arguments the callee receives. */
  function ForwardedKwargs(config: map<string, string>, kwargs: map<string, Value>): (r: map<string, Value>)
    requires WellTypedKwargs(kwargs)
    ensures ExtraHeadersKey in r <==> MergedHeaders(config, kwargs) != map[]
    ensures ExtraHeadersKey in r ==> r[ExtraHeadersKey] == Dict(MergedHeaders(config, kwargs))
    ensures forall k :: k != ExtraHeadersKey ==> (k in r <==> k in kwargs)
    ensures forall k :: k != ExtraHeadersKey && k in r ==> r[k] == kwargs[k]
  {
    var rest := kwargs - {ExtraHeadersKey};
    var merged := MergedHeaders(config, kwargs);
    if merged != map[] then rest[ExtraHeadersKey := Dict(merged)] else rest
  }

  /** The `ValueError` raised in place of an `AttributeError`. */
  function InvalidFormat(e: PyException): PyException {
    PyException("ValueError", InvalidFormatPrefix + e.text, ExceptionBases)
  }

  /** What the caller sees of the callee's outcome: `except AttributeError`
    * catches the class and every subclass of it. */
  function Translate(out: CallOutcome): (r: CallOutcome)
    ensures out.Returned? ==> r == out
    ensures out.Failed? && IsInstance(out.error, "AttributeError") ==>
      r.Failed? && r.error.typeName == "ValueError" && r.error.text == InvalidFormatPrefix + out.error.text
    ensures out.Failed? && !IsInstance(out.error, "AttributeError") ==> r == out
  {
    if out.Failed? && IsInstance(out.error, "AttributeError") then Failed(InvalidFormat(out.error))
    else out
  }

  /** Calling what `create_llm_wrapper` returned. */
  function Call(w: Wrapper, llm: LlmFunc, prompt: Value, kwargs: map<string, Value>): CallOutcome
    requires w.Injecting? ==> WellTypedKwargs(kwargs)
  {
    match w
    case Unwrapped => llm(prompt, kwargs)
    case Injecting(h) => Translate(llm(prompt, ForwardedKwargs(h, kwargs)))
  }

  /** The wrapper's first half: pop the request headers, merge them over the
    * configured ones, and set them back only when the merge is not empty. */
  method InjectHeaders(config: map<string, string>, kwargs: map<string, Value>)
    returns (kw: map<string, Value>)
    requires WellTypedKwargs(kwargs)
    ensures kw == ForwardedKwargs(config, kwargs)
  {
    kw := kwargs;
    var requestHeaders: Option<map<string, Value>> := None;
    if ExtraHeadersKey in kw {
      var popped := kw[ExtraHeadersKey];
      kw := kw - {ExtraHeadersKey};
      if popped.Dict? {
        requestHeaders := Some(popped.entries);
      }
    }
    ghost var rest := kwargs - {ExtraHeadersKey};
    assert kw == rest;
    assert requestHeaders == RequestHeaders(kwargs);
    var merged := MergeHeaders(Some(StrDict(config)), requestHeaders, true);
    if merged != map[] {
      kw := kw[ExtraHeadersKey := Dict(merged)];
    }
    assert kw == if merged != map[] then rest[ExtraHeadersKey := Dict(merged)] else rest;
  }

  /** The wrapper: inject the headers, call, and re-raise an `AttributeError`
    * as a `ValueError`. */
  method CallWrapper(config: map<string, string>, llm: LlmFunc, prompt: Value, kwargs: map<string, Value>)
    returns (out: CallOutcome)
    requires WellTypedKwargs(kwargs)
    ensures out == Call(Injecting(config), llm, prompt, kwargs)
  {
    var kw := InjectHeaders(config, kwargs);
    var result := llm(prompt, kw);
    if result.Failed? && IsInstance(result.error, "AttributeError") {
      out := Failed(InvalidFormat(result.error));
    } else {
      out := result;
    }
    assert out == Translate(result);
  }

  // -------------------------------------------------------------- properties

  /** Without configured headers the callee sees exactly the caller's call. */
  lemma NoHeadersNoWrapping(extraHeaders: Option<map<string, string>>, llm: LlmFunc,
                            prompt: Value, kwargs: map<string, Value>)
    requires extraHeaders.None? || extraHeaders.value == map[]
    ensures Call(CreateLlmWrapper(extraHeaders), llm, prompt, kwargs) == llm(prompt, kwargs)
  { }

  /** With no request-level headers, each configured header that is not
    * protected reaches the callee with its configured value, and nothing else
    * is in the injected headers. */
  lemma ConfigHeadersReachCallee(config: map<string, string>, kwargs: map<string, Value>)
    requires ExtraHeadersKey !in kwargs
    requires exists k :: k in config && !IsSensitive(k)
    ensures var r := ForwardedKwargs(config, kwargs);
      ExtraHeadersKey in r && r[ExtraHeadersKey].Dict?
      && (forall k :: k in r[ExtraHeadersKey].entries <==> k in config && !IsSensitive(k))
      && (forall k :: k in r[ExtraHeadersKey].entries ==> r[ExtraHeadersKey].entries[k] == Str(config[k]))
  {
    var k :| k in config && !IsSensitive(k);
    assert k in MergedHeaders(config, kwargs);
  }

  /** Request-level headers win key by key; configured keys the request does
    * not mention are kept. */
  lemma RequestHeadersOverride(config: map<string, string>, kwargs: map<string, Value>, k: string)
    requires ExtraHeadersKey in kwargs && kwargs[ExtraHeadersKey].Dict?
    requires !IsSensitive(k)
    requires k in config || k in kwargs[ExtraHeadersKey].entries
    ensures var r := ForwardedKwargs(config, kwargs);
      var req := kwargs[ExtraHeadersKey].entries;
      ExtraHeadersKey in r
      && k in r[ExtraHeadersKey].entries
      && r[ExtraHeadersKey].entries[k] == (if k in req then req[k] else Str(config[k]))
  {
    assert k in MergedHeaders(config, kwargs);
  }

  /** A protected header never reaches the callee, from either source. */
  lemma SensitiveNeverForwarded(config: map<string, string>, kwargs: map<string, Value>, k: string)
    requires WellTypedKwargs(kwargs)
    requires IsSensitive(k)
    ensures var r := ForwardedKwargs(config, kwargs);
      ExtraHeadersKey in r ==> k !in r[ExtraHeadersKey].entries
  { }

  /** When everything merged is protected, no `extra_headers` argument is
    * passed at all, even if the caller gave one. */
  lemma EmptyMergeDropsArgument(config: map<string, string>, kwargs: map<string, Value>)
    requires WellTypedKwargs(kwargs)
    requires forall k :: k in config ==> IsSensitive(k)
    requires RequestHeaders(kwargs).Some? ==> forall k :: k in RequestHeaders(kwargs).value ==> IsSensitive(k)
    ensures ExtraHeadersKey !in ForwardedKwargs(config, kwargs)
  {
    assert MergedHeaders(config, kwargs).Keys == {};
  }

  /** The prompt passes through and so does every other keyword argument. */
  lemma OtherArgumentsPassThrough(config: map<string, string>, llm: LlmFunc, prompt: Value,
                                  kwargs: map<string, Value>)
    requires WellTypedKwargs(kwargs)
    ensures Call(Injecting(config), llm, prompt, kwargs) == Translate(llm(prompt, ForwardedKwargs(config, kwargs)))
    ensures ForwardedKwargs(config, kwargs) - {ExtraHeadersKey} == kwargs - {ExtraHeadersKey}
  {
    RestUnchanged(config, kwargs);
  }

  lemma RestUnchanged(config: map<string, string>, kwargs: map<string, Value>)
    requires WellTypedKwargs(kwargs)
    ensures ForwardedKwargs(config, kwargs) - {ExtraHeadersKey} == kwargs - {ExtraHeadersKey}
  {
    var r := ForwardedKwargs(config, kwargs);
    var a, b := r - {ExtraHeadersKey}, kwargs - {ExtraHeadersKey};
    assert a.Keys == b.Keys;
    assert forall k :: k in a ==> a[k] == b[k];
  }

  /** An `AttributeError`, or an instance of a subclass of it, from the callee
    * surfaces as a `ValueError` whose message explains the likely cause and
    * ends with the original message. */
  lemma AttributeErrorBecomesValueError(config: map<string, string>, llm: LlmFunc, prompt: Value,
                                        kwargs: map<string, Value>)
    requires WellTypedKwargs(kwargs)
    requires llm(prompt, ForwardedKwargs(config, kwargs)).Failed?
    requires IsInstance(llm(prompt, ForwardedKwargs(config, kwargs)).error, "AttributeError")
    ensures var out := Call(Injecting(config), llm, prompt, kwargs);
      var text := llm(prompt, ForwardedKwargs(config, kwargs)).error.text;
      out.Failed? && out.error.typeName == "ValueError"
      && StartsWith(out.error.text, InvalidFormatPrefix)
      && out.error.text[|InvalidFormatPrefix|..] == text
  {
    var t := InvalidFormatPrefix + llm(prompt, ForwardedKwargs(config, kwargs)).error.text;
    assert t[..|InvalidFormatPrefix|] == InvalidFormatPrefix;
  }

  /** A subclass the standard library defines, `dataclasses.FrozenInstanceError`,
    * is converted like `AttributeError` itself; a `KeyError` is not. */
  lemma SubclassOfAttributeErrorConverted(text: string)
    ensures var e := PyException("FrozenInstanceError", text, ["AttributeError"] + ExceptionBases);
      Translate(Failed(e)) == Failed(InvalidFormat(e))
    ensures var e := PyException("KeyError", text, ["LookupError"] + ExceptionBases);
      Translate(Failed(e)) == Failed(e)
  {
    assert "AttributeError" in ["AttributeError"] + ExceptionBases;
    assert "KeyError" != "AttributeError" && "AttributeError" !in ["LookupError"] + ExceptionBases;
  }
}
