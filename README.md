# lm-proxy core, modelled in Dafny

lm-proxy is an OpenAI-compatible HTTP proxy in front of LLM providers. This
project models its deterministic core and proves properties of that model:

- the header utilities: sensitive-header filtering, header merging, recursive
  `env:` substitution, dotted-path lookup, and client-address extraction;
- the middleware chain, which nests each middleware around the rest of the
  chain and records every run as a trace of events;
- the server-sent-event stream of a chat completion: the chunk objects, their
  exact JSON text (`json.dumps` with `ensure_ascii`), the `data: …\n\n`
  frames, and the non-streamed reply;
- the wrapper that injects configured headers into LLM calls;
- the two API-key checkers: the first-match search over configured groups, and
  the check that asks an external service;
- the request context record and its `to_dict` export;
- the log-entry projection and the logger call;
- the configuration defaults and the one-level `env:` rewrite of connection
  settings.

Python values are a `Values.Value` datatype. JSON text is a separate ordered
`JsonText.Json` datatype, so frames are compared character by character.
Upstream calls, HTTP clients, the environment, clocks and random tokens are
parameters.

Files:

- `wrappers.dfy`: `Option`.
- `pystr.dfy`: the Python `str` operations the code uses.
- `values.dfy`: Python values.
- `utils.dfy`: header utilities.
- `middleware.dfy`: the middleware chain.
- `json_text.dfy`: the JSON encoder and a decoder for string bodies.
- `sse.dfy`: event-stream framing and a client's reading of it.
- `app.dfy`: the streamed and plain replies.
- `bootstrap.dfy`: the header-injecting wrapper.
- `api_key_in_config.dfy` and `api_key_with_request.dfy`: the API-key checkers.
- `base_types.dfy`: the request context.
- `loggers.dfy`: log-entry projection and the logger.
- `config.dfy`: configuration defaults and connection env substitution.

## Model

| member | source | states |
|---|---|---|
| Utils.FilterSensitiveHeaders | lm_proxy/utils.py:157-167 | a key is kept iff its lower-case form is not one of the sensitive names, and kept keys keep their values (so the result is a sub-map, and `{}` filters to `{}`) |
| Utils.IsSensitive | lm_proxy/utils.py:119-167 | a name is protected iff its lower-case form is one of the names of `SENSITIVE_HEADERS`, which the constant `Utils.SensitiveHeaders` lists exactly |
| Utils.FilterRemovesEveryCasing | lm_proxy/utils.py:119-167 | two keys of one map that lower-case alike are both dropped when that form is listed, and otherwise both kept with their own values |
| Utils.FilterIdempotent | lm_proxy/utils.py:157-167 | filtering twice is filtering once |
| Utils.AuthorizationIsSensitive | lm_proxy/utils.py:119-123 | every spelling of `authorization` with any letters upper-cased is a sensitive name |
| Utils.CustomHeaderNotSensitive | lm_proxy/utils.py:119-167 | every name starting with `x` or `X` is not sensitive, and such a header survives filtering with its value |
| Utils.Merge | lm_proxy/utils.py:170-191 | a key is in the merge iff either side has it and it is not filtered out; override values win on shared keys; other keys carry the base value; `None` counts as empty |
| Utils.MergeHeaders | lm_proxy/utils.py:186-191 | copying the base, updating it with the override and filtering gives exactly `Merge` |
| Utils.MergeNeverSetsSensitive | lm_proxy/utils.py:189-190 | with filtering on, no sensitive key is in the merge, whichever side supplied it |
| Utils.MergeUnfiltered | lm_proxy/utils.py:186-188 | with filtering off, the merge is exactly the base updated by the override |
| Utils.MergeIdempotent | lm_proxy/utils.py:170-191 | merging the same override a second time changes nothing |
| Utils.ReplaceEnvStringsRecursive | lm_proxy/utils.py:98-114 | dicts stay dicts with the same keys and each entry substituted, lists stay lists of the same length with each item substituted, an `env:NAME` string becomes the variable's value or `""`, every other leaf is unchanged |
| Utils.ReplaceEnvAlongPath | lm_proxy/utils.py:105-112 | an `env:NAME` string at any depth, reached through dicts and lists, is replaced at the same path by the variable's value or `""` |
| Utils.ReplaceEnvNestedExamples | tests/test_utils.py:55-58 | `[["env:X"]]` and `{"data": {"field": "env:X"}}` become the same shapes holding the value of `X` |
| Utils.ReplaceEnvIdentity | lm_proxy/utils.py:98-114 | a tree without `env:` strings at any depth comes back unchanged |
| Utils.ReplaceEnvLeavesNoRef | lm_proxy/utils.py:98-114 | when no variable's value starts with `env:`, no `env:` string remains anywhere in the result |
| Utils.ReplaceEnvIdempotent | lm_proxy/utils.py:98-114 | under the same condition, substituting twice is substituting once |
| Utils.PyIndex | lm_proxy/utils.py:23-25 | list indexing succeeds exactly for `-len <= n < len`, counting from the end for negative `n` |
| Utils.Step | lm_proxy/utils.py:21-29 | a dict step succeeds iff the key is present, and gives its value; an object step iff the attribute exists; a list step iff the segment is an integer `n` with `-len <= n < len`, and gives element `n` counted from the end when negative; a step into a scalar fails |
| Utils.Walk | lm_proxy/utils.py:19-29 | the value the segments lead to, step by step, or none at the first failing step |
| Utils.Resolve | lm_proxy/utils.py:14-30 | the value `path` split at `.` leads to, or the default |
| Utils.WalkAppend | lm_proxy/utils.py:19-30 | following a concatenation of segments is following the first part, then the second from where it stopped |
| Utils.ResolveTwoKeys | lm_proxy/utils.py:14-30 | `a.b` over nested dicts gives `obj[a][b]` |
| Utils.ResolveListIndex | lm_proxy/utils.py:14-30 | `key.n` over a dict holding a list gives element `n` of the list, the last element for `-1`, and the default when `n` is out of range |
| Utils.WalkFailsAtSegment | lm_proxy/utils.py:28-29 | once one segment fails, the whole path fails (and `resolve_obj_path` gives the default) |
| Utils.WalkExtend | lm_proxy/utils.py:19-27 | a successful step extends the resolved prefix by one segment |
| Utils.ResolveObjPath | lm_proxy/utils.py:14-30 | the loop returns the value the segments lead to, or the default at the first failing segment |
| Utils.HeaderGet | lm_proxy/utils.py:85-89 | the lookup finds the first header with the requested name, and finds none iff no header has that name |
| Utils.GetClientIp | lm_proxy/utils.py:80-95 | the first `X-Forwarded-For` entry, stripped; else `X-Real-IP`; else the text between the first `for=` and any second one, cut at the first `;` and stripped; else the peer host or `"unknown"`; an empty header counts as absent |
| Utils.ClientIpFirstHop | lm_proxy/utils.py:85-86 | of `X-Forwarded-For: first,rest` only `first`, stripped, is returned |
| Utils.ClientIpFallback | lm_proxy/utils.py:94-95 | without headers the result is the peer host, or `"unknown"` |
| Utils.ForwardedListAsWritten | lm_proxy/utils.py:89-92 | for `Forwarded: for=A, for=B` the address returned is `A,`, not `A` |
| Utils.ForwardedForCorrectedFirst | lm_proxy/utils.py:89-92 | the corrected reading returns `A` whether `for=A` is followed by nothing, by `;` parameters or by further `,` elements |
| Utils.ForwardedFor | lm_proxy/utils.py:92 | the address after the first `for=` holds no `;` and has no whitespace at either end |
| Utils.StopAt | lm_proxy/utils.py:92 | the cut text has no `;` or `,`, is a prefix, and stops only at one of them |
| PyStr.Lower | lm_proxy/utils.py:167 | `k.lower()` maps each character to its lower-case form and keeps the length |
| PyStr.Strip | lm_proxy/utils.py:86 | `strip()` is a slice of the input with no whitespace at either end, and everything cut off before and after it is whitespace |
| PyStr.Find | lm_proxy/utils.py:91 | `sub in s` holds iff a first occurrence exists; the index found is an occurrence and no earlier index is |
| PyStr.Split | lm_proxy/utils.py:19 | `split(sep)` gives at least one part; a string without `sep` gives itself; a string with it gives at least two parts |
| PyStr.SplitJoin | lm_proxy/utils.py:19 | joining the parts with the separator gives back the string |
| PyStr.SplitOnce | lm_proxy/config.py:36 | `split(sep, 1)` gives two parts iff `sep` occurs; then the first part has no `sep` and the parts joined by `sep` give back the string |
| PyStr.Replace | lm_proxy/api_key_check/with_request.py:24 | `str.replace`: every occurrence, leftmost first and without overlap, is replaced |
| PyStr.ReplaceIsSplitJoin | lm_proxy/api_key_check/with_request.py:24 | `replace` with a non-empty pattern is splitting at the pattern and joining with the replacement |
| PyStr.ParseInt | lm_proxy/utils.py:24 | `int(part)`: an optional sign and ASCII digits, with single underscores between digits, inside optional whitespace; anything else is not an integer |
| PyStr.IntRoundTrip | lm_proxy/utils.py:24 | `int(str(n)) == n` for every integer |
| PyStr.Repr | lm_proxy/app.py:94 | `repr` of a string is quoted by one kind of quote at both ends |
| Middleware.RunChain | lm_proxy/middleware.py:28-38 | a run of the nested chain: the trace of events of every middleware reached and of the handler, and how the run ended |
| Middleware.Fold | lm_proxy/middleware.py:28-36 | the chain is the terminal handler iff there are no middlewares; otherwise the first middleware is outermost |
| Middleware.BuildChain | lm_proxy/middleware.py:34-36 | the loop over the reversed list builds exactly the fold |
| Middleware.RunMiddlewareChain | lm_proxy/middleware.py:19-38 | the empty case and the built chain both run as the fold does |
| Middleware.Decompose | lm_proxy/middleware.py:28-38 | behind a prefix of passing middlewares, a run is their entries, the inner run, and, only if that completed, their exits innermost first |
| Middleware.EmptyChainRunsHandler | lm_proxy/middleware.py:24-26 | with no middleware the handler runs exactly once and nothing else happens |
| Middleware.PassingChainRunsAll | lm_proxy/middleware.py:34-38 | passing middlewares are entered in declared order, the handler runs exactly once, and the run ends as the handler did |
| Middleware.BaseChainCallsHandlerOnce | lm_proxy/middleware.py:11-13 | a chain of base middlewares records one invocation each, in order, then the handler, and nothing else |
| Middleware.ShortCircuitStops | lm_proxy/middleware.py:28-38 | a middleware that does not call its continuation stops every later middleware and the handler |
| Middleware.RaisePropagates | lm_proxy/middleware.py:19-38 | a middleware that raises ends the run with its error; no after-code of outer middlewares runs |
| Middleware.HandlerFailurePropagates | lm_proxy/middleware.py:19-38 | a failing handler's error reaches the caller through every middleware |
| Middleware.AfterCodeSeesInner | lm_proxy/middleware.py:28-31 | between an around-middleware's before and after events lies exactly the run of the rest of the chain |
| Middleware.SameContext | lm_proxy/middleware.py:29-30 | every middleware control reaches is given the same context |
| JsonText.EscapeChar | lm_proxy/app.py:68 | each escaped character is printable ASCII |
| JsonText.Dumps | lm_proxy/app.py:68 | the encoding of any JSON value is printable ASCII, so it never holds a line break |
| JsonText.FieldAt | lm_proxy/app.py:56-67 | a member lookup finds the first member with that key |
| JsonText.Hex4RoundTrip | lm_proxy/app.py:68 | decoding a four-digit `\u` escape gives back its code unit |
| JsonText.UnescapeEscape | lm_proxy/app.py:68 | decoding the body of an encoded string gives back the string |
| Sse.Frames | lm_proxy/app.py:68 | frame `i` is `data: ` + payload `i` + a blank line |
| Sse.SplitFrames | lm_proxy/app.py:68 | concatenated frames split at line feeds into one data line and one blank line per payload |
| Sse.DispatchFrames | lm_proxy/app.py:68 | dispatching those lines gives back the payloads |
| Sse.EventsOfFrames | lm_proxy/app.py:68 | a client parsing the concatenated frames gets back every payload without a line feed, in order |
| App.StreamId | lm_proxy/app.py:46 | the stream id is printable, `chatcmpl-` followed by the two lower-case hex digits of each random byte in order |
| App.HexBytes | lm_proxy/app.py:46 | `token_hex`: two lower-case hex digits per byte, in order |
| App.StreamIdCarriesToken | lm_proxy/app.py:46 | each random byte is read back from its two digits of the id |
| App.ChunkObject | lm_proxy/app.py:56-65 | a chunk object's members are `id`, `object`, `created` and `choices`, then `error` exactly when an error is given |
| App.MakeChunk | lm_proxy/app.py:53-68 | a chunk is one event: `data: `, a printable JSON text, and a blank line |
| App.ChunkObjectFields | lm_proxy/app.py:53-68 | a chunk has the stream's id and `created`, object `chat.completion.chunk`, one choice, and an error member exactly when an error is given |
| App.ChunkChoiceFields | lm_proxy/app.py:54-67 | the choice has index 0; the delta is the given one, else `{"content": …}`, else empty; the finish reason is the given one, else `"error"` when there is an error, else absent |
| App.StreamObjects | lm_proxy/app.py:74-97 | a stream holds one chunk per upstream chunk plus the role and stop chunks, plus one error chunk when the call failed |
| App.StreamObjectAt | lm_proxy/app.py:74-97 | chunk `k` is the role chunk, then content chunk `k-1`, then the error chunk, then the stop chunk |
| App.StreamFrames | lm_proxy/app.py:74-98 | one frame per chunk object plus `[DONE]`: the upstream chunks plus three, or four when the call failed, ending with `data: [DONE]` |
| App.StreamPayloads | lm_proxy/app.py:68-98 | the body carries one payload per chunk object plus the closing `[DONE]` |
| App.ProcessStream | lm_proxy/app.py:44-98 | the two loops and the final frames yield exactly the stream's frames, however many chunks arrived before the task finished |
| App.RoleChunkFirst | lm_proxy/app.py:76 | the first chunk's delta is `{"role": "assistant"}`, with no finish reason |
| App.ContentChunksInOrder | lm_proxy/app.py:78-88 | upstream chunk `k` gives content chunk `k`, with `{"content": text}` or an empty delta for `None`, no finish reason and no error |
| App.ErrorChunkAfterContent | lm_proxy/app.py:90-94 | after the content, a failed call adds one error chunk whose finish reason is `"error"` |
| App.StopChunkLast | lm_proxy/app.py:97 | the last chunk has finish reason `"stop"` and no error |
| App.OnlyErrorChunkHasError | lm_proxy/app.py:62-65 | only the chunk after the content of a failed call carries an error |
| App.ChunksShareIdentity | lm_proxy/app.py:56-61 | every chunk has the same id and `created`, object type `chat.completion.chunk`, and one choice with index 0 |
| App.StreamEndsWithDone | lm_proxy/app.py:97-98 | the stream ends with the stop frame and `data: [DONE]\n\n` |
| App.ClientReadsPayloads | lm_proxy/app.py:68-98 | a client reading the body gets every chunk's JSON, then `[DONE]`, in order |
| App.ErrorChunkAsWritten | lm_proxy/app.py:62-94 | as written, the error chunk's type is `dict` and its message is the repr of the dict the except clause builds |
| App.ErrorChunkAsWrittenLosesType | lm_proxy/app.py:93-94 | so an exception whose type is not `dict` never has its own type reported |
| App.ErrorChunkCorrected | lm_proxy/app.py:62-94 | passing the exception itself reports its own text and type name |
| App.CompletionResponse | lm_proxy/app.py:119-129 | the plain reply object; its fields are stated by `App.CompletionResponseFields` |
| App.CompletionResponseFields | lm_proxy/app.py:119-129 | the plain reply has one choice: index 0, role `assistant`, content `str(out)`, finish reason `"stop"` |
| Bootstrap.CreateLlmWrapper | lm_proxy/bootstrap.py:44-62 | the function is returned unwrapped iff the headers are `None` or empty; otherwise the wrapper holds them |
| Bootstrap.RequestHeaders | lm_proxy/bootstrap.py:66 | request-level headers are found iff `extra_headers` was passed as a dict, and are then that dict |
| Bootstrap.ForwardedKwargs | lm_proxy/bootstrap.py:64-71 | `extra_headers` is passed iff the merge is non-empty, and then holds the merge; every other keyword argument passes through unchanged |
| Bootstrap.Translate | lm_proxy/bootstrap.py:72-81 | an instance of `AttributeError` or of any subclass of it becomes a `ValueError` with the explanatory prefix and the original message; every other outcome is unchanged |
| Bootstrap.InjectHeaders | lm_proxy/bootstrap.py:66-71 | popping, merging and setting the headers in place gives exactly the forwarded arguments |
| Bootstrap.CallWrapper | lm_proxy/bootstrap.py:64-81 | the wrapper's body behaves as the wrapped call |
| Bootstrap.NoHeadersNoWrapping | lm_proxy/bootstrap.py:61-62 | without configured headers, the callee gets exactly the caller's call, whatever the keyword arguments hold |
| Bootstrap.ConfigHeadersReachCallee | lm_proxy/bootstrap.py:64-71 | without request headers, the callee's `extra_headers` are exactly the non-sensitive configured headers |
| Bootstrap.RequestHeadersOverride | lm_proxy/bootstrap.py:66-69 | request headers win key by key; configured-only keys are kept |
| Bootstrap.SensitiveNeverForwarded | lm_proxy/bootstrap.py:69 | no sensitive header reaches the callee from either source |
| Bootstrap.EmptyMergeDropsArgument | lm_proxy/bootstrap.py:66-71 | when every configured and every request-level header is sensitive, no `extra_headers` argument is passed |
| Bootstrap.OtherArgumentsPassThrough | lm_proxy/bootstrap.py:64-73 | the prompt and all other keyword arguments reach the callee unchanged |
| Bootstrap.AttributeErrorBecomesValueError | lm_proxy/bootstrap.py:74-81 | for an `AttributeError` or a subclass of it, the caller sees a `ValueError` whose text is the prefix followed by the original message |
| Bootstrap.SubclassOfAttributeErrorConverted | lm_proxy/bootstrap.py:74-81 | a `FrozenInstanceError`, a subclass of `AttributeError`, is converted; a `KeyError` passes through unchanged |
| ApiKeyInConfig.FirstAdmitting | lm_proxy/api_key_check/in_config.py:15-18 | the position found admits the key and no earlier group does; none is found iff no group admits it |
| ApiKeyInConfig.CheckApiKeyInConfig | lm_proxy/api_key_check/in_config.py:5-18 | `None` iff no group lists the key; any name returned is that of a group listing it |
| ApiKeyInConfig.CheckApiKeyLoop | lm_proxy/api_key_check/in_config.py:15-18 | the loop with its early return finds the same group |
| ApiKeyInConfig.FirstIs | lm_proxy/api_key_check/in_config.py:15-17 | the first group listing the key is the one found |
| ApiKeyInConfig.EarliestWins | lm_proxy/api_key_check/in_config.py:15-17 | a key in several groups is answered by the earliest |
| ApiKeyInConfig.LaterGroupNeverAnswers | lm_proxy/api_key_check/in_config.py:15-17 | with distinct group names, a group after one that lists the key never answers |
| ApiKeyInConfig.NoKeyNoGroup | lm_proxy/api_key_check/in_config.py:16 | no group admits a missing key |
| ApiKeyWithRequest.NewChecker | lm_proxy/api_key_check/with_request.py:7-18 | the defaults: method `get`, no headers, no user info, no group field, group `default`, placeholder `{api_key}`, no cache, 16384 entries, 300 s, 5 s |
| ApiKeyWithRequest.RequestHeaders | lm_proxy/api_key_check/with_request.py:25-28 | same header keys; each value is `str(v)` with every placeholder replaced by the key |
| ApiKeyWithRequest.BuildRequest | lm_proxy/api_key_check/with_request.py:24-34 | the request uses the configured method and timeout, the templated URL and the templated headers |
| ApiKeyWithRequest.Decide | lm_proxy/api_key_check/with_request.py:35-44 | a transport failure, an error status or an unparsable body refuses; without user info the default group; with it and no group field, the default group and the document; with a group field, `user_info[field]` or the default group; a non-dict document raises `AttributeError` |
| ApiKeyWithRequest.CheckFunc | lm_proxy/api_key_check/with_request.py:22-44 | the check decides on the outcome of the templated request |
| ApiKeyWithRequest.UrlIsSplitJoin | lm_proxy/api_key_check/with_request.py:24 | the URL is the template cut at every placeholder and joined with the key |
| ApiKeyWithRequest.TemplateWithoutPlaceholder | lm_proxy/api_key_check/with_request.py:24 | a template without the placeholder is sent unchanged |
| ApiKeyWithRequest.KeySubstituted | lm_proxy/api_key_check/with_request.py:24 | `prefix{api_key}suffix` becomes `prefix` + key + `suffix` |
| ApiKeyWithRequest.FailureNeverRaises | lm_proxy/api_key_check/with_request.py:35-44 | transport failures and error statuses give no group and raise nothing |
| ApiKeyWithRequest.RaisesOnlyOnNonDictUserInfo | lm_proxy/api_key_check/with_request.py:38-41 | the check raises only when user info is asked for with a group field and the document is not a dict, and then raises `AttributeError` |
| ApiKeyWithRequest.DefaultCheckerGrantsDefault | lm_proxy/api_key_check/with_request.py:7-42 | a default checker grants group `default`, with no user info, on any successful answer |
| BaseTypes.JsonMode | lm_proxy/base_types.py:61 | the JSON-mode dump holds no instance at any depth, keeps keys and lengths, and keeps scalars |
| BaseTypes.JsonModeOfJsonLike | lm_proxy/base_types.py:61 | a value holding no instance is its own dump |
| BaseTypes.JsonModeIdempotent | lm_proxy/base_types.py:61 | dumping twice is dumping once |
| BaseTypes.DumpShape | lm_proxy/base_types.py:16-61 | the request dump is a dict with one key per request field, holds no instance, and keeps the model name |
| BaseTypes.NewContext | lm_proxy/base_types.py:40-54 | a fresh context has its id and creation time; the request, response, error, group, connection and model are unset, and `llm_params` and `extra` are empty |
| BaseTypes.ContextDict | lm_proxy/base_types.py:56-62 | the export has no `http_request`; `request` is the request's dump when set and `None` otherwise; every other attribute is copied |
| BaseTypes.ToDict | lm_proxy/base_types.py:56-62 | copying, deleting and overwriting gives exactly the export, and the context is left as it was |
| BaseTypes.FreshContextIdentity | lm_proxy/base_types.py:40-62 | a fresh context exports its id and creation time, and `None` for the request |
| BaseTypes.FreshContextNoOutcome | lm_proxy/base_types.py:40-62 | a fresh context exports `None` for the response, the error and the group |
| BaseTypes.FreshContextUnrouted | lm_proxy/base_types.py:40-62 | a fresh context exports `None` for the connection and the model, and empty dicts for `llm_params` and `extra` |
| Loggers.MappedEntry | lm_proxy/loggers.py:23-31 | the entry has exactly the configured keys, each holding what its path resolves to against the context, `None` by default |
| Loggers.TransformEntry | lm_proxy/loggers.py:27-31 | the loop fills exactly that entry |
| Loggers.Transform | lm_proxy/loggers.py:49-54 | without a transformer the entry is the context's export; with a mapping it is the mapped entry; a custom transformer's result is used as given |
| Loggers.Logger.constructor | lm_proxy/loggers.py:34-37 | a logger starts with its transformer and nothing written |
| Loggers.Logger.Log | lm_proxy/loggers.py:56-57 | one call hands the writer exactly one entry, the transformed one |
| Loggers.UnresolvedPathIsNone | lm_proxy/loggers.py:30 | a path that does not resolve maps to `None` and does not fail |
| Loggers.AttributePath | lm_proxy/loggers.py:30 | a path without dots gives the context attribute of that name, or `None` |
| Loggers.RequestModelPath | lm_proxy/loggers.py:30 | `request.model` gives the request's model, or `None` without a request |
| Loggers.DefaultEntryIsExport | lm_proxy/loggers.py:49-54 | with no transformer the entry is `to_dict()`, without `http_request` |
| ProxyConfig.DefaultConfig | lm_proxy/config.py:10-15 | defaults are host `0.0.0.0`, port 8000 and no routing |
| ProxyConfig.Substituted | lm_proxy/config.py:35-37 | an `env:` string becomes the variable named after `env:`, or `""`; any other value stays |
| ProxyConfig.SubstitutedConnection | lm_proxy/config.py:34-37 | a connection keeps its keys, and each setting is substituted |
| ProxyConfig.SubstituteConnectionEnv | lm_proxy/config.py:33-37 | the rewrite fails iff `connections` is present but is not a table of tables; keys outside `connections` keep their values; each connection is rewritten one level deep |
| ProxyConfig.SubstituteSettings | lm_proxy/config.py:34-37 | the inner loop rewrites one connection in place as stated |
| ProxyConfig.SubstituteInPlace | lm_proxy/config.py:33-37 | the nested loops give exactly the rewrite |
| ProxyConfig.EnvNameAfterPrefix | lm_proxy/config.py:36 | the text after the first `:` of an `env:` string is what follows `env:` |
| ProxyConfig.ColonInName | lm_proxy/config.py:36 | a colon inside the variable name is kept |
| ProxyConfig.NestedValuesKept | lm_proxy/config.py:34-35 | nested tables and lists are not rewritten |
| ProxyConfig.AgreesWithRecursiveOnFlat | lm_proxy/config.py:33-37 | on a connection holding only scalars, the rewrite agrees with the recursive substitution |
| ProxyConfig.NoConnectionsUntouched | lm_proxy/config.py:33 | a file without `connections` is left as it is |

## Left out

- The asyncio machinery of `process_stream`: the task, the queue, the 0.1 s polling and the awaited task. This is concurrency. The upstream is the chunks its callback received plus the exception awaiting it raised. `App.ProcessStream` takes how many chunks arrived before the task finished as a parameter, and its frames do not depend on it.
- `secrets.token_hex(12)` and `time.time()`: these are randomness and the clock. They are the parameters `token` and `created`.
- The `model` value that `process_stream` reads is never used, so it is not modelled.
- The FastAPI endpoint plumbing: the lifespan, `StreamingResponse`, `JSONResponse`, the `LM_PROXY_OVERWRITE_MODEL` read and the `mc.allm` calls. These are HTTP and foreign-library calls. `App.CompletionResponse` takes `str(out)` as given.
- The routing engine is not part of this model. No modelled file implements it, and `lm_proxy.core` is not part of this model.
- `resolve_instance_or_callable`, `CustomJsonEncoder`, `Env`, `bootstrap` and `setup_logging`: these are dynamic imports, a global singleton and logging setup.
- The network call and the TTL cache in `CheckAPIKeyWithRequest`: HTTP is the `HttpClient` parameter. With `use_cache`, a cached answer repeats an earlier one within the TTL, which needs a clock.
- `ApiKeyWithRequest.RequestHeaders`: header values are modelled as scalars only, because `str()` of a nested list or table in a header value is not modelled.
- `ApiKeyWithRequest.Decide`: a body that is not JSON refuses the key. This assumes `requests.exceptions.JSONDecodeError` derives from `RequestException`, as it does in recent versions of `requests`.
- `ApiKeyInConfig.CheckApiKeyInConfig`: the groups are a parameter, an ordered list with their names, instead of the global configuration.
- File I/O is not modelled: `JsonLogWriter`, the log writers, the config loaders, the file read in `Config.load`, `uvicorn_start.py` and `multi-build.py`.
- The warning logged for an unset variable in `replace_env_strings_recursive` is not modelled; it is logging output only.
- `ProxyConfig.DefaultConfig`: pydantic's validation and coercion in `Config(**config_data)` are not modelled; only the defaults are.
- `ProxyConfig.SubstituteConnectionEnv`: when `connections` is malformed, only the fact that the loop raises is modelled. Which exception it is depends on dict iteration order.
- Floating-point request fields and durations are carried by their `repr()`, not as numbers.
- `BaseTypes.JsonMode`: a JSON-mode dump of a message object is the dict of its attributes. Pydantic's other JSON-mode conversions, such as of datetimes, are not modelled.
- `uuid.uuid4()` and `datetime.now()` in a fresh context are parameters.
- `Loggers.Transform`: a configured transformer object is taken as true. Falsy custom transformer objects with `__bool__` or `__len__` are not modelled.
- `Utils.Step`: `getattr` reaches only an object's attributes, not methods or properties. For this reason a step into a scalar fails.
- `Utils.Step`: `int()` of a segment with non-ASCII digits (such as Arabic-Indic digits) is treated as not an integer. Underscores between digits (`1_0`) are accepted, as `int()` accepts them.
- `str.lower`, `str.isspace`-style stripping and `repr()` are modelled on the characters the code meets.
  - `lower` is ASCII only.
  - `repr` treats every non-ASCII character as printable.
- Dict iteration order is not modelled: Python dicts are maps. JSON objects in frames are ordered member lists, so frame text is exact.
- `Utils.GetClientIp`: headers are a list of lower-case `(name, value)` pairs, as the ASGI server delivers them. The lookup lower-cases the name it is asked for.
- Exceptions carry the names of their base classes, and `except C` is modelled as a test on the class name and those base names (`Values.IsInstance`). Exception classes are not modelled beyond that.
- `Bootstrap.CallWrapper`: a request-level `extra_headers` must be absent, `None` or a dict, as the annotation says. `dict.update` with a list of pairs or another iterable is not modelled.
- Middleware functions are modelled by what they do with their continuation (`Base`, `Around`, `ShortCircuit`, `Raise`). What they do to the shared context is recorded as trace events. Arbitrary Python code inside a middleware is not modelled.
- `Sse.Events`: the event-stream parser splits lines at line feed only. Carriage returns, and fields other than `data`, are not interpreted, because the proxy's frames use neither.
- App.StreamObjects: the upstream failure is taken to be an `Exception`. A `BaseException` that is not one, such as `asyncio.CancelledError` or `KeyboardInterrupt`, escapes the `except Exception` clause at app.py:93, and the stream then ends with no error, stop or `[DONE]` frame. `App.ProcessStream` and `App.StreamFrames` share this assumption.
- BaseTypes.ContextDict: `__dict__` is the fifteen declared attributes. An attribute a middleware or handler sets on the context at run time is also in `to_dict()`'s copy, and that is not modelled.
- `App.ProcessStream`: it uses the error report as written. The corrected report is the separate function `App.ReportCorrected`. The stream lemmas that take a `report` parameter hold for both reports.

## Findings

| source | as written | input that shows it | evidently intended | confidence | as-written member | corrected member |
|---|---|---|---|---|---|---|
| lm_proxy/app.py:94 | the except clause passes a dict `{'message': str(e), 'type': type(e).__name__}` to `make_chunk`, which wraps it again as `{'message': str(error), 'type': type(error).__name__}` | an upstream `RuntimeError("boom")` gives the error `{"message": "{'message': 'boom', 'type': 'RuntimeError'}", "type": "dict"}` | the error chunk reports `message` `boom` and `type` `RuntimeError` | not executed; high, from reading | App.ErrorChunkAsWritten | App.ErrorChunkCorrected |
| lm_proxy/utils.py:92 | the `Forwarded` address runs to the first `;` only | `Forwarded: for=192.0.2.43, for=198.51.100.17` gives `192.0.2.43,` | the first element's address, `192.0.2.43` (RFC 7239 section 4 separates elements with `,`) | not executed; high, from reading | Utils.ForwardedListAsWritten | Utils.ForwardedForCorrectedFirst |
