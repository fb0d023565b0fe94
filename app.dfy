/**
 * The chat-completions endpoint's replies: the streamed chunk frames of
 * `process_stream` (with `make_chunk`) and the single non-streamed reply.
 * The upstream model call is replaced by what it delivers: the text chunks
 * its callback received, in order, and the exception it ended with, if any.
 */
module App {
  import opened Wrappers
  import opened PyStr
  import opened Values
  import opened JsonText
  import opened Sse

  type byte = b: int | 0 <= b < 256

  /** `"chatcmpl-" + token.hex()` for the random token. */
  function StreamId(token: seq<byte>): (id: string)
    ensures |id| == 9 + 2 * |token| && id[..9] == "chatcmpl-"
    ensures Printable(id)
    ensures forall i :: 0 <= i < |token| ==> id[9 + 2 * i..11 + 2 * i] == Hex2(token[i])
  {
    var h := HexBytes(token);
    var id := "chatcmpl-" + h;
    assert forall i :: 0 <= i < |token| ==> id[9 + 2 * i..11 + 2 * i] == h[2 * i..2 * i + 2];
    id
  }

  /** `bytes.hex()`: two lower-case hexadecimal digits per byte, in order. */
  function HexBytes(bytes: seq<byte>): (h: string)
    ensures |h| == 2 * |bytes| && Printable(h)
    ensures forall i :: 0 <= i < |bytes| ==> h[2 * i..2 * i + 2] == Hex2(bytes[i])
  {
    if bytes == [] then ""
    else
      var rest := HexBytes(bytes[1..]);
      var h := Hex2(bytes[0]) + rest;
      assert forall i :: 1 <= i < |bytes| ==> h[2 * i..2 * i + 2] == rest[2 * (i - 1)..2 * (i - 1) + 2];
      h
  }

  /** The id carries the token: each byte is read back from its two digits. */
  lemma StreamIdCarriesToken(token: seq<byte>, i: nat)
    requires i < |token|
    ensures ParseHex2(StreamId(token)[9 + 2 * i..11 + 2 * i]) == Some(token[i])
  {
    Hex2RoundTrip(token[i]);
  }

  // ------------------------------------------------------------- chunks

  /** What `make_chunk` receives as `error`: a raised exception, or the dict
    * `{'message': ..., 'type': ...}` describing one. */
  datatype ErrorArg =
    | RaisedError(e: PyException)
    | ErrorDict(message: string, typeName: string)

  /** `str(error)`. */
  function ErrorMessage(a: ErrorArg): string {
    match a
    case RaisedError(e) => e.text
    case ErrorDict(m, t) => "{'message': " + Repr(m) + ", 'type': " + Repr(t) + "}"
  }

  /** `type(error).__name__`. */
  function ErrorType(a: ErrorArg): string {
    match a
    case RaisedError(e) => e.typeName
    case ErrorDict(_, _) => "dict"
  }

  /** The delta of a chunk: the one given, else `{"content": content}`, else empty. */
  function ChunkDelta(delta: Option<seq<Member>>, content: Option<string>): seq<Member> {
    if delta.Some? then delta.value
    else if content.Some? then [Member("content", JStr(content.value))] else []
  }

  /** The finish reason of a chunk: the one given, else `"error"` when there is an error. */
  function ChunkFinish(finishReason: Option<string>, error: Option<ErrorArg>): Option<string> {
    if error.Some? && finishReason.None? then Some("error") else finishReason
  }

  function ChoiceObject(delta: seq<Member>, finish: Option<string>): Json {
    JObj([Member("index", JInt(0)), Member("delta", JObj(delta))]
         + (if finish.Some? then [Member("finish_reason", JStr(finish.value))] else []))
  }

  /** `{"message": str(error), "type": type(error).__name__}`. */
  function ErrorObject(a: ErrorArg): Json {
    JObj([Member("message", JStr(ErrorMessage(a))), Member("type", JStr(ErrorType(a)))])
  }

  /** The object `make_chunk` serialises: identity fields, one choice, and the
    * `error` member when an error is given. */
  function ChunkObject(id: string, created: int, delta: Option<seq<Member>>, content: Option<string>,
                       finishReason: Option<string>, error: Option<ErrorArg>): (o: Json)
    ensures Keys(o) == ["id", "object", "created", "choices"] + (if error.Some? then ["error"] else [])
  {
    JObj([Member("id", JStr(id)), Member("object", JStr("chat.completion.chunk")),
          Member("created", JInt(created)),
          Member("choices", JArr([ChoiceObject(ChunkDelta(delta, content), ChunkFinish(finishReason, error))]))]
         + (if error.Some? then [Member("error", ErrorObject(error.value))] else []))
  }

  /** `make_chunk(...)`: the object as one server-sent event. */
  function MakeChunk(id: string, created: int, delta: Option<seq<Member>>, content: Option<string>,
                     finishReason: Option<string>, error: Option<ErrorArg>): (f: string)
    ensures |f| >= 9 && f[..6] == "data: " && f[|f| - 2..] == "\n\n" && Printable(f[6..|f| - 2])
  {
    Frame(Dumps(ChunkObject(id, created, delta, content, finishReason, error)))
  }

  /** The only choice of a chunk or reply object. */
  function Choice(o: Json): Option<Json> {
    match Field(o, "choices")
    case Some(JArr(items)) => if |items| == 1 then Some(items[0]) else None
    case _ => None
  }

  function ChoiceField(o: Json, key: string): Option<Json> {
    match Choice(o)
    case Some(c) => Field(c, key)
    case None => None
  }

  /** The choice holds index 0, the delta and, when there is one, the finish reason. */
  lemma ChoiceObjectFields(delta: seq<Member>, finish: Option<string>)
    ensures var c := ChoiceObject(delta, finish);
      Field(c, "index") == Some(JInt(0)) && Field(c, "delta") == Some(JObj(delta))
      && Field(c, "finish_reason") == (if finish.Some? then Some(JStr(finish.value)) else None)
  {
    var cs := ChoiceObject(delta, finish).members;
    FieldAt(cs, 0, "index");
    FieldAt(cs, 1, "delta");
    if finish.Some? {
      FieldAt(cs, 2, "finish_reason");
    } else {
      assert forall j :: 0 <= j < |cs| ==> cs[j].key != "finish_reason";
    }
  }

  /** The member list of a chunk object. */
  lemma ChunkMembers(id: string, created: int, delta: Option<seq<Member>>, content: Option<string>,
                     finishReason: Option<string>, error: Option<ErrorArg>)
    ensures var ms := ChunkObject(id, created, delta, content, finishReason, error).members;
      |ms| == (if error.Some? then 5 else 4)
      && ms[0] == Member("id", JStr(id))
      && ms[1] == Member("object", JStr("chat.completion.chunk"))
      && ms[2] == Member("created", JInt(created))
      && ms[3] == Member("choices", JArr([ChoiceObject(ChunkDelta(delta, content), ChunkFinish(finishReason, error))]))
      && (error.Some? ==> ms[4] == Member("error", ErrorObject(error.value)))
  { }

  /** Every chunk carries the stream's id and timestamp, its object type, one
    * choice (index 0, the chunk's delta and finish reason), and an error
    * member exactly when an error is given. */
  lemma ChunkObjectFields(id: string, created: int, delta: Option<seq<Member>>, content: Option<string>,
                          finishReason: Option<string>, error: Option<ErrorArg>)
    ensures var o := ChunkObject(id, created, delta, content, finishReason, error);
      && Field(o, "id") == Some(JStr(id))
      && Field(o, "object") == Some(JStr("chat.completion.chunk"))
      && Field(o, "created") == Some(JInt(created))
      && Choice(o) == Some(ChoiceObject(ChunkDelta(delta, content), ChunkFinish(finishReason, error)))
      && Field(o, "error") == (if error.Some? then Some(ErrorObject(error.value)) else None)
  {
    var o := ChunkObject(id, created, delta, content, finishReason, error);
    ChunkMembers(id, created, delta, content, finishReason, error);
    ChunkFieldsOf(o.members);
  }

  /** Looking up the members of a list laid out like a chunk object. */
  lemma ChunkFieldsOf(ms: seq<Member>)
    requires |ms| == 4 || |ms| == 5
    requires ms[0].key == "id" && ms[1].key == "object" && ms[2].key == "created" && ms[3].key == "choices"
    requires |ms| == 5 ==> ms[4].key == "error"
    ensures FieldOf(ms, "id") == Some(ms[0].value)
    ensures FieldOf(ms, "object") == Some(ms[1].value)
    ensures FieldOf(ms, "created") == Some(ms[2].value)
    ensures FieldOf(ms, "choices") == Some(ms[3].value)
    ensures FieldOf(ms, "error") == if |ms| == 5 then Some(ms[4].value) else None
  {
    FieldAt(ms, 0, "id");
    FieldAt(ms, 1, "object");
    FieldAt(ms, 2, "created");
    FieldAt(ms, 3, "choices");
    if |ms| == 5 {
      FieldAt(ms, 4, "error");
    } else {
      assert forall j :: 0 <= j < |ms| ==> ms[j].key != "error";
    }
  }

  /** What a chunk's choice says: index 0, its delta, its finish reason. */
  lemma ChunkChoiceFields(id: string, created: int, delta: Option<seq<Member>>, content: Option<string>,
                          finishReason: Option<string>, error: Option<ErrorArg>)
    ensures var o := ChunkObject(id, created, delta, content, finishReason, error);
      && ChoiceField(o, "index") == Some(JInt(0))
      && ChoiceField(o, "delta") == Some(JObj(ChunkDelta(delta, content)))
      && ChoiceField(o, "finish_reason") == (
           if finishReason.Some? then Some(JStr(finishReason.value))
           else if error.Some? then Some(JStr("error")) else None)
  {
    ChunkObjectFields(id, created, delta, content, finishReason, error);
    ChoiceObjectFields(ChunkDelta(delta, content), ChunkFinish(finishReason, error));
  }

  // ------------------------------------------------------------- streams

  /** What the upstream call delivered: the chunks passed to the callback, in
    * order, and the exception awaiting the task raised, if any. */
  datatype Upstream = Upstream(chunks: seq<Option<string>>, failure: Option<PyException>)

  const RoleDelta: seq<Member> := [Member("role", JStr("assistant"))]
  const DonePayload: string := "[DONE]"

  /** What the except clause passes to `make_chunk`: a dict made of the
    * exception's text and type name. */
  function ReportAsWritten(e: PyException): ErrorArg {
    ErrorDict(e.text, e.typeName)
  }

  /** The chunk objects of a stream, given how a failure is reported: the role
    * chunk, one content chunk per upstream chunk, the error chunk if the call
    * failed, and the stop chunk. */
  function StreamObjects(id: string, created: int, up: Upstream, report: PyException -> ErrorArg): (objs: seq<Json>)
    ensures |objs| == |up.chunks| + (if up.failure.Some? then 3 else 2)
  {
    [ChunkObject(id, created, Some(RoleDelta), None, None, None)]
    + seq(|up.chunks|, k requires 0 <= k < |up.chunks| => ChunkObject(id, created, None, up.chunks[k], None, None))
    + (if up.failure.Some? then [ChunkObject(id, created, None, None, None, Some(report(up.failure.value)))] else [])
    + [ChunkObject(id, created, None, None, Some("stop"), None)]
  }

  /** Chunk `k` of a stream. */
  lemma StreamObjectAt(id: string, created: int, up: Upstream, report: PyException -> ErrorArg, k: nat)
    requires k < |StreamObjects(id, created, up, report)|
    ensures StreamObjects(id, created, up, report)[k] ==
      if k == 0 then ChunkObject(id, created, Some(RoleDelta), None, None, None)
      else if k <= |up.chunks| then ChunkObject(id, created, None, up.chunks[k - 1], None, None)
      else if k == |up.chunks| + 1 && up.failure.Some? then ChunkObject(id, created, None, None, None, Some(report(up.failure.value)))
      else ChunkObject(id, created, None, None, Some("stop"), None)
  { }

  /** The event payloads: every chunk object as JSON, then the `[DONE]` sentinel. */
  function StreamPayloads(id: string, created: int, up: Upstream, report: PyException -> ErrorArg): (ps: seq<string>)
    ensures |ps| == |StreamObjects(id, created, up, report)| + 1
  {
    var objs := StreamObjects(id, created, up, report);
    seq(|objs|, k requires 0 <= k < |objs| => Dumps(objs[k])) + [DonePayload]
  }

  /** The frames `process_stream` yields. */
  function StreamFrames(id: string, created: int, up: Upstream): (fs: seq<string>)
    ensures |fs| == |up.chunks| + (if up.failure.Some? then 4 else 3)
    ensures fs[|fs| - 1] == Frame(DonePayload)
  {
    Frames(StreamPayloads(id, created, up, ReportAsWritten))
  }

  /** Yields the role frame, a frame per chunk received while the upstream task
    * runs (the first `split` of them) and per chunk drained after it finished,
    * the error frame if awaiting the task raised, the stop frame and the
    * sentinel. The frames do not depend on how the chunks were scheduled. */
  method ProcessStream(token: seq<byte>, created: int, up: Upstream, split: nat) returns (frames: seq<string>)
    ensures frames == StreamFrames(StreamId(token), created, up)
  {
    var id := StreamId(token);
    ghost var payloads := StreamPayloads(id, created, up, ReportAsWritten);
    var running := if split <= |up.chunks| then split else |up.chunks|;
    RoleFrame(id, created, up);
    frames := [MakeChunk(id, created, Some(RoleDelta), None, None, None)];
    var i := 0;
    while i < running
      invariant 0 <= i <= running
      invariant frames == Frames(payloads[..i + 1])
    {
      ContentFrame(id, created, up, i);
      frames := frames + [MakeChunk(id, created, None, up.chunks[i], None, None)];
      i := i + 1;
    }
    while i < |up.chunks|
      invariant running <= i <= |up.chunks|
      invariant frames == Frames(payloads[..i + 1])
    {
      ContentFrame(id, created, up, i);
      frames := frames + [MakeChunk(id, created, None, up.chunks[i], None, None)];
      i := i + 1;
    }
    if up.failure.Some? {
      var e := up.failure.value;
      ErrorFrame(id, created, up);
      frames := frames + [MakeChunk(id, created, None, None, None, Some(ErrorDict(e.text, e.typeName)))];
    }
    StopAndDoneFrames(id, created, up);
    frames := frames + [MakeChunk(id, created, None, None, Some("stop"), None)];
    frames := frames + ["data: [DONE]\n\n"];
  }

  /** The frame of the role chunk opens the stream. */
  lemma RoleFrame(id: string, created: int, up: Upstream)
    ensures Frames(StreamPayloads(id, created, up, ReportAsWritten)[..1])
         == [MakeChunk(id, created, Some(RoleDelta), None, None, None)]
  {
    var ps := StreamPayloads(id, created, up, ReportAsWritten);
    StreamObjectAt(id, created, up, ReportAsWritten, 0);
    FramesPrefix(ps, 0);
  }

  /** The frame of upstream chunk `i` follows the frames before it. */
  lemma ContentFrame(id: string, created: int, up: Upstream, i: nat)
    requires i < |up.chunks|
    ensures var ps := StreamPayloads(id, created, up, ReportAsWritten);
      Frames(ps[..i + 2]) == Frames(ps[..i + 1]) + [MakeChunk(id, created, None, up.chunks[i], None, None)]
  {
    var ps := StreamPayloads(id, created, up, ReportAsWritten);
    StreamObjectAt(id, created, up, ReportAsWritten, i + 1);
    FramesPrefix(ps, i + 1);
  }

  /** After the content of a failed call comes the error frame. */
  lemma ErrorFrame(id: string, created: int, up: Upstream)
    requires up.failure.Some?
    ensures var ps := StreamPayloads(id, created, up, ReportAsWritten);
      var n := |up.chunks| + 1;
      var e := up.failure.value;
      Frames(ps[..n + 1]) == Frames(ps[..n]) + [MakeChunk(id, created, None, None, None, Some(ErrorDict(e.text, e.typeName)))]
  {
    var ps := StreamPayloads(id, created, up, ReportAsWritten);
    StreamObjectAt(id, created, up, ReportAsWritten, |up.chunks| + 1);
    FramesPrefix(ps, |up.chunks| + 1);
  }

  /** The stop frame and the sentinel close the stream. */
  lemma StopAndDoneFrames(id: string, created: int, up: Upstream)
    ensures var ps := StreamPayloads(id, created, up, ReportAsWritten);
      var n := |ps| - 2;
      Frames(ps) == Frames(ps[..n]) + [MakeChunk(id, created, None, None, Some("stop"), None)] + ["data: [DONE]\n\n"]
  {
    var ps := StreamPayloads(id, created, up, ReportAsWritten);
    var n := |ps| - 2;
    StreamObjectAt(id, created, up, ReportAsWritten, n);
    FramesPrefix(ps, n);
    FramesPrefix(ps, n + 1);
    assert ps[n + 1] == DonePayload;
    assert Frame(DonePayload) == "data: [DONE]\n\n";
    assert ps[..n + 2] == ps;
  }

  lemma FramesPrefix(ps: seq<string>, n: nat)
    requires n < |ps|
    ensures Frames(ps[..n + 1]) == Frames(ps[..n]) + [Frame(ps[n])]
  { }

  // ------------------------------------------------------ stream properties

  /** The first chunk announces the assistant role and has no finish reason. */
  lemma RoleChunkFirst(id: string, created: int, up: Upstream, report: PyException -> ErrorArg)
    ensures var o := StreamObjects(id, created, up, report)[0];
      ChoiceField(o, "delta") == Some(JObj(RoleDelta)) && ChoiceField(o, "finish_reason").None?
      && Field(o, "error").None?
  {
    StreamObjectAt(id, created, up, report, 0);
    ChunkObjectFields(id, created, Some(RoleDelta), None, None, None);
    ChunkChoiceFields(id, created, Some(RoleDelta), None, None, None);
  }

  /** Chunk `k` of the upstream is content chunk `k`: in order, one each, with
    * `{"content": text}` (an empty delta for `None`), no finish reason and no error. */
  lemma ContentChunksInOrder(id: string, created: int, up: Upstream, report: PyException -> ErrorArg, k: nat)
    requires k < |up.chunks|
    ensures var o := StreamObjects(id, created, up, report)[1 + k];
      ChoiceField(o, "delta") == Some(JObj(if up.chunks[k].Some? then [Member("content", JStr(up.chunks[k].value))] else []))
      && ChoiceField(o, "finish_reason").None? && Field(o, "error").None?
  {
    StreamObjectAt(id, created, up, report, 1 + k);
    ChunkObjectFields(id, created, None, up.chunks[k], None, None);
    ChunkChoiceFields(id, created, None, up.chunks[k], None, None);
  }

  /** After the content, a failed call adds one error chunk, whose finish reason
    * is `"error"`; a successful one adds none. */
  lemma ErrorChunkAfterContent(id: string, created: int, up: Upstream, report: PyException -> ErrorArg)
    requires up.failure.Some?
    ensures var o := StreamObjects(id, created, up, report)[1 + |up.chunks|];
      var a := report(up.failure.value);
      Field(o, "error") == Some(JObj([Member("message", JStr(ErrorMessage(a))), Member("type", JStr(ErrorType(a)))]))
      && ChoiceField(o, "finish_reason") == Some(JStr("error"))
  {
    StreamObjectAt(id, created, up, report, 1 + |up.chunks|);
    ChunkObjectFields(id, created, None, None, None, Some(report(up.failure.value)));
    ChunkChoiceFields(id, created, None, None, None, Some(report(up.failure.value)));
  }

  /** The last chunk object stops the stream, after any error chunk. */
  lemma StopChunkLast(id: string, created: int, up: Upstream, report: PyException -> ErrorArg)
    ensures var objs := StreamObjects(id, created, up, report);
      ChoiceField(objs[|objs| - 1], "finish_reason") == Some(JStr("stop")) && Field(objs[|objs| - 1], "error").None?
  {
    var objs := StreamObjects(id, created, up, report);
    StreamObjectAt(id, created, up, report, |objs| - 1);
    ChunkObjectFields(id, created, None, None, Some("stop"), None);
    ChunkChoiceFields(id, created, None, None, Some("stop"), None);
  }

  /** Only the error chunk carries an error. */
  lemma OnlyErrorChunkHasError(id: string, created: int, up: Upstream, report: PyException -> ErrorArg, k: nat)
    requires k < |StreamObjects(id, created, up, report)|
    requires Field(StreamObjects(id, created, up, report)[k], "error").Some?
    ensures up.failure.Some? && k == 1 + |up.chunks|
  {
    var objs := StreamObjects(id, created, up, report);
    if k == 0 {
      RoleChunkFirst(id, created, up, report);
    } else if k <= |up.chunks| {
      ContentChunksInOrder(id, created, up, report, k - 1);
    } else if k == |objs| - 1 {
      StopChunkLast(id, created, up, report);
    }
  }

  /** Every chunk shares the stream's id and timestamp and has one choice with index 0. */
  lemma ChunksShareIdentity(id: string, created: int, up: Upstream, report: PyException -> ErrorArg, k: nat)
    requires k < |StreamObjects(id, created, up, report)|
    ensures var o := StreamObjects(id, created, up, report)[k];
      Field(o, "id") == Some(JStr(id)) && Field(o, "created") == Some(JInt(created))
      && Field(o, "object") == Some(JStr("chat.completion.chunk")) && ChoiceField(o, "index") == Some(JInt(0))
  {
    StreamObjectAt(id, created, up, report, k);
    if k == 0 {
      ChunkObjectFields(id, created, Some(RoleDelta), None, None, None);
      ChunkChoiceFields(id, created, Some(RoleDelta), None, None, None);
    } else if k <= |up.chunks| {
      ChunkObjectFields(id, created, None, up.chunks[k - 1], None, None);
      ChunkChoiceFields(id, created, None, up.chunks[k - 1], None, None);
    } else if k == |up.chunks| + 1 && up.failure.Some? {
      ChunkObjectFields(id, created, None, None, None, Some(report(up.failure.value)));
      ChunkChoiceFields(id, created, None, None, None, Some(report(up.failure.value)));
    } else {
      ChunkObjectFields(id, created, None, None, Some("stop"), None);
      ChunkChoiceFields(id, created, None, None, Some("stop"), None);
    }
  }

  /** The stream ends with the `[DONE]` sentinel event. */
  lemma StreamEndsWithDone(id: string, created: int, up: Upstream)
    ensures var fs := StreamFrames(id, created, up);
      |fs| >= 3 && fs[|fs| - 1] == "data: [DONE]\n\n"
  { }

  /** A client reading the response body gets every chunk object's JSON and
    * then the sentinel, in order: no payload breaks the event framing. */
  lemma ClientReadsPayloads(id: string, created: int, up: Upstream)
    ensures Events(Concat(StreamFrames(id, created, up))) == StreamPayloads(id, created, up, ReportAsWritten)
  {
    var ps := StreamPayloads(id, created, up, ReportAsWritten);
    forall k | 0 <= k < |ps|
      ensures NoLineFeed(ps[k])
    {
      if k < |ps| - 1 {
        assert Printable(ps[k]);
      }
    }
    EventsOfFrames(ps);
  }

  // ------------------------------------------------------ error reporting

  /** As written, the error chunk reports the type `dict` and, as its message,
    * the dict's repr: the exception's own type and text are nested inside it. */
  lemma ErrorChunkAsWritten(id: string, created: int, up: Upstream)
    requires up.failure.Some?
    ensures var o := StreamObjects(id, created, up, ReportAsWritten)[1 + |up.chunks|];
      var e := up.failure.value;
      Field(o, "error") == Some(JObj([
        Member("message", JStr("{'message': " + Repr(e.text) + ", 'type': " + Repr(e.typeName) + "}")),
        Member("type", JStr("dict"))]))
  {
    ErrorChunkAfterContent(id, created, up, ReportAsWritten);
  }

  /** So the reported error is never the exception's own text and type,
    * unless its type is called `dict`. */
  lemma ErrorChunkAsWrittenLosesType(id: string, created: int, up: Upstream)
    requires up.failure.Some? && up.failure.value.typeName != "dict"
    ensures var o := StreamObjects(id, created, up, ReportAsWritten)[1 + |up.chunks|];
      var e := up.failure.value;
      Field(o, "error") != Some(JObj([Member("message", JStr(e.text)), Member("type", JStr(e.typeName))]))
  {
    ErrorChunkAsWritten(id, created, up);
  }

  /** The report the OpenAI error shape calls for: the exception itself. */
  function ReportCorrected(e: PyException): ErrorArg {
    RaisedError(e)
  }

  /** With the exception passed as given, the error chunk carries its text and
    * its type name. */
  lemma ErrorChunkCorrected(id: string, created: int, up: Upstream)
    requires up.failure.Some?
    ensures var o := StreamObjects(id, created, up, ReportCorrected)[1 + |up.chunks|];
      var e := up.failure.value;
      Field(o, "error") == Some(JObj([Member("message", JStr(e.text)), Member("type", JStr(e.typeName))]))
      && ChoiceField(o, "finish_reason") == Some(JStr("error"))
  {
    ErrorChunkAfterContent(id, created, up, ReportCorrected);
  }

  // ------------------------------------------------------ non-streamed reply

  /** The reply to a non-streaming request: one choice with index 0, the
    * assistant message `str(out)` and finish reason `"stop"`. */
  function CompletionResponse(out: string): Json {
    JObj([Member("choices", JArr([JObj([
      Member("index", JInt(0)),
      Member("message", JObj([Member("role", JStr("assistant")), Member("content", JStr(out))])),
      Member("finish_reason", JStr("stop"))])]))])
  }

  lemma CompletionResponseFields(out: string)
    ensures var r := CompletionResponse(out);
      Keys(r) == ["choices"]
      && ChoiceField(r, "index") == Some(JInt(0))
      && ChoiceField(r, "message") == Some(JObj([Member("role", JStr("assistant")), Member("content", JStr(out))]))
      && ChoiceField(r, "finish_reason") == Some(JStr("stop"))
  {
    var r := CompletionResponse(out);
    FieldAt(r.members, 0, "choices");
    var cs := r.members[0].value.items[0].members;
    FieldAt(cs, 0, "index");
    FieldAt(cs, 1, "message");
    FieldAt(cs, 2, "finish_reason");
  }
}
