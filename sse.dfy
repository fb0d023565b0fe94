/**
 * Server-sent event framing (section 9.2 of the WHATWG HTML Living Standard):
 * the frames the proxy writes, and the standard's event-stream interpretation
 * reduced to what those frames use, so a client's reading of the stream can
 * be stated.
 */
module Sse {
  import opened PyStr

  /** An event whose single data line carries `payload`. */
  function Frame(payload: string): (f: string)
    ensures |f| == |payload| + 8
  {
    "data: " + payload + "\n\n"
  }

  function Frames(payloads: seq<string>): (fs: seq<string>)
    ensures |fs| == |payloads| && forall i :: 0 <= i < |payloads| ==> fs[i] == Frame(payloads[i])
  {
    seq(|payloads|, i requires 0 <= i < |payloads| => Frame(payloads[i]))
  }

  /** The response body: the frames one after another. */
  function Concat(parts: seq<string>): string {
    if parts == [] then "" else parts[0] + Concat(parts[1..])
  }

  /** A field line: the name before the first colon and the value after it,
    * without one leading space; a line without a colon is a name alone. */
  datatype FieldLine = FieldLine(name: string, value: string)

  function ParseField(line: string): (f: FieldLine)
    ensures !Contains(line, ":") ==> f == FieldLine(line, "")
  {
    var parts := SplitOnce(line, ":");
    if |parts| == 1 then FieldLine(line, "")
    else
      var v := parts[1];
      FieldLine(parts[0], if v != [] && v[0] == ' ' then v[1..] else v)
  }

  /** The data of the events the complete `lines` dispatch, starting with the
    * data buffer `data`. A blank line dispatches a non-empty buffer without its
    * last line feed; a line starting with a colon is a comment; a `data` field
    * appends its value and a line feed; other fields do not change the data. */
  function Dispatch(lines: seq<string>, data: string): seq<string>
    decreases |lines|
  {
    if lines == [] then []
    else
      var line := lines[0];
      if line == "" then
        (if data == "" then [] else [data[..|data| - 1]]) + Dispatch(lines[1..], "")
      else if line[0] == ':' then Dispatch(lines[1..], data)
      else
        var f := ParseField(line);
        Dispatch(lines[1..], if f.name == "data" then data + f.value + "\n" else data)
  }

  /** The data of every event a client reads from `stream`, with lines ended by
    * a line feed. Text after the last line feed is an unfinished line, and data
    * not yet dispatched when the stream ends is discarded. */
  function Events(stream: string): seq<string> {
    var lines := Split(stream, "\n");
    Dispatch(lines[..|lines| - 1], "")
  }

  /** The lines the frames of `payloads` consist of. */
  function FrameLines(payloads: seq<string>): seq<string> {
    if payloads == [] then [] else ["data: " + payloads[0], ""] + FrameLines(payloads[1..])
  }

  predicate NoLineFeed(s: string) {
    forall i :: 0 <= i < |s| ==> s[i] != '\n'
  }

  lemma DataLineFree(p: string)
    requires NoLineFeed(p)
    ensures !Contains("data: " + p, "\n")
  {
    var head := "data: " + p;
    forall i | 0 <= i < |head| ensures head[i] != '\n' {
      if i >= 6 { assert head[i] == p[i - 6]; }
    }
    NoCharNoOccurrence(head, '\n');
  }

  lemma {:induction false} SplitFrames(payloads: seq<string>)
    requires forall k :: 0 <= k < |payloads| ==> NoLineFeed(payloads[k])
    ensures Split(Concat(Frames(payloads)), "\n") == FrameLines(payloads) + [""]
    decreases |payloads|
  {
    if payloads == [] {
      assert !Contains("", "\n");
    } else {
      var head := "data: " + payloads[0];
      var rest := Concat(Frames(payloads[1..]));
      assert Concat(Frames(payloads)) == head + "\n" + ("\n" + rest) by {
        assert Frames(payloads)[1..] == Frames(payloads[1..]);
      }
      DataLineFree(payloads[0]);
      SplitFrameStep(head, rest);
      SplitFrames(payloads[1..]);
      assert FrameLines(payloads) == [head, ""] + FrameLines(payloads[1..]);
    }
  }

  /** A data line and the blank line after it split off as two lines. */
  lemma SplitFrameStep(head: string, rest: string)
    requires !Contains(head, "\n")
    ensures Split(head + "\n" + ("\n" + rest), "\n") == [head, ""] + Split(rest, "\n")
  {
    assert head + "\n"[..0] == head;
    SplitHead(head, "\n", "\n" + rest);
    assert !Contains("" + "\n"[..0], "\n");
    assert "\n" + rest == "" + "\n" + rest;
    SplitHead("", "\n", rest);
  }

  lemma DataField(p: string)
    ensures ParseField("data: " + p) == FieldLine("data", p)
  {
    NoCharNoOccurrence("data", ':');
    assert "data" + ":"[..0] == "data";
    assert "data: " + p == "data" + ":" + (" " + p);
    SplitOnceHead("data", ":", " " + p);
    assert (" " + p)[1..] == p;
  }

  lemma {:induction false} DispatchFrames(payloads: seq<string>)
    ensures Dispatch(FrameLines(payloads), "") == payloads
    decreases |payloads|
  {
    if payloads != [] {
      var p := payloads[0];
      var tail := FrameLines(payloads[1..]);
      var lines := ["data: " + p, ""] + tail;
      assert Dispatch(lines, "") == Dispatch([""] + tail, "" + p + "\n") by {
        DataField(p);
        assert lines[0] == "data: " + p && lines[0][0] == 'd';
        assert lines[1..] == [""] + tail;
      }
      assert Dispatch([""] + tail, "" + p + "\n") == [p] + Dispatch(tail, "") by {
        assert ([""] + tail)[1..] == tail;
        assert ("" + p + "\n")[..|p|] == p;
      }
      DispatchFrames(payloads[1..]);
    }
  }

  /** A client reading the concatenated frames gets back every payload, in
    * order, provided no payload contains a line feed. */
  lemma EventsOfFrames(payloads: seq<string>)
    requires forall k :: 0 <= k < |payloads| ==> NoLineFeed(payloads[k])
    ensures Events(Concat(Frames(payloads))) == payloads
  {
    SplitFrames(payloads);
    var lines := FrameLines(payloads) + [""];
    assert lines[..|lines| - 1] == FrameLines(payloads);
    DispatchFrames(payloads);
  }
}
