/** The `text/event-stream` wire format of section 9.2 (Server-sent events) of the
    WHATWG HTML Living Standard: the message the broadcaster writes for one event, and
    the standard's stream interpretation that a browser applies to read it back. */
module SseFormat {
  import opened Text
  import opened Json
  import opened Clock

  /** The object serialised into the `data:` line: `{type, data, timestamp}`. */
  datatype Envelope = Envelope(eventType: string, data: Json, timestamp: string)

  /** One message as the broadcaster formats it: the `event:` field, the envelope
      carried by the `data:` field and the numeric `id:` field. */
  datatype Frame = Frame(eventType: string, envelope: Envelope, id: nat)

  /** `formatSSEMessage(eventType, data)`: the envelope timestamp is `at.iso` and
      the id `at.millis`, two separate clock readings that the model leaves
      unrelated. */
  function FormatSSEMessage(eventType: string, data: Json, at: Instant): (f: Frame)
    ensures f.envelope == Envelope(eventType, data, at.iso)
    ensures f.eventType == f.envelope.eventType
  {
    Frame(eventType, Envelope(eventType, data, at.iso), at.millis)
  }

  /** The bytes written for a frame; `serialise` stands for `JSON.stringify`. */
  function Render(f: Frame, serialise: Envelope -> string): (text: string)
    ensures StartsWith(text, "event: ")
    ensures EndsWith(text, "\n\n")
  {
    "event: " + f.eventType + "\n" + "data: " + serialise(f.envelope) + "\n" + "id: " + Digits(f.id) + "\n\n"
  }

  /** The concatenation of the frames written to one connection, in order. */
  function RenderAll(fs: seq<Frame>, serialise: Envelope -> string): string
  {
    if |fs| == 0 then "" else Render(fs[0], serialise) + RenderAll(fs[1..], serialise)
  }

  // ---------------------------------------------------------------------------
  // Stream interpretation (section 9.2.6 of the standard)
  // ---------------------------------------------------------------------------

  predicate IsEol(c: char) { c == '\n' || c == '\r' }

  predicate NoEol(s: string) { forall i | 0 <= i < |s| :: !IsEol(s[i]) }

  /** Index of the first line terminator, or `|s|`. */
  function LineEnd(s: string): (k: nat)
    ensures k <= |s|
    ensures forall i | 0 <= i < k :: !IsEol(s[i])
    ensures k < |s| ==> IsEol(s[k])
  {
    if |s| == 0 || IsEol(s[0]) then 0 else 1 + LineEnd(s[1..])
  }

  /** The complete lines of a stream; CR LF, LF and CR each end a line and a
      trailing unterminated line is not yet a line. */
  function Lines(s: string): seq<string>
    decreases |s|
  {
    var k := LineEnd(s);
    if k == |s| then []
    else
      var next := if s[k] == '\r' && k + 1 < |s| && s[k + 1] == '\n' then k + 2 else k + 1;
      [s[..k]] + Lines(s[next..])
  }

  /** The field name of a line: everything before the first colon. */
  function FieldName(line: string): string {
    line[..IndexOf(line, ':')]
  }

  /** The field value: everything after the first colon, less one leading space. */
  function FieldValue(line: string): string {
    var k := IndexOf(line, ':');
    if k == |line| then ""
    else
      var v := line[k + 1..];
      if |v| > 0 && v[0] == ' ' then v[1..] else v
  }

  /** An event as the browser dispatches it. */
  datatype StreamEvent = StreamEvent(eventType: string, data: string, lastEventId: string)

  /** The parser's event type, data and last-event-id buffers. */
  datatype Buffers = Buffers(eventType: string, data: string, lastEventId: string)

  const Fresh := Buffers("", "", "")

  function ApplyField(b: Buffers, name: string, value: string): Buffers {
    if name == "event" then b.(eventType := value)
    else if name == "data" then b.(data := b.data + value + "\n")
    else if name == "id" then (if '\0' in value then b else b.(lastEventId := value))
    else b
  }

  /** Processes complete lines; an empty line dispatches the buffered event. */
  function Interpret(lines: seq<string>, b: Buffers): seq<StreamEvent>
    decreases |lines|
  {
    if |lines| == 0 then []
    else
      var line := lines[0];
      if line == "" then
        if b.data == "" then Interpret(lines[1..], b.(eventType := ""))
        else
          var data := b.data[..|b.data| - 1];
          var t := if b.eventType == "" then "message" else b.eventType;
          [StreamEvent(t, data, b.lastEventId)] + Interpret(lines[1..], Buffers("", "", b.lastEventId))
      else if line[0] == ':' then Interpret(lines[1..], b)
      else Interpret(lines[1..], ApplyField(b, FieldName(line), FieldValue(line)))
  }

  /** What a browser's `EventSource` dispatches for a complete stream. */
  function Parse(stream: string): seq<StreamEvent> {
    Interpret(Lines(stream), Fresh)
  }

  /** The event a browser dispatches for one frame. */
  function Received(f: Frame, serialise: Envelope -> string): StreamEvent {
    StreamEvent(if f.eventType == "" then "message" else f.eventType, serialise(f.envelope), Digits(f.id))
  }

  function ReceivedAll(fs: seq<Frame>, serialise: Envelope -> string): seq<StreamEvent> {
    if |fs| == 0 then [] else [Received(fs[0], serialise)] + ReceivedAll(fs[1..], serialise)
  }

  // ---------------------------------------------------------------------------
  // Round trip
  // ---------------------------------------------------------------------------

  lemma LinesCons(a: string, rest: string)
    requires NoEol(a)
    ensures Lines(a + "\n" + rest) == [a] + Lines(rest)
  {
    var s := a + "\n" + rest;
    var k := LineEnd(s);
    assert s[|a|] == '\n';
    assert forall j | 0 <= j < |a| :: s[j] == a[j];
    assert k == |a|;
    assert s[..k] == a;
    assert s[k + 1..] == rest;
  }

  lemma ColonSplit(name: string, value: string)
    requires ':' !in name
    ensures FieldName(name + ": " + value) == name
    ensures FieldValue(name + ": " + value) == value
  {
    var line := name + ": " + value;
    assert line == name + [':'] + (" " + value);
    IndexOfAfterPrefix(name, ':', " " + value);
    assert line[|name| + 1..] == " " + value;
  }

  lemma DigitsNoEol(n: nat)
    ensures NoEol(Digits(n))
    ensures '\0' !in Digits(n)
  {
    var d := Digits(n);
    assert forall i | 0 <= i < |d| :: IsDigit(d[i]);
  }

  lemma NoEolAppend(a: string, b: string)
    requires NoEol(a) && NoEol(b)
    ensures NoEol(a + b)
  {
    assert forall j | 0 <= j < |a + b| :: (a + b)[j] == if j < |a| then a[j] else b[j - |a|];
  }

  /** The four lines of a frame (the three fields and the blank dispatch line),
      followed by the lines `more` of the rest of the stream. */
  function FrameLines(f: Frame, serialise: Envelope -> string, more: seq<string>): seq<string> {
    ["event: " + f.eventType] + (["data: " + serialise(f.envelope)] + (["id: " + Digits(f.id)] + ([""] + more)))
  }

  lemma Assoc(a: string, b: string, c: string)
    ensures (a + b) + c == a + (b + c)
  {
  }

  lemma {:induction false} RenderLines(f: Frame, serialise: Envelope -> string, rest: string)
    requires NoEol(f.eventType) && NoEol(serialise(f.envelope))
    ensures Lines(Render(f, serialise) + rest) == FrameLines(f, serialise, Lines(rest))
  {
    var e := "event: " + f.eventType;
    var d := "data: " + serialise(f.envelope);
    var i := "id: " + Digits(f.id);
    DigitsNoEol(f.id);
    NoEolAppend("event: ", f.eventType);
    NoEolAppend("data: ", serialise(f.envelope));
    NoEolAppend("id: ", Digits(f.id));
    var t3 := "" + "\n" + rest;
    var t2 := i + "\n" + t3;
    var t1 := d + "\n" + t2;
    assert Render(f, serialise) == e + "\n" + (d + "\n") + (i + "\n") + "\n";
    Assoc(e + "\n" + (d + "\n") + (i + "\n"), "\n", rest);
    Assoc(e + "\n" + (d + "\n"), i + "\n", "\n" + rest);
    Assoc(e + "\n", d + "\n", (i + "\n") + ("\n" + rest));
    Assoc(e, "\n", (d + "\n") + ((i + "\n") + ("\n" + rest)));
    Assoc(d, "\n", (i + "\n") + ("\n" + rest));
    Assoc(i, "\n", "\n" + rest);
    assert "\n" + rest == "" + "\n" + rest;
    assert Render(f, serialise) + rest == e + "\n" + t1;
    LinesCons(e, t1);
    LinesCons(d, t2);
    LinesCons(i, t3);
    LinesCons("", rest);
  }

  /** A non-empty line that is not a comment feeds one field to the buffers. */
  lemma FieldLine(line: string, more: seq<string>, b: Buffers)
    requires line != "" && line[0] != ':'
    ensures Interpret([line] + more, b) == Interpret(more, ApplyField(b, FieldName(line), FieldValue(line)))
  {
    assert ([line] + more)[1..] == more;
  }

  /** Interpreting one frame's lines dispatches exactly its event and leaves the
      buffers empty except for the last event id. */
  lemma {:induction false} InterpretFrame(f: Frame, serialise: Envelope -> string, more: seq<string>, b: Buffers)
    requires b.data == ""
    ensures Interpret(FrameLines(f, serialise, more), b)
         == [Received(f, serialise)] + Interpret(more, Buffers("", "", Digits(f.id)))
  {
    var e := "event: " + f.eventType;
    var d := "data: " + serialise(f.envelope);
    var i := "id: " + Digits(f.id);
    ColonSplit("event", f.eventType);
    ColonSplit("data", serialise(f.envelope));
    ColonSplit("id", Digits(f.id));
    DigitsNoEol(f.id);
    var b1 := b.(eventType := f.eventType);
    var b2 := b1.(data := serialise(f.envelope) + "\n");
    var b3 := b2.(lastEventId := Digits(f.id));
    assert e[0] == 'e' && d[0] == 'd' && i[0] == 'i';
    assert "event" + ": " == "event: " && "data" + ": " == "data: " && "id" + ": " == "id: ";
    assert ApplyField(b, FieldName(e), FieldValue(e)) == b1;
    assert ApplyField(b1, FieldName(d), FieldValue(d)) == b2;
    assert ApplyField(b2, FieldName(i), FieldValue(i)) == b3;
    FieldLine(e, [d] + ([i] + ([""] + more)), b);
    FieldLine(d, [i] + ([""] + more), b1);
    FieldLine(i, [""] + more, b2);
    assert ([""] + more)[1..] == more;
    assert b3.data != "" && b3.data[..|b3.data| - 1] == serialise(f.envelope);
    assert Interpret([""] + more, b3) == [Received(f, serialise)] + Interpret(more, Buffers("", "", Digits(f.id)));
  }

  /** Reading back a rendered frame yields the frame's event type, the serialised
      envelope and the id, provided neither the type nor the serialisation breaks the
      line (as `JSON.stringify` without indentation never does). */
  lemma RenderRoundTrip(f: Frame, serialise: Envelope -> string)
    requires NoEol(f.eventType) && NoEol(serialise(f.envelope))
    ensures Parse(Render(f, serialise)) == [Received(f, serialise)]
  {
    RenderLines(f, serialise, "");
    assert Render(f, serialise) + "" == Render(f, serialise);
    assert Lines("") == [];
    InterpretFrame(f, serialise, [], Fresh);
  }

  predicate Writable(fs: seq<Frame>, serialise: Envelope -> string) {
    forall i | 0 <= i < |fs| :: NoEol(fs[i].eventType) && NoEol(serialise(fs[i].envelope))
  }

  lemma {:induction false} InterpretAll(fs: seq<Frame>, serialise: Envelope -> string, b: Buffers)
    requires Writable(fs, serialise)
    requires b.data == ""
    ensures Interpret(Lines(RenderAll(fs, serialise)), b) == ReceivedAll(fs, serialise)
    decreases |fs|
  {
    if |fs| == 0 {
      assert Lines("") == [];
    } else {
      var rest := RenderAll(fs[1..], serialise);
      RenderLines(fs[0], serialise, rest);
      InterpretFrame(fs[0], serialise, Lines(rest), b);
      assert Writable(fs[1..], serialise) by {
        forall i | 0 <= i < |fs[1..]|
          ensures NoEol(fs[1..][i].eventType) && NoEol(serialise(fs[1..][i].envelope))
        {
          assert fs[1..][i] == fs[i + 1];
        }
      }
      InterpretAll(fs[1..], serialise, Buffers("", "", Digits(fs[0].id)));
    }
  }

  /** Whatever sequence of frames is written to one connection, the browser
      dispatches one event per frame, in the order written. */
  lemma StreamRoundTrip(fs: seq<Frame>, serialise: Envelope -> string)
    requires Writable(fs, serialise)
    ensures Parse(RenderAll(fs, serialise)) == ReceivedAll(fs, serialise)
  {
    InterpretAll(fs, serialise, Fresh);
  }
}
