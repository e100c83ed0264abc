/** The chat event stream: what the server prints (backend/services/chat.py) and how the
    browser reads it back from arbitrary chunks (frontend/src/lib/sse.ts). */
module Sse {
  import opened Values
  import opened Json
  import opened Framing

  // ---------------------------------------------------------------- the printer

  const DATA := ['d', 'a', 't', 'a', ':']

  /** One event as the server frames it. */
  function Frame(o: Object): string { DATA + [' '] + Write(o) + ['\n', '\n'] }

  function Stream(os: seq<Object>): string {
    if os == [] then "" else Frame(os[0]) + Stream(os[1..])
  }

  function Delta(text: string): Object { Object("delta", Text(text)) }

  const DONE := Object("done", Yes)

  /** The text a client shows: the deltas, joined. */
  function TextOf(os: seq<Object>): string {
    if os == [] then ""
    else (if os[0].name == "delta" && os[0].value.Text? then os[0].value.text else "") + TextOf(os[1..])
  }

  lemma {:induction false} TextOfNext(os: seq<Object>, o: Object)
    ensures TextOf(os + [o]) == TextOf(os) + TextOf([o])
  {
    if os == [] {
      assert os + [o] == [o];
    } else {
      assert (os + [o])[1..] == os[1..] + [o];
      TextOfNext(os[1..], o);
    }
  }

  lemma {:induction false} TextOfDelta(text: string)
    ensures TextOf([Delta(text)]) == text && TextOf([DONE]) == ""
  {
    assert [Delta(text)][1..] == [] && [DONE][1..] == [];
  }

  /** The demo reply, cut into pieces of 24 characters and closed by a done event. */
  method DemoStream(reply: string) returns (events: seq<Object>)
    ensures TextOf(events) == reply
    ensures events != [] && events[|events| - 1] == DONE
    ensures forall i | 0 <= i < |events| - 1 :: events[i].name == "delta" && events[i].value.Text?
                                                && 1 <= |events[i].value.text| <= 24
  {
    events := [];
    var start := 0;
    while start < |reply|
      invariant 0 <= start
      invariant TextOf(events) == if start < |reply| then reply[..start] else reply
      invariant forall i | 0 <= i < |events| ::
                  events[i].name == "delta" && events[i].value.Text? && 1 <= |events[i].value.text| <= 24
    {
      var stop := if start + 24 < |reply| then start + 24 else |reply|;
      var piece := Delta(reply[start..stop]);
      TextOfNext(events, piece);
      TextOfDelta(reply[start..stop]);
      assert reply[..start] + reply[start..stop] == reply[..stop];
      events := events + [piece];
      start := start + 24;
    }
    TextOfNext(events, DONE);
    TextOfDelta("");
    events := events + [DONE];
  }

  function Joined(parts: seq<string>): string {
    if parts == [] then "" else Joined(parts[..|parts| - 1]) + parts[|parts| - 1]
  }

  /** The live stream: the model's non-empty deltas, then a done event or the error that
      stopped the model. */
  method LiveStream(deltas: seq<string>, failure: Option<string>) returns (events: seq<Object>)
    ensures TextOf(events) == Joined(deltas)
    ensures events != []
    ensures events[|events| - 1] == if failure.Some? then Object("error", Text(failure.value)) else DONE
    ensures forall i | 0 <= i < |events| - 1 :: events[i].name == "delta"
  {
    events := [];
    for n := 0 to |deltas|
      invariant TextOf(events) == Joined(deltas[..n])
      invariant forall i | 0 <= i < |events| :: events[i].name == "delta"
    {
      assert deltas[..n + 1][..n] == deltas[..n];
      if deltas[n] != "" {
        TextOfNext(events, Delta(deltas[n]));
        TextOfDelta(deltas[n]);
        events := events + [Delta(deltas[n])];
      }
    }
    assert deltas[..|deltas|] == deltas;
    var last := if failure.Some? then Object("error", Text(failure.value)) else DONE;
    TextOfNext(events, last);
    assert TextOf([last]) == "" by { assert [last][1..] == []; }
    events := events + [last];
  }

  // ---------------------------------------------------------------- the reader

  /** What one line delivers: a payload that `parse` accepts, or nothing for comments,
      other fields, empty payloads and texts that do not parse. `parse` is the JSON parser,
      whatever it accepts. */
  function LineEvents<E>(raw: string, parse: string -> Option<E>): seq<E> {
    var line := Trim(raw);
    if !(DATA <= line) then []
    else
      var payload := Trim(line[5..]);
      if payload == "" then []
      else
        var o := parse(payload);
        if o.Some? then [o.value] else []
  }

  function AllLineEvents<E>(lines: seq<string>, parse: string -> Option<E>): seq<E> {
    if lines == [] then [] else LineEvents(lines[0], parse) + AllLineEvents(lines[1..], parse)
  }

  function FrameEvents<E>(frame: string, parse: string -> Option<E>): seq<E> { AllLineEvents(Lines(frame), parse) }

  function AllFrameEvents<E>(frames: seq<string>, parse: string -> Option<E>): seq<E> {
    if frames == [] then [] else FrameEvents(frames[0], parse) + AllFrameEvents(frames[1..], parse)
  }

  function Rest(s: string): string { Split(s).rest }

  /** The events of all complete frames in a text. */
  function Events<E>(s: string, parse: string -> Option<E>): seq<E> { AllFrameEvents(Split(s).frames, parse) }

  predicate StartsWith(line: string, prefix: string) { prefix <= line }

  /** The reader as it runs: a growing buffer, cut at every blank line, each frame split
      into lines. It delivers the events of the joined text, however that was cut. */
  method ReadSse<E>(chunks: seq<string>, parse: string -> Option<E>) returns (events: seq<E>)
    ensures events == Events(Joined(chunks), parse)
  {
    events := [];
    var buffer := "";
    for n := 0 to |chunks|
      invariant events == Events(Joined(chunks[..n]), parse) && buffer == Rest(Joined(chunks[..n]))
    {
      assert chunks[..n + 1][..n] == chunks[..n];
      EventsOfMore(Joined(chunks[..n]), chunks[n], parse);
      var found;
      found, buffer := Drain(buffer + chunks[n], parse);
      events := events + found;
    }
    assert chunks[..|chunks|] == chunks;
  }

  /** Every complete frame of the buffer, and what is left of it. */
  method Drain<E>(text: string, parse: string -> Option<E>) returns (events: seq<E>, buffer: string)
    ensures events == Events(text, parse) && buffer == Rest(text)
  {
    events, buffer := [], text;
    var sep := FindBreak(buffer);
    while sep >= 0
      invariant sep == FindBreak(buffer)
      invariant Events(text, parse) == events + Events(buffer, parse) && Rest(text) == Rest(buffer)
      decreases |buffer|
    {
      var found := ReadFrame(buffer[..sep], parse);
      FirstFrame(buffer, parse);
      buffer := buffer[sep + 2..];
      events := events + found;
      sep := FindBreak(buffer);
    }
  }

  lemma {:induction false} FirstFrame<E>(s: string, parse: string -> Option<E>)
    requires FindBreak(s) >= 0
    ensures var n := FindBreak(s);
            Events(s, parse) == FrameEvents(s[..n], parse) + Events(s[n + 2..], parse) && Rest(s) == Rest(s[n + 2..])
  {
    var n := FindBreak(s);
    assert Split(s).frames[0] == s[..n] && Split(s).frames[1..] == Split(s[n + 2..]).frames;
  }

  lemma Regroup<E>(x: seq<E>, y: seq<E>, z: seq<E>)
    ensures x + (y + z) == x + y + z
  {
  }

  lemma {:induction false} FirstLine<E>(line: string, more: seq<string>, parse: string -> Option<E>)
    ensures AllLineEvents([line] + more, parse) == LineEvents(line, parse) + AllLineEvents(more, parse)
  {
    assert ([line] + more)[1..] == more;
  }

  lemma {:induction false} NextLine<E>(lines: seq<string>, line: string, parse: string -> Option<E>)
    ensures AllLineEvents(lines + [line], parse) == AllLineEvents(lines, parse) + LineEvents(line, parse)
  {
    if lines == [] {
      assert lines + [line] == [line] + [];
      FirstLine(line, [], parse);
    } else {
      var first, more := lines[0], lines[1..];
      assert lines + [line] == [first] + (more + [line]) && lines == [first] + more;
      FirstLine(first, more + [line], parse);
      FirstLine(first, more, parse);
      NextLine(more, line, parse);
      Regroup(LineEvents(first, parse), AllLineEvents(more, parse), LineEvents(line, parse));
    }
  }

  /** The lines of one frame, in order. */
  method ReadFrame<E>(frame: string, parse: string -> Option<E>) returns (events: seq<E>)
    ensures events == FrameEvents(frame, parse)
  {
    events := [];
    var lines := Lines(frame);
    for n := 0 to |lines|
      invariant events == AllLineEvents(lines[..n], parse)
    {
      var found := ReadLine(lines[n], parse);
      NextLine(lines[..n], lines[n], parse);
      assert lines[..n + 1] == lines[..n] + [lines[n]];
      events := events + found;
    }
    assert lines[..|lines|] == lines;
  }

  method ReadLine<E>(raw: string, parse: string -> Option<E>) returns (events: seq<E>)
    ensures events == LineEvents(raw, parse)
  {
    var line := Trim(raw);
    if line == "" || line[0] == ':' {
      return [];
    }
    if StartsWith(line, "event:") || StartsWith(line, "id:") || StartsWith(line, "retry:") {
      assert line[0] != DATA[0];
      return [];
    }
    if !StartsWith(line, DATA) {
      return [];
    }
    var payload := Trim(line[5..]);
    if payload == "" {
      return [];
    }
    var o := parse(payload);
    events := if o.Some? then [o.value] else [];
  }

  // ---------------------------------------------------------------- chunk boundaries

  lemma {:induction false} EventsOfFrames<E>(x: seq<string>, y: seq<string>, parse: string -> Option<E>)
    ensures AllFrameEvents(x + y, parse) == AllFrameEvents(x, parse) + AllFrameEvents(y, parse)
  {
    if x == [] {
      assert x + y == y;
    } else {
      assert (x + y)[0] == x[0] && (x + y)[1..] == x[1..] + y;
      EventsOfFrames(x[1..], y, parse);
    }
  }

  lemma {:induction false} EventsOfMore<E>(a: string, b: string, parse: string -> Option<E>)
    ensures Events(a + b, parse) == Events(a, parse) + Events(Rest(a) + b, parse)
    ensures Rest(a + b) == Rest(Rest(a) + b)
  {
    SplitOfMore(a, b);
    EventsOfFrames(Split(a).frames, Split(Rest(a) + b).frames, parse);
  }

  // ---------------------------------------------------------------- the round trip

  /** A printed frame delivers exactly its event. */
  lemma {:induction false} FrameRoundTrip(o: Object, more: string)
    ensures Events(Frame(o) + more, Read) == [o] + Events(more, Read)
  {
    var line := DATA + [' '] + Write(o);
    var s := Frame(o) + more;
    WriteHasNoControl(o);
    assert OneLine(line) by {
      forall i | 0 <= i < |line| ensures line[i] != '\n' {
        if i >= 6 { assert line[i] == Write(o)[i - 6]; }
      }
    }
    assert s == line + ['\n', '\n'] + more;
    BreakAfterLine(line, more);
    assert s[..|line|] == line && s[|line| + 2..] == more;
    FirstFrame(s, Read);
    LineRoundTrip(o);
    assert Lines(line) == [line];
    assert AllLineEvents([line], Read) == LineEvents(line, Read) by { assert [line][1..] == []; }
  }

  lemma {:induction false} LineRoundTrip(o: Object)
    ensures LineEvents(DATA + [' '] + Write(o), Read) == [o]
  {
    var json := Write(o);
    var line := DATA + [' '] + json;
    WriteHasNoControl(o);
    assert line[|line| - 1] == json[|json| - 1];
    TrimOfTight(line);
    assert line[5..] == [' '] + json;
    TrimOfTight(json);
    RoundTrip(o);
  }

  /** Every list of events comes back exactly, in order, from its printed stream. */
  lemma {:induction false} StreamRoundTrip(os: seq<Object>)
    ensures Events(Stream(os), Read) == os
  {
    if os == [] {
      assert Stream(os) == "";
    } else {
      FrameRoundTrip(os[0], Stream(os[1..]));
      StreamRoundTrip(os[1..]);
    }
  }

  /** End to end: whatever chunks a printed stream arrives in, the reader delivers exactly
      its events, and with them the text that was sent, such as the whole demo reply. */
  method ReadPrinted(ghost os: seq<Object>, chunks: seq<string>) returns (events: seq<Object>)
    requires Joined(chunks) == Stream(os)
    ensures events == os
  {
    events := ReadSse(chunks, Read);
    StreamRoundTrip(os);
  }

  /** The demo, from the server's reply to the client's screen. */
  method ShowDemo(reply: string, cut: string -> seq<string>) returns (shown: string)
    requires forall s :: Joined(cut(s)) == s
    ensures shown == reply
  {
    var sent := DemoStream(reply);
    var events := ReadPrinted(sent, cut(Stream(sent)));
    shown := TextOf(events);
  }
}
