/**
 * The printer and the parser of the platform's event stream: `sse_frame` of
 * `app/services/conversation.py` and `SseDecoder` of `lib/sse-decoder.ts`.
 *
 * The decoder implements a subset of section 9.2.6 of the WHATWG HTML Living Standard: it
 * dispatches on each `data:` line rather than on blank lines.
 */
module SseDecoding {
  import opened Wrappers
  import opened SseText

  datatype Event = Event(name: string, data: Json)

  datatype State = State(buffer: string, eventName: string)

  const FRESH := State("", "")

  function StripCr(line: string): string {
    if line != "" && line[|line| - 1] == '\r' then line[..|line| - 1] else line
  }

  predicate StartsWith(line: string, prefix: string) {
    prefix <= line
  }

  /** One line: the pending event name after it, and the events it completes. */
  function LineStep(parse: string -> Option<Json>, name: string, rawLine: string): (string, seq<Event>) {
    var line := StripCr(rawLine);
    if StartsWith(line, "event:") then (Trim(IsJsSpace, line[6..]), [])
    else if !StartsWith(line, "data:") then (name, [])
    else
      var payload := Trim(IsJsSpace, line[5..]);
      if payload == "" then (name, [])
      else match parse(payload)
           case None => ("", [])
           case Some(data) => ("", [Event(name, data)])
  }

  /** The decoder as a line machine. */
  function Machine(parse: string -> Option<Json>): (string, string) -> (string, seq<Event>) {
    (name, line) => LineStep(parse, name, line)
  }

  function Push(parse: string -> Option<Json>, s: State, chunk: string): (State, seq<Event>) {
    var pieces := SplitLines(s.buffer + chunk);
    var (name, events) := Fold(Machine(parse), s.eventName, Complete(pieces));
    (State(Last(pieces), name), events)
  }

  function PushAll(parse: string -> Option<Json>, s: State, chunks: seq<string>): (State, seq<Event>)
    decreases chunks
  {
    if chunks == [] then (s, []) else
    var (next, events) := Push(parse, s, chunks[0]);
    var (end, more) := PushAll(parse, next, chunks[1..]);
    (end, events + more)
  }

  class SseDecoder {
    const parse: string -> Option<Json>
    var buffer: string
    var eventName: string

    ghost function Now(): State
      reads this
    {
      State(buffer, eventName)
    }

    constructor (parse: string -> Option<Json>)
      ensures this.parse == parse && Now() == FRESH
    {
      this.parse := parse;
      buffer, eventName := "", "";
    }

    /** Feed one chunk; returns every event it completes. */
    method PushChunk(chunk: string) returns (events: seq<Event>)
      modifies this
      ensures (Now(), events) == Push(parse, old(Now()), chunk)
    {
      buffer := buffer + chunk;
      var pieces := SplitLines(buffer);
      buffer := pieces[|pieces| - 1];
      var lines := pieces[..|pieces| - 1];
      events := [];
      for i := 0 to |lines|
        invariant buffer == pieces[|pieces| - 1]
        invariant (eventName, events) == Fold(Machine(parse), old(eventName), lines[..i])
      {
        assert lines[..i + 1][..i] == lines[..i];
        var rawLine := lines[i];
        ghost var step := Machine(parse)(eventName, rawLine);
        assert events + [] == events;
        var line := if rawLine != "" && rawLine[|rawLine| - 1] == '\r' then rawLine[..|rawLine| - 1] else rawLine;
        if StartsWith(line, "event:") {
          eventName := Trim(IsJsSpace, line[6..]);
          assert step == (eventName, []);
          continue;
        }
        if !StartsWith(line, "data:") {
          assert step == (eventName, []);
          continue;
        }
        var payload := Trim(IsJsSpace, line[5..]);
        if payload == "" {
          assert step == (eventName, []);
          continue;
        }
        var data := parse(payload);
        if data.None? {
          eventName := "";
          assert step == (eventName, []);
          continue;
        }
        var event := eventName;
        eventName := "";
        events := events + [Event(event, data.value)];
        assert step == (eventName, [Event(event, data.value)]);
      }
      assert lines[..|lines|] == lines;
    }
  }

  // ---------------------------------------------------------------- chunks do not matter

  /** Two chunks in a row do what their concatenation does. */
  lemma PushTwice(parse: string -> Option<Json>, s: State, a: string, b: string)
    ensures var (mid, first) := Push(parse, s, a);
            var (end, second) := Push(parse, mid, b);
            Push(parse, s, a + b) == (end, first + second)
  {
    assert s.buffer + a + b == s.buffer + (a + b);
    SplitTwice(s.buffer + a, b);
    var p := SplitLines(s.buffer + a);
    FoldConcat(Machine(parse), s.eventName, Complete(p), Complete(SplitLines(Last(p) + b)));
  }

  /**
   * Chunk independence: however a text is cut, malformed or not, feeding the chunks yields the
   * events, the buffer and the pending name that one push of the whole text yields.
   */
  lemma {:induction false} ChunksDoNotMatter(parse: string -> Option<Json>, s: State, chunks: seq<string>)
    requires '\n' !in s.buffer
    ensures PushAll(parse, s, chunks) == Push(parse, s, Concat(chunks))
    decreases |chunks|
  {
    if chunks == [] {
      assert s.buffer + "" == s.buffer;
      NoNewlineNoSplit(s.buffer);
    } else {
      var (next, events) := Push(parse, s, chunks[0]);
      PiecesHaveNoNewline(s.buffer + chunks[0]);
      ChunksDoNotMatter(parse, next, chunks[1..]);
      PushTwice(parse, s, chunks[0], Concat(chunks[1..]));
    }
  }

  // ---------------------------------------------------------------- what a line means

  /** The line names the events behind it. */
  predicate Names(line: string) {
    "event:" <= line
  }

  /** The line carries a payload. */
  predicate HasPayload(line: string) {
    "data:" <= line && Trim(IsJsSpace, line[5..]) != ""
  }

  /** The name in force behind the first `n` lines: that of the nearest line that names, unless a payload took it. */
  function NameBehind(lines: seq<string>, n: nat, pending: string): string
    requires n <= |lines|
  {
    if n == 0 then pending
    else if Names(lines[n - 1]) then Trim(IsJsSpace, lines[n - 1][6..])
    else if HasPayload(lines[n - 1]) then ""
    else NameBehind(lines, n - 1, pending)
  }

  /** The events of the first `n` lines: one for each payload that parses, under the name in force. */
  function EventsOf(parse: string -> Option<Json>, lines: seq<string>, n: nat, pending: string): seq<Event>
    requires n <= |lines|
  {
    if n == 0 then [] else
    var (before, line) := (EventsOf(parse, lines, n - 1, pending), lines[n - 1]);
    if !HasPayload(line) then before
    else match parse(Trim(IsJsSpace, line[5..]))
         case None => before
         case Some(data) => before + [Event(NameBehind(lines, n - 1, pending), data)]
  }

  lemma {:induction false} TrimEndAgain(space: char -> bool, s: string, c: char)
    requires space(c)
    ensures Trim(space, s + [c]) == Trim(space, s)
    decreases |s|
  {
    if s != "" && space(s[0]) {
      assert (s + [c])[1..] == s[1..] + [c];
      TrimEndAgain(space, s[1..], c);
    } else if s == "" {
      assert s + [c] == [c] && [c][1..] == "";
      assert TrimStart(space, [c]) == TrimStart(space, "") == "";
    } else {
      assert (s + [c])[..|s + [c]| - 1] == s;
    }
  }

  /** The carriage return before a newline is white space to the decoder, whatever the line. */
  lemma CrIsSpace(line: string, k: nat)
    requires k <= |StripCr(line)|
    ensures Trim(IsJsSpace, StripCr(line)[k..]) == Trim(IsJsSpace, line[k..])
  {
    if StripCr(line) != line {
      assert line[k..] == StripCr(line)[k..] + ['\r'];
      TrimEndAgain(IsJsSpace, StripCr(line)[k..], '\r');
    }
  }

  /** One line, read off its prefix and its payload. */
  lemma LineMeans(parse: string -> Option<Json>, name: string, line: string)
    ensures LineStep(parse, name, line)
            == if Names(line) then (Trim(IsJsSpace, line[6..]), [])
               else if !HasPayload(line) then (name, [])
               else match parse(Trim(IsJsSpace, line[5..]))
                    case None => ("", [])
                    case Some(data) => ("", [Event(name, data)])
  {
    var stem := StripCr(line);
    assert "event:" <= line <==> "event:" <= stem by { assert "event:"[5] != '\r'; PrefixWithoutCr("event:", line); }
    assert "data:" <= line <==> "data:" <= stem by { assert "data:"[4] != '\r'; PrefixWithoutCr("data:", line); }
    if "event:" <= stem {
      CrIsSpace(line, 6);
    } else if "data:" <= stem {
      CrIsSpace(line, 5);
    }
  }

  lemma PrefixWithoutCr(prefix: string, line: string)
    requires prefix != "" && prefix[|prefix| - 1] != '\r'
    ensures prefix <= line <==> prefix <= StripCr(line)
  {
    if StripCr(line) != line {
      assert line == StripCr(line) + ['\r'];
    }
  }

  /** The decoder reads each payload under the name in force, and keeps the name behind the last line. */
  lemma {:induction false} DecoderReadsLines(
      parse: string -> Option<Json>, pending: string, lines: seq<string>, n: nat)
    requires n <= |lines|
    ensures Fold(Machine(parse), pending, lines[..n])
            == (NameBehind(lines, n, pending), EventsOf(parse, lines, n, pending))
    decreases n
  {
    if n != 0 {
      DecoderReadsLines(parse, pending, lines, n - 1);
      assert lines[..n][..n - 1] == lines[..n - 1] && lines[..n][n - 1] == lines[n - 1];
      LineMeans(parse, NameBehind(lines, n - 1, pending), lines[n - 1]);
      var before := EventsOf(parse, lines, n - 1, pending);
      assert before + [] == before;
    }
  }

  // ---------------------------------------------------------------- the printer and the round trip

  /** `sse_frame`: one frame, with the serializer as a parameter. */
  function Frame(dumps: Json -> string, e: Event): string {
    "event: " + e.name + "\ndata: " + dumps(e.data) + "\n\n"
  }

  function Frames(dumps: Json -> string, events: seq<Event>): string {
    if events == [] then "" else Frame(dumps, events[0]) + Frames(dumps, events[1..])
  }

  /** The serializer writes `data` as one non-empty line without outer space, which the parser inverts. */
  predicate Faithful(dumps: Json -> string, parse: string -> Option<Json>, data: Json) {
    parse(dumps(data)) == Some(data) && OneLine(dumps(data)) && dumps(data) != ""
  }

  ghost predicate AllFaithful(dumps: Json -> string, parse: string -> Option<Json>, events: seq<Event>) {
    forall e :: e in events ==> Faithful(dumps, parse, e.data)
  }

  /** Text without newlines or outer white space. */
  predicate OneLine(s: string) {
    '\n' !in s && Trimmed(IsJsSpace, s)
  }

  lemma TrimKeepsTrimmed(s: string)
    requires Trimmed(IsJsSpace, s)
    ensures Trim(IsJsSpace, " " + s) == s
  {
    assert (" " + s)[1..] == s;
    assert TrimStart(IsJsSpace, " " + s) == TrimStart(IsJsSpace, s) == s;
  }

  lemma LineEnds(prefix: string, s: string)
    requires Trimmed(IsJsSpace, s) && prefix != "" && prefix[|prefix| - 1] != '\r'
    ensures StripCr(prefix + s) == prefix + s
  {
    if s != "" {
      assert (prefix + s)[|prefix + s| - 1] == s[|s| - 1];
    } else {
      assert prefix + s == prefix;
    }
  }

  lemma NameLine(parse: string -> Option<Json>, pending: string, name: string)
    requires OneLine(name)
    ensures LineStep(parse, pending, "event: " + name) == (name, [])
  {
    LineEnds("event: ", name);
    assert ("event: " + name)[6..] == " " + name;
    assert "event:" <= "event: " + name;
    TrimKeepsTrimmed(name);
  }

  lemma DataLine(dumps: Json -> string, parse: string -> Option<Json>, name: string, data: Json)
    requires Faithful(dumps, parse, data)
    ensures LineStep(parse, name, "data: " + dumps(data)) == ("", [Event(name, data)])
  {
    var text := dumps(data);
    LineEnds("data: ", text);
    var line := "data: " + text;
    assert line[5..] == " " + text && line[0] == 'd';
    assert "data:" <= line;
    assert !("event:" <= line) by { assert "event:"[0] == 'e'; }
    TrimKeepsTrimmed(text);
  }

  /** A frame is three lines. */
  lemma FrameLines(dumps: Json -> string, e: Event)
    requires '\n' !in e.name && '\n' !in dumps(e.data)
    ensures SplitLines(Frame(dumps, e)) == ["event: " + e.name, "data: " + dumps(e.data), "", ""]
  {
    var a, b := "event: " + e.name, "data: " + dumps(e.data);
    assert Frame(dumps, e) == a + ("\n" + (b + ("\n" + "\n")));
    NoNewlineNoSplit(a);
    NoNewlineNoSplit(b);
    assert SplitLines("\n") == ["", ""] by { assert "\n"[1..] == ""; }
    assert ("\n" + "\n")[1..] == "\n";
    assert SplitLines("\n" + "\n") == ["", "", ""];
    SplitConcat(b, "\n" + "\n");
    assert b + "" == b;
    assert SplitLines(b + ("\n" + "\n")) == [b, "", ""];
    assert ("\n" + (b + ("\n" + "\n")))[1..] == b + ("\n" + "\n");
    SplitConcat(a, "\n" + (b + ("\n" + "\n")));
    assert a + "" == a;
  }

  lemma PushFrame(dumps: Json -> string, parse: string -> Option<Json>, e: Event, pending: string)
    requires Faithful(dumps, parse, e.data) && OneLine(e.name)
    ensures Push(parse, State("", pending), Frame(dumps, e)) == (FRESH, [e])
  {
    var a, b := "event: " + e.name, "data: " + dumps(e.data);
    assert "" + Frame(dumps, e) == Frame(dumps, e);
    FrameLines(dumps, e);
    assert Complete([a, b, "", ""]) == [a, b, ""];
    FrameFold(dumps, parse, e, pending);
  }

  lemma FrameFold(dumps: Json -> string, parse: string -> Option<Json>, e: Event, pending: string)
    requires Faithful(dumps, parse, e.data) && OneLine(e.name)
    ensures Fold(Machine(parse), pending, ["event: " + e.name, "data: " + dumps(e.data), ""]) == ("", [e])
  {
    var a, b := "event: " + e.name, "data: " + dumps(e.data);
    NameLine(parse, pending, e.name);
    DataLine(dumps, parse, e.name, e.data);
    FoldThree(Machine(parse), pending, a, b, "");
    assert Machine(parse)(pending, a) == (e.name, []) && Machine(parse)(e.name, b) == ("", [e]);
    assert Machine(parse)("", "") == ("", []);
    var none: seq<Event> := [];
    assert none + [e] + none == [e];
  }

  lemma {:induction false} PushFrames(dumps: Json -> string, parse: string -> Option<Json>, events: seq<Event>)
    requires AllFaithful(dumps, parse, events) && forall e :: e in events ==> OneLine(e.name)
    ensures Push(parse, FRESH, Frames(dumps, events)) == (FRESH, events)
    decreases |events|
  {
    if events == [] {
      assert SplitLines("" + "") == [""];
    } else {
      PushFrame(dumps, parse, events[0], "");
      PushFrames(dumps, parse, events[1..]);
      PushTwice(parse, FRESH, Frame(dumps, events[0]), Frames(dumps, events[1..]));
      assert [events[0]] + events[1..] == events;
    }
  }

  /** Every event the decoder yields, and every name it keeps pending, is one trimmed line. */
  lemma {:induction false} DecodedNamesAreOneLine(parse: string -> Option<Json>, name: string, lines: seq<string>)
    requires OneLine(name) && forall i :: 0 <= i < |lines| ==> '\n' !in lines[i]
    ensures var (after, events) := Fold(Machine(parse), name, lines);
            OneLine(after) && forall e :: e in events ==> OneLine(e.name)
    decreases |lines|
  {
    if lines != [] {
      var n := |lines| - 1;
      DecodedNamesAreOneLine(parse, name, lines[..n]);
      var line := StripCr(lines[n]);
      assert forall c :: c in line ==> c in lines[n];
      if StartsWith(line, "event:") {
        TrimIsTrimmed(IsJsSpace, line[6..]);
      }
    }
  }

  /**
   * The round trip across languages: printing events and feeding the text, cut anywhere, gives
   * back exactly those events and an empty buffer, if and only if every name is one trimmed line.
   */
  lemma RoundTripIff(
      dumps: Json -> string, parse: string -> Option<Json>, events: seq<Event>, chunks: seq<string>)
    requires AllFaithful(dumps, parse, events) && Concat(chunks) == Frames(dumps, events)
    ensures PushAll(parse, FRESH, chunks) == (FRESH, events) <==> forall e :: e in events ==> OneLine(e.name)
  {
    ChunksDoNotMatter(parse, FRESH, chunks);
    if forall e :: e in events ==> OneLine(e.name) {
      PushFrames(dumps, parse, events);
    } else {
      var pieces := SplitLines("" + Frames(dumps, events));
      PiecesHaveNoNewline("" + Frames(dumps, events));
      DecodedNamesAreOneLine(parse, "", Complete(pieces));
    }
  }
}
