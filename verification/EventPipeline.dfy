/**
 * The event stream from end to end: upstream text, adapter, `sse_frame`, decoder, chat bubbles.
 */
module EventPipeline {
  import opened Wrappers
  import opened SseText
  import opened SseDecoding
  import opened DifyAdapter
  import opened ChatReducer

  /** What the adapter owes the browser for a whole upstream text. */
  function Relayed(cfg: Config, upstream: string): seq<Event> {
    Batch(cfg, NEW_STREAM, TextLines(upstream)).events
  }

  function Received(events: seq<Event>): seq<Action> {
    seq(|events|, i requires 0 <= i < |events| => Receive(events[i]))
  }

  predicate Lettered(s: string) {
    forall i :: 0 <= i < |s| ==> 'a' <= s[i] <= 'z' || s[i] == '_'
  }

  lemma LetteredIsOneLine(s: string)
    requires Lettered(s)
    ensures OneLine(s)
  {}

  lemma NamesAreLettered()
    ensures Lettered("message") && Lettered("message_end") && Lettered("file") && Lettered("replace")
    ensures Lettered("agent_message") && Lettered("agent_thought") && Lettered("error")
    ensures Lettered("text_chunk") && Lettered("text_replace")
  {}

  lemma LongNamesAreLettered()
    ensures Lettered("workflow_started") && Lettered("workflow_finished") && Lettered("node_started")
    ensures Lettered("node_finished") && Lettered("branch_started") && Lettered("branch_finished")
    ensures Lettered("tts_message") && Lettered("tts_message_end") && Lettered("tool_approval_required")
  {}

  lemma PlatformNameIsOneLine(name: string)
    requires PlatformName(name)
    ensures OneLine(name)
  {
    NamesAreLettered();
    LongNamesAreLettered();
    LetteredIsOneLine(name);
  }

  /**
   * Neither the cuts of the upstream text into reads nor those of the frames into network chunks
   * show: the decoder is handed exactly the events the whole upstream text owes.
   */
  lemma DecoderReceivesRelayed(
      cfg: Config, dumps: Json -> string, parse: string -> Option<Json>, upstream: string, chunks: seq<string>)
    requires AllFaithful(dumps, parse, Relayed(cfg, upstream))
    requires Concat(chunks) == Frames(dumps, Relayed(cfg, upstream))
    ensures PushAll(parse, FRESH, chunks) == (FRESH, Relayed(cfg, upstream))
  {
    var events := Relayed(cfg, upstream);
    ErrorIsLast(cfg, NEW_STREAM, TextLines(upstream));
    forall e | e in events ensures OneLine(e.name) {
      PlatformNameIsOneLine(e.name);
    }
    RoundTripIff(dumps, parse, events, chunks);
  }

  // ---------------------------------------------------------------- what the reader reads

  /** The payload a `data:` line carries, if it is an object. */
  function Payload(cfg: Config, line: string): Option<Fields> {
    if !StartsWith(line, "data:") then None else
    var payload := Trim(IsPySpace, line[5..]);
    if payload == "" then None
    else match cfg.loads(payload)
         case Some(Obj(d)) => Some(d)
         case _ => None
  }

  /** The line is a `message` of that id with some answer. */
  predicate Says(cfg: Config, line: string, id: string) {
    var d := Payload(cfg, line);
    && d.Some? && Get(d.value, "event") == Str("message")
    && Get(d.value, "message_id") == Str(id) && Get(d.value, "answer").Str?
  }

  /** The events that write to a bubble. */
  predicate Writes(name: string) {
    name in ["message", "agent_message", "text_chunk", "text_replace", "replace"]
  }

  /** Wherever it stands, the line is handled without a write or an error. */
  ghost predicate Quiet(cfg: Config, line: string) {
    forall s :: HandleLine(cfg, line, s).Handled?
      && forall e :: e in HandleLine(cfg, line, s).events ==> !Writes(e.name) && e.name != "error"
  }

  /** Every line is part of the one answer, or quiet. */
  ghost predicate OneAnswer(cfg: Config, lines: seq<string>, id: string) {
    forall i :: 0 <= i < |lines| ==> Says(cfg, lines[i], id) || Quiet(cfg, lines[i])
  }

  /** The answers of the lines that speak, run together. */
  function Answer(cfg: Config, lines: seq<string>, id: string): string {
    if lines == [] then ""
    else (if Says(cfg, lines[0], id) then Get(Payload(cfg, lines[0]).value, "answer").s else "")
         + Answer(cfg, lines[1..], id)
  }

  /** A mapped `message` of that id. */
  predicate IsDelta(e: Event, id: string) {
    e.name == "message" && Field(e.data, "messageId") == Str(id) && Field(e.data, "content").Str?
  }

  predicate OnlyDeltas(events: seq<Event>, id: string) {
    forall i :: 0 <= i < |events| ==> IsDelta(events[i], id) || !Writes(events[i].name)
  }

  function Delta(e: Event, id: string): string {
    if IsDelta(e, id) then Field(e.data, "content").s else ""
  }

  function Told(events: seq<Event>, id: string): string {
    if events == [] then "" else Delta(events[0], id) + Told(events[1..], id)
  }

  lemma SaysOneDelta(cfg: Config, line: string, id: string, s: Stream)
    requires Says(cfg, line, id)
    ensures var h := HandleLine(cfg, line, s);
            && h.Handled? && |h.events| == 1 && IsDelta(h.events[0], id)
            && Field(h.events[0].data, "content") == Get(Payload(cfg, line).value, "answer")
  {
    var d := Payload(cfg, line).value;
    assert line[0] == 'd' && !StartsWith(line, "event:") by { assert "event:"[0] == 'e'; }
    assert EventName(d, s.eventType) == "message";
    MessageFields(d);
    assert HandleLine(cfg, line, s) == Dispatch(cfg, "message", d, s);
  }

  lemma MessageFields(d: Fields)
    ensures var m := MapEvent("message", d);
            && m.Mapped? && Field(m.event.data, "content") == Get(d, "answer")
            && Field(m.event.data, "messageId") == Get(d, "message_id")
  {
    var names := [("content", "answer"), ("messageId", "message_id"), ("conversationId", "conversation_id"),
                  ("taskId", "task_id")];
    PickFinds(d, names, 0);
    PickFinds(d, names, 1);
    assert PlainRenaming("message") == names;
  }

  lemma AnswerFields(name: string, d: Fields)
    requires name == "agent_message" || name == "message_replace"
    ensures var m := MapEvent(name, d);
            && m.Mapped? && Field(m.event.data, "answer") == Get(d, "answer")
            && Field(m.event.data, "messageId") == Get(d, "message_id")
  {
    var names := [("answer", "answer"), ("messageId", "message_id"), ("taskId", "task_id")];
    PickFinds(d, names, 0);
    PickFinds(d, names, 1);
    assert PlainRenaming(name) == names;
  }

  lemma TextFields(name: string, d: Fields)
    requires (name == "text_chunk" || name == "text_replace") && Nested(d, "data").Some?
    ensures var m := MapEvent(name, d);
            && m.Mapped? && Field(m.event.data, "text") == Get(Nested(d, "data").value, "text")
  {
    var names := [("text", "text")];
    PickFinds(Nested(d, "data").value, names, 0);
    assert NestedRenaming(name) == names;
  }

  /** What an upstream event means for the bubbles. */
  function Meaning(s: ChatState, name: string, d: Fields): ChatState {
    var inner := Nested(d, "data");
    if name == "message" || name == "agent_message" then
      AppendAssistantText(s, StrOrNull(Get(d, "answer")), StrOrNull(Get(d, "message_id")))
    else if name == "message_replace" then ReplaceAssistantText(s, StrOrNull(Get(d, "answer")))
    else if name == "text_chunk" && inner.Some? then
      AppendAssistantText(s, StrOrNull(Get(inner.value, "text")), None)
    else if name == "text_replace" && inner.Some? then
      ReplaceAssistantText(s, StrOrNull(Get(inner.value, "text")))
    else s
  }

  /** An event that means nothing to the bubbles is not renamed to one that does. */
  lemma OtherNames(name: string)
    requires name !in ["message", "agent_message", "message_replace"]
    requires name != "text_chunk" && name != "text_replace"
    requires IsPlain(name) || IsNested(name) || name == "message_end"
    ensures !Writes(EnvelopeName(name))
  {
    if name == "message_file" {
      assert EnvelopeName(name) == "file";
    } else if name == "parallel_branch_started" {
      assert EnvelopeName(name) == "branch_started";
    } else if name == "parallel_branch_finished" {
      assert EnvelopeName(name) == "branch_finished";
    } else {
      assert EnvelopeName(name) == name;
    }
  }

  lemma MessageMeaning(s: ChatState, d: Fields)
    ensures var m := MapEvent("message", d); m.Mapped? && ApplySseEvent(s, m.event) == Meaning(s, "message", d)
  {
    MessageFields(d);
    assert MapEvent("message", d).event.name == "message";
  }

  lemma AnswerMeaning(s: ChatState, name: string, d: Fields)
    requires name == "agent_message" || name == "message_replace"
    ensures var m := MapEvent(name, d); m.Mapped? && ApplySseEvent(s, m.event) == Meaning(s, name, d)
  {
    AnswerFields(name, d);
    if name == "agent_message" {
      assert MapEvent(name, d).event.name == "agent_message";
    } else {
      assert MapEvent(name, d).event.name == "replace";
    }
  }

  lemma TextMeaning(s: ChatState, name: string, d: Fields)
    requires (name == "text_chunk" || name == "text_replace") && Nested(d, "data").Some?
    ensures var m := MapEvent(name, d); m.Mapped? && ApplySseEvent(s, m.event) == Meaning(s, name, d)
  {
    TextFields(name, d);
    assert MapEvent(name, d).event.name == name;
  }

  lemma NoMeaning(s: ChatState, name: string, d: Fields)
    requires name !in ["message", "agent_message", "message_replace"]
    requires name != "text_chunk" && name != "text_replace" && MapEvent(name, d).Mapped?
    ensures ApplySseEvent(s, MapEvent(name, d).event) == Meaning(s, name, d)
  {
    OtherNames(name);
    OtherEvents(s, MapEvent(name, d).event);
  }

  lemma OtherEvents(s: ChatState, e: Event)
    requires !Writes(e.name)
    ensures ApplySseEvent(s, e) == s
  {}

  /** The reducer does with a mapped event what the upstream event means, renamed fields and all. */
  lemma MappingKeepsMeaning(s: ChatState, name: string, d: Fields)
    requires MapEvent(name, d).Mapped?
    ensures ApplySseEvent(s, MapEvent(name, d).event) == Meaning(s, name, d)
  {
    if name == "message" {
      MessageMeaning(s, d);
    } else if name == "agent_message" || name == "message_replace" {
      AnswerMeaning(s, name, d);
    } else if name == "text_chunk" || name == "text_replace" {
      TextMeaning(s, name, d);
    } else {
      NoMeaning(s, name, d);
    }
  }

  // ---------------------------------------------------------------- any upstream text

  /** What one upstream line means for the bubbles: its event, if the mapping lets it through. */
  function LineMeaning(cfg: Config, line: string, eventType: string, s: ChatState): ChatState {
    var d := Payload(cfg, line);
    if d.None? then s else
    var name := EventName(d.value, eventType);
    if MapEvent(name, d.value).Mapped? then Meaning(s, name, d.value) else s
  }

  /** The event name that stands for the next `data:` line. */
  function NextEventType(line: string, eventType: string): string {
    if StartsWith(line, "event:") then Trim(IsPySpace, line[6..])
    else if StartsWith(line, "data:") then "" else eventType
  }

  /** The line ends the stream: it is an error, or has a payload the adapter cannot read. */
  predicate Stops(cfg: Config, line: string, eventType: string) {
    var d := Payload(cfg, line);
    && d.Some?
    && var name := EventName(d.value, eventType);
       name == "error" || MapEvent(name, d.value).Raises? || Accumulate(name, d.value, NEW_TRACE).None?
  }

  /** What the lines mean one after the other, up to the one that ends the stream. */
  function MeaningOf(cfg: Config, eventType: string, lines: seq<string>, s: ChatState): ChatState
    decreases lines
  {
    if lines == [] then s else
    var after := LineMeaning(cfg, lines[0], eventType, s);
    if Stops(cfg, lines[0], eventType) then after
    else MeaningOf(cfg, NextEventType(lines[0], eventType), lines[1..], after)
  }

  /** The notice and an approval request are of no concern to the bubbles. */
  lemma DispatchMeans(cfg: Config, name: string, d: Fields, stream: Stream, s: ChatState)
    requires Dispatch(cfg, name, d, stream).Handled?
    ensures Run(s, Received(Dispatch(cfg, name, d, stream).events))
            == if MapEvent(name, d).Mapped? then Meaning(s, name, d) else s
  {
    var events := Dispatch(cfg, name, d, stream).events;
    if MapEvent(name, d).Mapped? {
      MappingKeepsMeaning(s, name, d);
      if name == "message_end" {
        NoticeIsNoWrite(s, MapEvent(name, d).event, cfg.notice);
      }
      RunFirst(s, events);
      if |events| == 2 {
        assert events[1..] == [events[1]] && events[1].name == "tool_approval_required";
        RunFirst(Meaning(s, name, d), events[1..]);
        ApprovalIsNoWrite(Meaning(s, name, d), events[1]);
      }
    }
  }

  lemma NoticeIsNoWrite(s: ChatState, e: Event, notice: bool)
    requires e.name == "message_end"
    ensures ApplySseEvent(s, WithNotice(e, notice)) == ApplySseEvent(s, e)
  {
    assert WithNotice(e, notice).name == e.name && !Writes("message_end");
    OtherEvents(s, e);
    OtherEvents(s, WithNotice(e, notice));
  }

  lemma ApprovalIsNoWrite(s: ChatState, e: Event)
    requires e.name == "tool_approval_required"
    ensures ApplySseEvent(s, e) == s
  {
    assert !Writes("tool_approval_required");
    OtherEvents(s, e);
  }

  lemma RunFirst(s: ChatState, events: seq<Event>)
    requires events != []
    ensures Run(s, Received(events)) == Run(ApplySseEvent(s, events[0]), Received(events[1..]))
  {
    var first := [Receive(events[0])];
    assert Received(events) == first + Received(events[1..]) && first[..0] == [];
    RunConcat(s, first, Received(events[1..]));
    assert Run(s, first) == ApplySseEvent(s, events[0]) by { assert Run(s, []) == s; }
  }

  /** Whether a payload can be read does not depend on the trace so far. */
  lemma ReadableAnywhere(name: string, d: Fields, t: Trace)
    ensures Accumulate(name, d, t).None? <==> Accumulate(name, d, NEW_TRACE).None?
  {}

  /** What `HandleLine` does for one line, seen from the bubbles. */
  ghost predicate Follows(cfg: Config, line: string, stream: Stream, s: ChatState) {
    var (h, after) := (HandleLine(cfg, line, stream), LineMeaning(cfg, line, stream.eventType, s));
    if h.Raised? then Stops(cfg, line, stream.eventType) && after == s
    else && h.next.eventType == NextEventType(line, stream.eventType)
         && Run(s, Received(h.events)) == after
         && (HasError(h.events) <==> Stops(cfg, line, stream.eventType))
  }

  lemma LineFollows(cfg: Config, line: string, stream: Stream, s: ChatState)
    ensures Follows(cfg, line, stream, s)
  {
    var d := Payload(cfg, line);
    if d.Some? {
      assert line[0] == 'd' && !StartsWith(line, "event:") by { assert "event:"[0] == 'e'; }
      var name := EventName(d.value, stream.eventType);
      assert HandleLine(cfg, line, stream) == Dispatch(cfg, name, d.value, stream);
      DispatchStops(cfg, name, d.value, stream, s);
      if HandleLine(cfg, line, stream).Handled? {
        DispatchMeans(cfg, name, d.value, stream, s);
      }
    } else {
      assert HandleLine(cfg, line, stream).events == [];
      assert Received([]) == [];
    }
  }

  lemma UnreadableMeansNothing(name: string, d: Fields, s: ChatState)
    requires Accumulate(name, d, NEW_TRACE).None?
    ensures Meaning(s, name, d) == s
  {}

  lemma ErrorIsNamed(cfg: Config, name: string, d: Fields, stream: Stream)
    requires Dispatch(cfg, name, d, stream).Handled?
    ensures HasError(Dispatch(cfg, name, d, stream).events) <==> name == "error"
  {
    var (h, m) := (Dispatch(cfg, name, d, stream), MapEvent(name, d));
    if m.Mapped? {
      assert h.events[0].name == m.event.name && h.events[0] in h.events;
    }
  }

  lemma DispatchStops(cfg: Config, name: string, d: Fields, stream: Stream, s: ChatState)
    ensures var (h, m) := (Dispatch(cfg, name, d, stream), MapEvent(name, d));
            if h.Raised? then
              && (m.Raises? || Accumulate(name, d, NEW_TRACE).None?)
              && (m.Mapped? ==> Meaning(s, name, d) == s)
            else && h.next.eventType == "" && !m.Raises? && Accumulate(name, d, NEW_TRACE).Some?
                 && (HasError(h.events) <==> name == "error")
  {
    ReadableAnywhere(name, d, stream.trace);
    if Accumulate(name, d, NEW_TRACE).None? {
      UnreadableMeansNothing(name, d, s);
    } else if Dispatch(cfg, name, d, stream).Handled? {
      ErrorIsNamed(cfg, name, d, stream);
    }
  }

  /** The reducer does with the relayed events what the upstream lines mean. */
  lemma {:induction false} LinesMean(cfg: Config, stream: Stream, lines: seq<string>, s: ChatState)
    ensures Run(s, Received(Batch(cfg, stream, lines).events)) == MeaningOf(cfg, stream.eventType, lines, s)
    decreases lines
  {
    if lines == [] {
      assert Received([]) == [];
    } else {
      LineFollows(cfg, lines[0], stream, s);
      match HandleLine(cfg, lines[0], stream)
      case Raised => assert Received([]) == [];
      case Handled(next, events, _) =>
        if !HasError(events) {
          LinesMean(cfg, next, lines[1..], Run(s, Received(events)));
          RunReceived(s, events, Batch(cfg, next, lines[1..]).events);
        }
    }
  }

  lemma RunReceived(s: ChatState, a: seq<Event>, b: seq<Event>)
    ensures Run(s, Received(a + b)) == Run(Run(s, Received(a)), Received(b))
  {
    assert Received(a + b) == Received(a) + Received(b);
    RunConcat(s, Received(a), Received(b));
  }

  /**
   * Whatever the upstream sends and however it is cut on its way, the chat ends as the upstream
   * lines mean it to, one after the other up to the first error.
   */
  lemma ChatFollowsUpstream(
      cfg: Config, dumps: Json -> string, parse: string -> Option<Json>, upstream: string, chunks: seq<string>,
      s: ChatState)
    requires AllFaithful(dumps, parse, Relayed(cfg, upstream))
    requires Concat(chunks) == Frames(dumps, Relayed(cfg, upstream))
    ensures Run(s, Received(PushAll(parse, FRESH, chunks).1))
            == MeaningOf(cfg, "", TextLines(upstream), s)
  {
    DecoderReceivesRelayed(cfg, dumps, parse, upstream, chunks);
    LinesMean(cfg, NEW_STREAM, TextLines(upstream), s);
  }

  // ---------------------------------------------------------------- one answer

  lemma TextsJoin(a: string, b: string, c: string)
    ensures a + (b + c) == (a + b) + c
  {}

  lemma {:induction false} ToldConcat(a: seq<Event>, b: seq<Event>, id: string)
    ensures Told(a + b, id) == Told(a, id) + Told(b, id)
  {
    if a == [] {
      assert a + b == b;
    } else {
      assert (a + b)[0] == a[0] && (a + b)[1..] == a[1..] + b;
      calc {
        Told(a + b, id);
        Delta(a[0], id) + Told(a[1..] + b, id);
        { ToldConcat(a[1..], b, id); }
        Delta(a[0], id) + (Told(a[1..], id) + Told(b, id));
        { TextsJoin(Delta(a[0], id), Told(a[1..], id), Told(b, id)); }
        Told(a, id) + Told(b, id);
      }
    }
  }

  lemma {:induction false} QuietTellsNothing(events: seq<Event>, id: string)
    requires forall e :: e in events ==> !Writes(e.name)
    ensures Told(events, id) == ""
  {
    if events != [] {
      QuietTellsNothing(events[1..], id);
    }
  }

  /** The adapter relays the answer delta by delta. */
  lemma {:induction false} AnswerIsTold(cfg: Config, s: Stream, lines: seq<string>, id: string)
    requires OneAnswer(cfg, lines, id)
    ensures var events := Batch(cfg, s, lines).events;
            OnlyDeltas(events, id) && Told(events, id) == Answer(cfg, lines, id)
    decreases |lines|
  {
    if lines != [] {
      var h := HandleLine(cfg, lines[0], s);
      assert Says(cfg, lines[0], id) || Quiet(cfg, lines[0]);
      if Says(cfg, lines[0], id) {
        SaysOneDelta(cfg, lines[0], id, s);
      } else {
        QuietTellsNothing(h.events, id);
      }
      assert !HasError(h.events);
      assert OneAnswer(cfg, lines[1..], id);
      AnswerIsTold(cfg, h.next, lines[1..], id);
      ToldConcat(h.events, Batch(cfg, h.next, lines[1..]).events, id);
    }
  }

  /** One event either writes its text to the bubble or leaves the state as it is. */
  lemma ReceiveOne(s: ChatState, e: Event, id: string)
    requires (IsDelta(e, id) || !Writes(e.name)) && id != "" && (id in s.renderedIds ==> s.assistantId == Some(id))
    ensures var text := Told([e], id);
            ApplySseEvent(s, e) == if text == "" then s else WriteTo(s, id, text)
  {
    assert [e][1..] == [];
    if IsDelta(e, id) {
      var text := Field(e.data, "content").s;
      assert text + "" == text;
    }
  }

  /** What a bubble shows after more text; nothing opens no bubble. */
  function Extended(shown: Option<string>, text: string): Option<string> {
    if text == "" then shown else Some((if shown.Some? then shown.value else "") + text)
  }

  lemma ExtendedTwice(shown: Option<string>, a: string, b: string)
    ensures Extended(Extended(shown, a), b) == Extended(shown, a + b)
  {
    var prior := if shown.Some? then shown.value else "";
    assert (prior + a) + b == prior + (a + b);
    assert a == "" ==> a + b == b;
    assert b == "" ==> a + b == a;
  }

  /** The reducer writes what it is told into one bubble and leaves every other alone. */
  lemma {:induction false} ToldIsShown(s: ChatState, events: seq<Event>, id: string, other: string)
    requires OnlyDeltas(events, id) && id != "" && (id in s.renderedIds ==> s.assistantId == Some(id))
    ensures Shown(Run(s, Received(events)).messages, other)
            == Extended(Shown(s.messages, other), if other == id then Told(events, id) else "")
    decreases |events|
  {
    if events == [] {
      assert Received(events) == [];
    } else {
      var (e, rest) := (events[0], events[1..]);
      assert events == [e] + rest;
      RunFirst(s, events);
      ReceiveOne(s, e, id);
      WriteShows(s, id, Told([e], id), other);
      ToldIsShown(ApplySseEvent(s, e), rest, id, other);
      ToldConcat([e], rest, id);
      ExtendedTwice(Shown(s.messages, other), Told([e], id), Told(rest, id));
    }
  }

  /**
   * The reader reads exactly what the model said: an upstream text that carries one answer in
   * pieces, among any quiet lines, cut into chunks anywhere on the way to the browser, ends as one
   * bubble showing the pieces run together, and every other bubble stands.
   */
  lemma ReaderReadsAnswer(
      cfg: Config, dumps: Json -> string, parse: string -> Option<Json>, upstream: string, chunks: seq<string>,
      s: ChatState, id: string, other: string)
    requires OneAnswer(cfg, TextLines(upstream), id) && Answer(cfg, TextLines(upstream), id) != ""
    requires AllFaithful(dumps, parse, Relayed(cfg, upstream))
    requires Concat(chunks) == Frames(dumps, Relayed(cfg, upstream))
    requires id != "" && id !in s.renderedIds && Shown(s.messages, id).None?
    ensures var end := Run(s, Received(PushAll(parse, FRESH, chunks).1));
            Shown(end.messages, other)
            == if other == id then Some(Answer(cfg, TextLines(upstream), id)) else Shown(s.messages, other)
  {
    DecoderReceivesRelayed(cfg, dumps, parse, upstream, chunks);
    AnswerIsTold(cfg, NEW_STREAM, TextLines(upstream), id);
    ToldIsShown(s, Relayed(cfg, upstream), id, other);
    assert "" + Answer(cfg, TextLines(upstream), id) == Answer(cfg, TextLines(upstream), id);
  }
}
