/**
 * The adapter of `app/services/dify_conversation_adapter.py`: it reads the upstream's event
 * stream chunk by chunk and yields platform events, cut at the first error.
 *
 * `Batch` says what a whole text owes line by line; the streaming loop is proved to do just that.
 */
module DifyAdapter {
  import opened Wrappers
  import opened SseText
  import opened SseDecoding

  type Fields = map<string, Json>

  // ---------------------------------------------------------------- Python dictionaries

  function Get(d: Fields, key: string): Json {
    if key in d then d[key] else Null
  }

  predicate Truthy(j: Json) {
    match j
    case Null => false
    case Bool(b) => b
    case Num(m, _) => m != 0
    case Str(s) => s != ""
    case Arr(items) => items != []
    case Obj(fields) => fields != map[]
  }

  function OrElse(j: Json, other: Json): Json {
    if Truthy(j) then j else other
  }

  /** `d.get(key) or {}` used as a dictionary; None where Python would raise. */
  function Nested(d: Fields, key: string): Option<Fields> {
    var v := OrElse(Get(d, key), Obj(map[]));
    if v.Obj? then Some(v.fields) else None
  }

  /** `v[:n]`; None where Python would raise. */
  function Slice(v: Json, n: nat): Option<Json> {
    match v
    case Str(s) => Some(Str(if |s| <= n then s else s[..n]))
    case Arr(items) => Some(Arr(if |items| <= n then items else items[..n]))
    case _ => None
  }

  /** A dictionary of `d.get(source)` under each new name. */
  function Pick(d: Fields, names: seq<(string, string)>): Fields {
    if names == [] then map[]
    else Pick(d, names[..|names| - 1])[names[|names| - 1].0 := Get(d, names[|names| - 1].1)]
  }

  /** A value usable as a dictionary key. */
  predicate Hashable(j: Json) {
    !j.Arr? && !j.Obj?
  }

  // ---------------------------------------------------------------- the run-log trace

  const OBSERVATION_MAX_CHARS := 2000

  datatype TraceStep = TraceStep(node: Json, order: Json, name: Json, status: Json)

  datatype ToolCall = ToolCall(tool: Json, response: Json)

  /** Steps in the order their nodes first started. */
  datatype Trace = Trace(steps: seq<TraceStep>, toolCalls: seq<ToolCall>, output: Json, status: Json)

  const NEW_TRACE := Trace([], [], Null, Null)

  /** A dictionary assignment: a node that starts again keeps its position. */
  function PutStep(steps: seq<TraceStep>, s: TraceStep): seq<TraceStep> {
    if steps == [] then [s]
    else if steps[0].node == s.node then [s] + steps[1..]
    else [steps[0]] + PutStep(steps[1..], s)
  }

  function FinishStep(steps: seq<TraceStep>, node: Json, status: Json): seq<TraceStep> {
    if steps == [] then []
    else if steps[0].node == node then [steps[0].(status := status)] + steps[1..]
    else [steps[0]] + FinishStep(steps[1..], node, status)
  }

  /** Fold one event into the trace; None where Python would raise. */
  function Accumulate(name: string, d: Fields, t: Trace): Option<Trace> {
    if name == "node_started" then
      var node := Nested(d, "data");
      if node.None? || !Hashable(Get(node.value, "node_id")) then None
      else
        var id := Get(node.value, "node_id");
        if id == Null then Some(t)
        else Some(t.(steps := PutStep(t.steps,
          TraceStep(id, OrElse(Get(node.value, "index"), Num(0, 0)), OrElse(Get(node.value, "title"), Str("")),
                    Str("running")))))
    else if name == "node_finished" then
      var node := Nested(d, "data");
      if node.None? || !Hashable(Get(node.value, "node_id")) then None
      else Some(t.(steps := FinishStep(t.steps, Get(node.value, "node_id"), Get(node.value, "status"))))
    else if name == "agent_thought" then
      if !Truthy(Get(d, "tool")) then Some(t)
      else
        var response := if Truthy(Get(d, "observation")) then Slice(Get(d, "observation"), OBSERVATION_MAX_CHARS)
                        else Some(Null);
        if response.None? then None
        else Some(t.(toolCalls := t.toolCalls + [ToolCall(Get(d, "tool"), response.value)]))
    else if name == "message" || name == "message_replace" then
      Some(if Get(d, "answer") != Null then t.(output := Get(d, "answer")) else t)
    else if name == "workflow_finished" then
      var workflow := Nested(d, "data");
      if workflow.None? then None else Some(t.(status := Get(workflow.value, "status")))
    else Some(t)
  }

  // ---------------------------------------------------------------- mapping one event

  datatype Mapping = Dropped | Raises | Mapped(event: Event)

  function Plain(name: string, d: Fields, names: seq<(string, string)>): (m: Mapping)
    ensures m.Mapped? && m.event.name == name
  {
    Mapped(Event(name, Obj(Pick(d, names))))
  }

  function FromData(name: string, d: Fields, names: seq<(string, string)>): (m: Mapping)
    ensures !m.Dropped?
    ensures m.Mapped? ==> m.event.name == name
  {
    var inner := Nested(d, "data");
    if inner.None? then Raises else Plain(name, inner.value, names)
  }

  function Resource(r: Json): Option<Json> {
    if !r.Obj? then None else
    var excerpt := Slice(OrElse(Get(r.fields, "content"), Str("")), 200);
    if excerpt.None? then None
    else Some(Obj(Pick(r.fields, [("sourceName", "document_name"), ("kbName", "dataset_name"), ("score", "score")])
                  ["excerpt" := excerpt.value]))
  }

  function Resources(rs: seq<Json>): Option<seq<Json>> {
    if rs == [] then Some([]) else
    var (first, rest) := (Resource(rs[0]), Resources(rs[1..]));
    if first.None? || rest.None? then None else Some([first.value] + rest.value)
  }

  /** Iterating `metadata.get("retriever_resources", [])`; None where Python would raise. */
  function ResourceList(metadata: Fields): Option<seq<Json>> {
    if "retriever_resources" !in metadata then Some([])
    else match metadata["retriever_resources"]
         case Arr(items) => Resources(items)
         case Str(s) => if s == "" then Some([]) else None
         case Obj(fields) => if fields == map[] then Some([]) else None
         case _ => None
  }

  function MessageEnd(d: Fields): (m: Mapping)
    ensures !m.Dropped?
    ensures m.Mapped? ==> m.event.name == "message_end"
  {
    var metadata := Nested(d, "metadata");
    if metadata.None? then Raises else
    var resources := ResourceList(metadata.value);
    if resources.None? then Raises
    else Mapped(Event("message_end", Obj(map[
      "traceId" := Get(d, "id"),
      "metadata" := Obj(map["usage" := Get(metadata.value, "usage"), "retrieverResources" := Arr(resources.value)])])))
  }

  /** The events the platform knows, all of them written by the mapping. */
  predicate PlatformName(name: string) {
    || name == "message" || name == "message_end" || name == "file" || name == "replace" || name == "agent_message"
    || name == "agent_thought" || name == "workflow_started" || name == "workflow_finished"
    || name == "node_started" || name == "node_finished" || name == "branch_started" || name == "branch_finished"
    || name == "text_chunk" || name == "text_replace" || name == "tts_message" || name == "tts_message_end"
    || name == "error" || name == "tool_approval_required"
  }

  /** The upstream events that are carried over field by field. */
  predicate IsPlain(name: string) {
    || name == "message" || name == "message_file" || name == "message_replace" || name == "agent_message"
    || name == "agent_thought" || name == "workflow_started" || name == "tts_message" || name == "tts_message_end"
    || name == "error"
  }

  /** Those whose fields are read inside `data`. */
  predicate IsNested(name: string) {
    || name == "workflow_finished" || name == "node_started" || name == "node_finished"
    || name == "parallel_branch_started" || name == "parallel_branch_finished"
    || name == "text_chunk" || name == "text_replace"
  }

  /** The platform's name for an upstream event. */
  function EnvelopeName(name: string): string {
    match name
    case "message_file" => "file"
    case "message_replace" => "replace"
    case "parallel_branch_started" => "branch_started"
    case "parallel_branch_finished" => "branch_finished"
    case _ => name
  }

  /** The platform's name for each upstream field of a plain event. */
  function PlainRenaming(name: string): seq<(string, string)> {
    match name
    case "message" =>
      [("content", "answer"), ("messageId", "message_id"), ("conversationId", "conversation_id"), ("taskId", "task_id")]
    case "message_file" => [("id", "id"), ("type", "type"), ("url", "url"), ("belongsTo", "belongs_to")]
    case "agent_thought" =>
      [("thoughtId", "id"), ("thought", "thought"), ("tool", "tool"), ("observation", "observation")]
    case "workflow_started" => [("workflowRunId", "workflow_run_id")]
    case "tts_message" => [("audio", "audio"), ("messageId", "message_id"), ("taskId", "task_id")]
    case "tts_message_end" => [("audio", "audio")]
    case "error" => [("code", "code"), ("message", "message"), ("status", "status")]
    case _ => [("answer", "answer"), ("messageId", "message_id"), ("taskId", "task_id")]
  }

  /** The platform's name for each field inside `data`. */
  function NestedRenaming(name: string): seq<(string, string)> {
    match name
    case "workflow_finished" => [("status", "status"), ("outputs", "outputs"), ("error", "error")]
    case "node_started" => [("nodeId", "node_id"), ("title", "title"), ("index", "index")]
    case "node_finished" => [("nodeId", "node_id"), ("status", "status")]
    case "parallel_branch_started" => [("parallelId", "parallel_id"), ("parallelBranchId", "parallel_branch_id")]
    case "parallel_branch_finished" => [("status", "status")]
    case _ => [("text", "text")]
  }

  /** The platform knows the new name, and an error is still an error. */
  predicate WellNamed(name: string) {
    var envelope := EnvelopeName(name);
    && PlatformName(envelope) && envelope != "tool_approval_required" && envelope != "message_end"
    && (envelope == "error" <==> name == "error")
  }

  lemma PlainIsWellNamed(name: string)
    requires IsPlain(name)
    ensures WellNamed(name)
  {
    if name == "message_file" {
      assert EnvelopeName(name) == "file";
    } else if name == "message_replace" {
      assert EnvelopeName(name) == "replace";
    } else {
      assert EnvelopeName(name) == name;
    }
  }

  lemma NestedIsWellNamed(name: string)
    requires IsNested(name)
    ensures WellNamed(name)
  {}

  /** Map one upstream event onto the platform envelope; `ping` and unknown events are dropped. */
  function MapEvent(name: string, d: Fields): (m: Mapping)
    ensures m.Dropped? <==> name != "message_end" && !IsPlain(name) && !IsNested(name)
    ensures m.Mapped? ==> m.event.name == EnvelopeName(name)
    ensures m.Mapped? ==> PlatformName(m.event.name) && m.event.name != "tool_approval_required"
    ensures m.Mapped? ==> (m.event.name == "error" <==> name == "error")
    ensures m.Mapped? ==> (m.event.name == "message_end" <==> name == "message_end")
  {
    if name == "message_end" then MessageEnd(d)
    else if IsPlain(name) then
      PlainIsWellNamed(name);
      Plain(EnvelopeName(name), d, PlainRenaming(name))
    else if IsNested(name) then
      NestedIsWellNamed(name);
      FromData(EnvelopeName(name), d, NestedRenaming(name))
    else Dropped
  }

  // ---------------------------------------------------------------- what the envelope carries

  /** A picked field can be read back under its new name. */
  lemma {:induction false} PickFinds(d: Fields, names: seq<(string, string)>, i: nat)
    requires i < |names| && forall j :: i < j < |names| ==> names[j].0 != names[i].0
    ensures names[i].0 in Pick(d, names) && Pick(d, names)[names[i].0] == Get(d, names[i].1)
  {
    if i < |names| - 1 {
      PickFinds(d, names[..|names| - 1], i);
    }
  }

  lemma {:induction false} PickKeys(d: Fields, names: seq<(string, string)>, key: string)
    ensures key in Pick(d, names) <==> exists i :: 0 <= i < |names| && names[i].0 == key
  {
    if names != [] {
      var n := |names| - 1;
      PickKeys(d, names[..n], key);
      assert forall i :: 0 <= i < n ==> names[..n][i] == names[i];
    }
  }

  predicate DistinctNames(names: seq<(string, string)>) {
    forall i, j :: 0 <= i < j < |names| ==> names[i].0 != names[j].0
  }

  /** A picked payload holds each upstream field under its new name, and nothing else. */
  ghost predicate Carries(data: Json, source: Fields, names: seq<(string, string)>) {
    && data.Obj?
    && (forall i :: 0 <= i < |names| ==>
          && names[i].0 in data.fields
          && data.fields[names[i].0] == if names[i].1 in source then source[names[i].1] else Null)
    && (forall key :: key in data.fields ==> exists i :: 0 <= i < |names| && names[i].0 == key)
  }

  lemma PickCarries(d: Fields, names: seq<(string, string)>)
    requires DistinctNames(names)
    ensures Carries(Obj(Pick(d, names)), d, names)
  {
    forall i | 0 <= i < |names|
      ensures names[i].0 in Pick(d, names) && Pick(d, names)[names[i].0] == Get(d, names[i].1)
    {
      PickFinds(d, names, i);
    }
    forall key | key in Pick(d, names) ensures exists i :: 0 <= i < |names| && names[i].0 == key {
      PickKeys(d, names, key);
    }
  }

  predicate IsAnswer(name: string) {
    name == "message" || name == "message_file" || name == "agent_thought"
  }

  lemma AnswerIsDistinct(name: string)
    requires IsAnswer(name)
    ensures DistinctNames(PlainRenaming(name))
  {}

  lemma PlainIsDistinct(name: string)
    ensures DistinctNames(PlainRenaming(name))
  {
    if IsAnswer(name) {
      AnswerIsDistinct(name);
    }
  }

  lemma NestedIsDistinct(name: string)
    ensures DistinctNames(NestedRenaming(name))
  {}

  /**
   * Every mapped event but `message_end` carries exactly its upstream fields, each under its
   * platform name: those of the event itself, or for workflow and text events those of `data`.
   */
  lemma MappedFields(name: string, d: Fields)
    requires MapEvent(name, d).Mapped? && name != "message_end"
    ensures if IsPlain(name) then Carries(MapEvent(name, d).event.data, d, PlainRenaming(name))
            else Nested(d, "data").Some?
                 && Carries(MapEvent(name, d).event.data, Nested(d, "data").value, NestedRenaming(name))
  {
    if IsPlain(name) {
      PlainIsDistinct(name);
      PickCarries(d, PlainRenaming(name));
    } else {
      NestedIsDistinct(name);
      PickCarries(Nested(d, "data").value, NestedRenaming(name));
    }
  }

  // ---------------------------------------------------------------- one line

  /** The payload published as `conversation.completed`. */
  datatype Completed = Completed(
    conversationId: Json, messageEnd: Json, steps: seq<TraceStep>, toolCalls: seq<ToolCall>, output: Json, status: Json)

  /**
   * What the adapter is given: the JSON reader, the notice flag, and the approval gateway, whose
   * answer to the n-th request of the stream is `gateway(n, tool, params)`.
   */
  datatype Config = Config(
    loads: string -> Option<Json>, notice: bool, gateway: Option<(nat, string, Json) -> Option<Json>>)

  datatype Stream = Stream(eventType: string, trace: Trace, asked: nat)

  const NEW_STREAM := Stream("", NEW_TRACE, 0)

  datatype LineResult = Raised | Handled(next: Stream, events: seq<Event>, published: seq<Completed>)

  /** Stands for the text of an event name that is no string; it names no event. */
  const NOT_A_NAME := "<not a string>"

  function EventName(d: Fields, eventType: string): string {
    var e := Get(d, "event");
    if !Truthy(e) then eventType else if e.Str? then e.s else NOT_A_NAME
  }

  function ToolInput(loads: string -> Option<Json>, raw: Json): Json {
    match raw
    case Obj(_) => raw
    case Str(s) => (match loads(s) case Some(Obj(fields)) => Obj(fields) case _ => Obj(map[]))
    case _ => Obj(map[])
  }

  /** Whether an `agent_thought` asks for approval: a named tool with input and no observation yet. */
  predicate AsksApproval(cfg: Config, d: Fields) {
    && cfg.gateway.Some?
    && Get(d, "tool").Str? && Get(d, "tool").s != ""
    && Truthy(Get(d, "tool_input")) && !Truthy(Get(d, "observation"))
  }

  function WithNotice(e: Event, notice: bool): Event {
    if e.data.Obj? && "metadata" in e.data.fields && e.data.fields["metadata"].Obj? then
      var metadata := e.data.fields["metadata"].fields["truncationNotice" := Bool(notice)];
      e.(data := Obj(e.data.fields["metadata" := Obj(metadata)]))
    else e
  }

  function CompletedOf(d: Fields, t: Trace): Completed {
    Completed(Get(d, "conversation_id"), Obj(d), t.steps, t.toolCalls, t.output, OrElse(t.status, Str("success")))
  }

  /** Dispatch one parsed payload under its event name. */
  function Dispatch(cfg: Config, name: string, d: Fields, s: Stream): LineResult {
    var trace := Accumulate(name, d, s.trace);
    if trace.None? then Raised else
    var next := Stream("", trace.value, s.asked);
    match MapEvent(name, d)
    case Dropped => Handled(next, [], [])
    case Raises => Raised
    case Mapped(e) =>
      if name == "message_end" then Handled(next, [WithNotice(e, cfg.notice)], [CompletedOf(d, trace.value)])
      else if name == "agent_thought" && AsksApproval(cfg, d) then
        var answer := cfg.gateway.value(s.asked, Get(d, "tool").s, ToolInput(cfg.loads, Get(d, "tool_input")));
        Handled(next.(asked := s.asked + 1),
                if answer.None? then [e] else [e, Event("tool_approval_required", answer.value)], [])
      else Handled(next, [e], [])
  }

  function HandleLine(cfg: Config, line: string, s: Stream): LineResult {
    if StartsWith(line, "event:") then Handled(s.(eventType := Trim(IsPySpace, line[6..])), [], [])
    else if !StartsWith(line, "data:") then Handled(s, [], [])
    else
      var payload := Trim(IsPySpace, line[5..]);
      var reset := s.(eventType := "");
      if payload == "" then Handled(reset, [], [])
      else match cfg.loads(payload)
           case Some(Obj(d)) => Dispatch(cfg, EventName(d, s.eventType), d, s)
           case _ => Handled(reset, [], [])
  }

  // ---------------------------------------------------------------- a whole text

  /** The lines of a text, the unterminated last one included when it holds anything. */
  function TextLines(text: string): seq<string> {
    var pieces := SplitLines(text);
    Complete(pieces) + (if Last(pieces) == "" then [] else [Last(pieces)])
  }

  datatype Outcome = Outcome(events: seq<Event>, published: seq<Completed>, raised: bool)

  predicate HasError(events: seq<Event>) {
    exists e :: e in events && e.name == "error"
  }

  function Before(events: seq<Event>, published: seq<Completed>, o: Outcome): Outcome {
    Outcome(events + o.events, published + o.published, o.raised)
  }

  /** Map line after line, up to the first line that yields an error. */
  function Batch(cfg: Config, s: Stream, lines: seq<string>): Outcome
    decreases lines
  {
    if lines == [] then Outcome([], [], false) else
    match HandleLine(cfg, lines[0], s)
    case Raised => Outcome([], [], true)
    case Handled(next, events, published) =>
      if HasError(events) then Outcome(events, published, false)
      else Before(events, published, Batch(cfg, next, lines[1..]))
  }

  class DifyConversationAdapter {
    const loads: string -> Option<Json>
    const gateway: Option<(nat, string, Json) -> Option<Json>>
    var truncationNotice: bool

    constructor (loads: string -> Option<Json>, gateway: Option<(nat, string, Json) -> Option<Json>>)
      ensures this.loads == loads && this.gateway == gateway
    {
      this.loads, this.gateway, truncationNotice := loads, gateway, false;
    }

    /**
     * The loop over the complete lines of one read. When it stops, the stream has ended with `o`;
     * otherwise `o` is what these lines yielded, whatever lines come `later`.
     */
    method RelayLines(cfg: Config, lines: seq<string>, start: Stream, ghost later: seq<string>)
      returns (o: Outcome, s: Stream, stop: bool)
      ensures Batch(cfg, start, lines + later)
              == if stop then o else Before(o.events, o.published, Batch(cfg, s, later))
    {
      s := start;
      var events, published := [], [];
      BeforeNothing(Batch(cfg, start, lines + later));
      assert lines[0..] == lines;
      for j := 0 to |lines|
        invariant Batch(cfg, start, lines + later) == Before(events, published, Batch(cfg, s, lines[j..] + later))
      {
        assert (lines[j..] + later)[0] == lines[j] && (lines[j..] + later)[1..] == lines[j + 1..] + later;
        match HandleLine(cfg, lines[j], s) {
          case Raised =>
            BeforeEnd(events, published, true);
            return Outcome(events, published, true), s, true;
          case Handled(next, more, completed) =>
            BeforeBefore(events, published, more, completed, Batch(cfg, next, lines[j + 1..] + later));
            s, events, published := next, events + more, published + completed;
            if exists e :: e in more && e.name == "error" {
              return Outcome(events, published, false), s, true;
            }
        }
      }
      assert lines[|lines|..] + later == later;
      return Outcome(events, published, false), s, false;
    }

    /** A last line that ended without a newline. */
    method Flush(cfg: Config, s: Stream, buffer: string) returns (o: Outcome)
      requires '\n' !in buffer
      ensures o == Batch(cfg, s, TextLines(buffer))
    {
      OneLineText(buffer);
      if buffer == "" {
        return Outcome([], [], false);
      }
      BatchOne(cfg, s, buffer);
      match HandleLine(cfg, buffer, s) {
        case Raised => o := Outcome([], [], true);
        case Handled(_, events, published) => o := Outcome(events, published, false);
      }
    }

    /** Read the stream chunk by chunk; each chunk is the text one read decoded to. */
    method StreamEvents(chunks: seq<string>) returns (o: Outcome)
      ensures o == Batch(Config(loads, truncationNotice, gateway), NEW_STREAM, TextLines(Concat(chunks)))
    {
      var cfg := Config(loads, truncationNotice, gateway);
      ghost var goal := Batch(cfg, NEW_STREAM, TextLines(Concat(chunks)));
      var buffer, s := "", NEW_STREAM;
      var events, published := [], [];
      assert chunks[0..] == chunks && "" + Concat(chunks) == Concat(chunks);
      BeforeNothing(goal);
      for i := 0 to |chunks|
        invariant '\n' !in buffer
        invariant goal == Before(events, published, Batch(cfg, s, TextLines(buffer + Concat(chunks[i..]))))
      {
        ChunkLines(buffer, chunks, i);
        var pieces := SplitLines(buffer + chunks[i]);
        buffer := pieces[|pieces| - 1];
        ghost var later := TextLines(buffer + Concat(chunks[i + 1..]));
        var relayed, next, stop := RelayLines(cfg, pieces[..|pieces| - 1], s, later);
        if stop {
          return Before(events, published, relayed);
        }
        BeforeBefore(events, published, relayed.events, relayed.published, Batch(cfg, next, later));
        s, events, published := next, events + relayed.events, published + relayed.published;
      }
      assert buffer + Concat(chunks[|chunks|..]) == buffer;
      var flushed := Flush(cfg, s, buffer);
      return Before(events, published, flushed);
    }
  }

  lemma BeforeEnd(events: seq<Event>, published: seq<Completed>, raised: bool)
    ensures Before(events, published, Outcome([], [], raised)) == Outcome(events, published, raised)
  {
    assert events + [] == events && published + [] == published;
  }

  /** A text without newlines is one line, or none when empty. */
  lemma OneLineText(text: string)
    requires '\n' !in text
    ensures TextLines(text) == if text == "" then [] else [text]
  {
    NoNewlineNoSplit(text);
    assert Complete([text]) == [];
  }

  lemma BatchOne(cfg: Config, s: Stream, line: string)
    ensures Batch(cfg, s, [line]) == match HandleLine(cfg, line, s)
                                     case Raised => Outcome([], [], true)
                                     case Handled(_, events, published) => Outcome(events, published, false)
  {
    assert [line][1..] == [];
    match HandleLine(cfg, line, s)
    case Raised =>
    case Handled(next, events, published) => BeforeEnd(events, published, false);
  }

  lemma BeforeNothing(o: Outcome)
    ensures Before([], [], o) == o
  {
    assert [] + o.events == o.events && [] + o.published == o.published;
  }

  lemma BeforeBefore(e1: seq<Event>, p1: seq<Completed>, e2: seq<Event>, p2: seq<Completed>, o: Outcome)
    ensures Before(e1, p1, Before(e2, p2, o)) == Before(e1 + e2, p1 + p2, o)
  {
    assert e1 + (e2 + o.events) == (e1 + e2) + o.events;
    assert p1 + (p2 + o.published) == (p1 + p2) + o.published;
  }

  /** One more chunk completes some lines and leaves an unterminated rest. */
  lemma ChunkLines(buffer: string, chunks: seq<string>, i: nat)
    requires i < |chunks|
    ensures var pieces := SplitLines(buffer + chunks[i]);
            && '\n' !in Last(pieces)
            && TextLines(buffer + Concat(chunks[i..]))
               == Complete(pieces) + TextLines(Last(pieces) + Concat(chunks[i + 1..]))
  {
    assert chunks[i..][1..] == chunks[i + 1..];
    assert buffer + Concat(chunks[i..]) == (buffer + chunks[i]) + Concat(chunks[i + 1..]);
    PiecesHaveNoNewline(buffer + chunks[i]);
    LinesAfterCut(buffer + chunks[i], Concat(chunks[i + 1..]));
  }

  /** The lines of a text are the complete lines of its start, then those of what is left over. */
  lemma LinesAfterCut(a: string, b: string)
    ensures TextLines(a + b) == Complete(SplitLines(a)) + TextLines(Last(SplitLines(a)) + b)
  {
    SplitTwice(a, b);
  }

  // ---------------------------------------------------------------- what the cut means

  /** Every line mapped, errors or not: the same transformation without the cut. */
  function Uncut(cfg: Config, s: Stream, lines: seq<string>): Outcome
    decreases lines
  {
    if lines == [] then Outcome([], [], false) else
    match HandleLine(cfg, lines[0], s)
    case Raised => Outcome([], [], true)
    case Handled(next, events, published) => Before(events, published, Uncut(cfg, next, lines[1..]))
  }

  /** Everything up to and including the first error. */
  function CutAfterError(events: seq<Event>): seq<Event> {
    if events == [] then []
    else if events[0].name == "error" then [events[0]]
    else [events[0]] + CutAfterError(events[1..])
  }

  /** The `message_end` events among some events. */
  function Ends(events: seq<Event>): seq<Event> {
    if events == [] then []
    else (if events[0].name == "message_end" then [events[0]] else []) + Ends(events[1..])
  }

  /** Each completion was published for the `message_end` at the same place in the stream. */
  predicate Announced(ends: seq<Event>, published: seq<Completed>, notice: bool) {
    && |ends| == |published|
    && forall k :: 0 <= k < |ends| ==> Announces(ends[k], published[k], notice)
  }

  /** The `message_end` is mapped from the very payload the completion carries, with the truncation notice. */
  predicate Announces(end: Event, c: Completed, notice: bool) {
    && c.messageEnd.Obj? && MessageEnd(c.messageEnd.fields).Mapped?
    && end == WithNotice(MessageEnd(c.messageEnd.fields).event, notice)
  }

  /** What one line yields: at most a mapped event and an approval request; an error comes alone. */
  lemma LineYields(cfg: Config, line: string, s: Stream)
    requires HandleLine(cfg, line, s).Handled?
    ensures var h := HandleLine(cfg, line, s);
            && (forall e :: e in h.events ==> PlatformName(e.name))
            && (HasError(h.events) ==> |h.events| == 1)
            && Announced(Ends(h.events), h.published, cfg.notice)
  {
    var h := HandleLine(cfg, line, s);
    if h.events != [] {
      var payload := Trim(IsPySpace, line[5..]);
      var d := cfg.loads(payload).value.fields;
      var name := EventName(d, s.eventType);
      assert h == Dispatch(cfg, name, d, s);
      DispatchYields(cfg, name, d, s);
    } else {
      assert h.published == [];
    }
  }

  lemma {:induction false} NoEnds(events: seq<Event>)
    requires forall e :: e in events ==> e.name != "message_end"
    ensures Ends(events) == []
  {
    if events != [] {
      NoEnds(events[1..]);
    }
  }

  lemma DispatchYields(cfg: Config, name: string, d: Fields, s: Stream)
    requires Dispatch(cfg, name, d, s).Handled?
    ensures var h := Dispatch(cfg, name, d, s);
            && (h.events == [] ==> h.published == [])
            && (forall e :: e in h.events ==> PlatformName(e.name))
            && (HasError(h.events) ==> |h.events| == 1)
            && Announced(Ends(h.events), h.published, cfg.notice)
  {
    var h := Dispatch(cfg, name, d, s);
    if MapEvent(name, d).Mapped? {
      var e := MapEvent(name, d).event;
      assert h.events[0].name == e.name;
      assert h.events[1..] == [] || h.events[1..] == [h.events[1]];
      if name == "message_end" {
        assert h.events == [WithNotice(e, cfg.notice)] && h.published[0].messageEnd == Obj(d);
        assert Announces(h.events[0], h.published[0], cfg.notice);
      } else {
        NoEnds(h.events);
      }
    }
  }

  lemma {:induction false} EndsConcat(a: seq<Event>, b: seq<Event>)
    ensures Ends(a + b) == Ends(a) + Ends(b)
  {
    if a == [] {
      assert a + b == b;
    } else {
      EndsConcat(a[1..], b);
      assert (a + b)[0] == a[0] && (a + b)[1..] == a[1..] + b;
    }
  }

  lemma AnnouncedJoin(ends: seq<Event>, p: seq<Completed>, more: seq<Event>, q: seq<Completed>, notice: bool)
    requires Announced(ends, p, notice) && Announced(more, q, notice)
    ensures Announced(ends + more, p + q, notice)
  {}

  lemma AnnouncedConcat(a: seq<Event>, p: seq<Completed>, b: seq<Event>, q: seq<Completed>, notice: bool)
    requires Announced(Ends(a), p, notice) && Announced(Ends(b), q, notice)
    ensures Announced(Ends(a + b), p + q, notice)
  {
    EndsConcat(a, b);
    AnnouncedJoin(Ends(a), p, Ends(b), q, notice);
  }

  lemma {:induction false} CutAfterPrefix(a: seq<Event>, b: seq<Event>)
    requires !HasError(a)
    ensures CutAfterError(a + b) == a + CutAfterError(b)
  {
    if a == [] {
      assert a + b == b;
    } else {
      assert a[0] in a && forall e :: e in a[1..] ==> e in a;
      CutAfterPrefix(a[1..], b);
      assert (a + b)[0] == a[0] && (a + b)[1..] == a[1..] + b;
      assert a == [a[0]] + a[1..];
    }
  }

  /**
   * The adapter yields the line-by-line mapping of the whole text, cut just after its first error
   * event; without an error, nothing is cut.
   */
  lemma {:induction false} CutAtFirstError(cfg: Config, s: Stream, lines: seq<string>)
    ensures var (all, cut) := (Uncut(cfg, s, lines), Batch(cfg, s, lines));
            && cut.events == CutAfterError(all.events)
            && cut.published <= all.published
            && (!HasError(all.events) ==> cut == all)
    decreases |lines|
  {
    if lines != [] && HandleLine(cfg, lines[0], s).Handled? {
      var h := HandleLine(cfg, lines[0], s);
      LineYields(cfg, lines[0], s);
      CutAtFirstError(cfg, h.next, lines[1..]);
      var rest := Uncut(cfg, h.next, lines[1..]).events;
      if HasError(h.events) {
        assert (h.events + rest)[0] == h.events[0];
        assert h.events == [h.events[0]] && h.events[0] in h.events + rest;
      } else {
        CutAfterPrefix(h.events, rest);
        assert forall e :: e in rest ==> e in h.events + rest;
      }
    }
  }

  /** Only the last event may be an error, and the platform knows every one. */
  predicate WellEnded(events: seq<Event>) {
    && (forall i :: 0 <= i < |events| - 1 ==> events[i].name != "error")
    && (forall e :: e in events ==> PlatformName(e.name))
  }

  lemma WellEndedConcat(a: seq<Event>, b: seq<Event>)
    requires !HasError(a) && WellEnded(a) && WellEnded(b)
    ensures WellEnded(a + b)
  {
    forall i | 0 <= i < |a + b| - 1 ensures (a + b)[i].name != "error" {
      if i < |a| {
        assert a[i] in a;
      } else {
        assert (a + b)[i] == b[i - |a|];
      }
    }
  }

  /** An error ends the stream: it is unique and last, and every event is one the platform knows. */
  lemma {:induction false} ErrorIsLast(cfg: Config, s: Stream, lines: seq<string>)
    ensures WellEnded(Batch(cfg, s, lines).events)
    decreases |lines|
  {
    if lines != [] && HandleLine(cfg, lines[0], s).Handled? {
      var h := HandleLine(cfg, lines[0], s);
      LineYields(cfg, lines[0], s);
      if !HasError(h.events) {
        assert forall i :: 0 <= i < |h.events| ==> h.events[i] in h.events;
        ErrorIsLast(cfg, h.next, lines[1..]);
        WellEndedConcat(h.events, Batch(cfg, h.next, lines[1..]).events);
      }
    }
  }

  /**
   * `conversation.completed` is published once for each `message_end` before the cut, in order,
   * with the payload that `message_end` was mapped from.
   */
  lemma {:induction false} CompletedOncePerEnd(cfg: Config, s: Stream, lines: seq<string>)
    ensures var o := Batch(cfg, s, lines); Announced(Ends(o.events), o.published, cfg.notice)
    decreases |lines|
  {
    if lines != [] && HandleLine(cfg, lines[0], s).Handled? {
      var h := HandleLine(cfg, lines[0], s);
      LineYields(cfg, lines[0], s);
      if !HasError(h.events) {
        CompletedOncePerEnd(cfg, h.next, lines[1..]);
        var rest := Batch(cfg, h.next, lines[1..]);
        AnnouncedConcat(h.events, h.published, rest.events, rest.published, cfg.notice);
      }
    }
  }
}
