/**
 * What each upstream event is relayed as, field by field, and what a finished answer publishes
 * (`_map_event` and the end of `_handle_sse_line` of `app/services/dify_conversation_adapter.py`).
 */
module Envelope {
  import opened Wrappers
  import opened SseText
  import opened SseDecoding
  import opened DifyAdapter
  import opened EventPipeline

  /** What Python takes for false. */
  predicate Falsy(j: Json) {
    || j == Null || j == Bool(false) || j == Str("") || j == Arr([]) || j == Obj(map[])
    || (j.Num? && j.mantissa == 0)
  }

  lemma FalsyIffNotTruthy(j: Json)
    ensures Falsy(j) <==> !Truthy(j)
  {}

  /** The payload's own event name, or else the name of the last `event:` line, is that one. */
  predicate IsNamed(d: Fields, eventType: string, name: string) {
    if "event" in d && !Falsy(d["event"]) then d["event"] == Str(name) else eventType == name
  }

  lemma NamedIff(d: Fields, eventType: string, name: string)
    requires name != NOT_A_NAME
    ensures IsNamed(d, eventType, name) <==> EventName(d, eventType) == name
  {
    if "event" in d {
      FalsyIffNotTruthy(d["event"]);
    }
  }

  /** The field, or null if it is missing. */
  function FieldOf(d: Fields, key: string): Json {
    if key in d then d[key] else Null
  }

  /** The mapped event has that name, and each of the source's fields under its new name, and no other. */
  ghost predicate Wraps(m: Mapping, name: string, source: Fields, names: seq<(string, string)>) {
    m.Mapped? && m.event.name == name && Carries(m.event.data, source, names)
  }

  lemma PlainWraps(name: string, d: Fields)
    requires IsPlain(name)
    ensures Wraps(MapEvent(name, d), EnvelopeName(name), d, PlainRenaming(name))
  {
    MappedFields(name, d);
  }

  lemma MessageEvent(d: Fields)
    ensures Wraps(MapEvent("message", d), "message", d,
                  [("content", "answer"), ("messageId", "message_id"), ("conversationId", "conversation_id"),
                   ("taskId", "task_id")])
  {
    PlainWraps("message", d);
  }

  lemma AgentMessageEvent(d: Fields)
    ensures Wraps(MapEvent("agent_message", d), "agent_message", d,
                  [("answer", "answer"), ("messageId", "message_id"), ("taskId", "task_id")])
  {
    PlainWraps("agent_message", d);
  }

  lemma MessageReplaceEvent(d: Fields)
    ensures Wraps(MapEvent("message_replace", d), "replace", d,
                  [("answer", "answer"), ("messageId", "message_id"), ("taskId", "task_id")])
  {
    PlainWraps("message_replace", d);
  }

  lemma AgentThoughtEvent(d: Fields)
    ensures Wraps(MapEvent("agent_thought", d), "agent_thought", d,
                  [("thoughtId", "id"), ("thought", "thought"), ("tool", "tool"), ("observation", "observation")])
  {
    PlainWraps("agent_thought", d);
  }

  lemma MessageFileEvent(d: Fields)
    ensures Wraps(MapEvent("message_file", d), "file", d,
                  [("id", "id"), ("type", "type"), ("url", "url"), ("belongsTo", "belongs_to")])
  {
    PlainWraps("message_file", d);
  }

  lemma ErrorEvent(d: Fields)
    ensures Wraps(MapEvent("error", d), "error", d, [("code", "code"), ("message", "message"), ("status", "status")])
  {
    PlainWraps("error", d);
  }

  lemma WorkflowStartedEvent(d: Fields)
    ensures Wraps(MapEvent("workflow_started", d), "workflow_started", d, [("workflowRunId", "workflow_run_id")])
  {
    PlainWraps("workflow_started", d);
  }

  lemma TtsMessageEvent(d: Fields)
    ensures Wraps(MapEvent("tts_message", d), "tts_message", d,
                  [("audio", "audio"), ("messageId", "message_id"), ("taskId", "task_id")])
  {
    PlainWraps("tts_message", d);
  }

  lemma TtsMessageEndEvent(d: Fields)
    ensures Wraps(MapEvent("tts_message_end", d), "tts_message_end", d, [("audio", "audio")])
  {
    PlainWraps("tts_message_end", d);
  }

  /** `inner` is the object under `data`, empty where that is missing or false. */
  predicate IsInner(d: Fields, inner: Fields) {
    if "data" in d && !Falsy(d["data"]) then d["data"] == Obj(inner) else inner == map[]
  }

  lemma InnerIsNested(d: Fields, inner: Fields)
    requires IsInner(d, inner)
    ensures Nested(d, "data") == Some(inner)
  {
    if "data" in d {
      FalsyIffNotTruthy(d["data"]);
    }
  }

  lemma NestedWraps(name: string, d: Fields, inner: Fields)
    requires IsNested(name) && Nested(d, "data") == Some(inner)
    ensures Wraps(MapEvent(name, d), EnvelopeName(name), inner, NestedRenaming(name))
  {
    NestedIsNotPlain(name);
    MappedFields(name, d);
  }

  lemma NestedIsNotPlain(name: string)
    requires IsNested(name)
    ensures !IsPlain(name) && name != "message_end"
  {}

  lemma WorkflowFinishedEvent(d: Fields, inner: Fields)
    requires IsInner(d, inner)
    ensures Wraps(MapEvent("workflow_finished", d), "workflow_finished", inner,
                  [("status", "status"), ("outputs", "outputs"), ("error", "error")])
  {
    InnerIsNested(d, inner);
    NestedWraps("workflow_finished", d, inner);
  }

  lemma NodeStartedEvent(d: Fields, inner: Fields)
    requires IsInner(d, inner)
    ensures Wraps(MapEvent("node_started", d), "node_started", inner,
                  [("nodeId", "node_id"), ("title", "title"), ("index", "index")])
  {
    InnerIsNested(d, inner);
    NestedWraps("node_started", d, inner);
  }

  lemma NodeFinishedEvent(d: Fields, inner: Fields)
    requires IsInner(d, inner)
    ensures Wraps(MapEvent("node_finished", d), "node_finished", inner, [("nodeId", "node_id"), ("status", "status")])
  {
    InnerIsNested(d, inner);
    NestedWraps("node_finished", d, inner);
  }

  lemma ParallelBranchStartedEvent(d: Fields, inner: Fields)
    requires IsInner(d, inner)
    ensures Wraps(MapEvent("parallel_branch_started", d), "branch_started", inner,
                  [("parallelId", "parallel_id"), ("parallelBranchId", "parallel_branch_id")])
  {
    InnerIsNested(d, inner);
    NestedWraps("parallel_branch_started", d, inner);
  }

  lemma ParallelBranchFinishedEvent(d: Fields, inner: Fields)
    requires IsInner(d, inner)
    ensures Wraps(MapEvent("parallel_branch_finished", d), "branch_finished", inner, [("status", "status")])
  {
    InnerIsNested(d, inner);
    NestedWraps("parallel_branch_finished", d, inner);
  }

  lemma TextChunkEvent(d: Fields, inner: Fields)
    requires IsInner(d, inner)
    ensures Wraps(MapEvent("text_chunk", d), "text_chunk", inner, [("text", "text")])
  {
    InnerIsNested(d, inner);
    NestedWraps("text_chunk", d, inner);
  }

  lemma TextReplaceEvent(d: Fields, inner: Fields)
    requires IsInner(d, inner)
    ensures Wraps(MapEvent("text_replace", d), "text_replace", inner, [("text", "text")])
  {
    InnerIsNested(d, inner);
    NestedWraps("text_replace", d, inner);
  }

  // ---------------------------------------------------------------- the end of an answer

  /** A cited resource: its names and score, and the first 200 characters of its content. */
  ghost predicate Cites(out: Json, r: Json) {
    && r.Obj? && out.Obj? && out.fields.Keys == {"sourceName", "kbName", "score", "excerpt"}
    && out.fields["sourceName"] == FieldOf(r.fields, "document_name")
    && out.fields["kbName"] == FieldOf(r.fields, "dataset_name")
    && out.fields["score"] == FieldOf(r.fields, "score")
    && match FieldOf(r.fields, "content")
       case Str(text) => out.fields["excerpt"] == Str(if |text| <= 200 then text else text[..200])
       case content => Falsy(content) ==> out.fields["excerpt"] == Str("")
  }

  lemma ResourceCites(r: Json)
    requires Resource(r).Some?
    ensures Cites(Resource(r).value, r)
  {
    FalsyIffNotTruthy(FieldOf(r.fields, "content"));
    var (name, kb, score) := (("sourceName", "document_name"), ("kbName", "dataset_name"), ("score", "score"));
    assert [name, kb, score][..2] == [name, kb] && [name, kb][..1] == [name] && [name][..0] == [];
    assert Pick(r.fields, []) == map[];
    assert Pick(r.fields, [name]) == map["sourceName" := FieldOf(r.fields, "document_name")];
    assert Pick(r.fields, [name, kb])
        == map["sourceName" := FieldOf(r.fields, "document_name"), "kbName" := FieldOf(r.fields, "dataset_name")];
  }

  lemma {:induction false} ResourcesCite(rs: seq<Json>)
    requires Resources(rs).Some?
    ensures |Resources(rs).value| == |rs|
    ensures forall i :: 0 <= i < |rs| ==> Cites(Resources(rs).value[i], rs[i])
  {
    if rs != [] {
      ResourceCites(rs[0]);
      ResourcesCite(rs[1..]);
    }
  }

  /** The metadata of a finished answer, empty where it is missing or false. */
  predicate IsMetadata(d: Fields, metadata: Fields) {
    if "metadata" in d && !Falsy(d["metadata"]) then d["metadata"] == Obj(metadata) else metadata == map[]
  }

  /** The end of an answer: its trace id, its usage and one citation per retrieved resource, in order. */
  ghost predicate Closes(data: Json, d: Fields, metadata: Fields) {
    && data.Obj? && data.fields.Keys == {"traceId", "metadata"} && data.fields["traceId"] == FieldOf(d, "id")
    && data.fields["metadata"].Obj? && ClosingMetadata(data.fields["metadata"].fields, metadata)
  }

  ghost predicate ClosingMetadata(out: Fields, metadata: Fields) {
    && out.Keys == {"usage", "retrieverResources"} && out["usage"] == FieldOf(metadata, "usage")
    && out["retrieverResources"].Arr?
    && var cited := out["retrieverResources"].items;
       if "retriever_resources" in metadata && metadata["retriever_resources"].Arr? then
         var rs := metadata["retriever_resources"].items;
         |cited| == |rs| && forall i :: 0 <= i < |rs| ==> Cites(cited[i], rs[i])
       else cited == []
  }

  lemma MessageEndEvent(d: Fields, metadata: Fields)
    requires IsMetadata(d, metadata) && MapEvent("message_end", d).Mapped?
    ensures var e := MapEvent("message_end", d).event; e.name == "message_end" && Closes(e.data, d, metadata)
  {
    if "metadata" in d {
      FalsyIffNotTruthy(d["metadata"]);
    }
    assert Nested(d, "metadata") == Some(metadata);
    var resources := ResourceList(metadata).value;
    if "retriever_resources" in metadata && metadata["retriever_resources"].Arr? {
      ResourcesCite(metadata["retriever_resources"].items);
    }
    var out := map["usage" := Get(metadata, "usage"), "retrieverResources" := Arr(resources)];
    assert ClosingMetadata(out, metadata);
    assert MapEvent("message_end", d)
        == Mapped(Event("message_end", Obj(map["traceId" := Get(d, "id"), "metadata" := Obj(out)])));
  }

  /** What a finished answer publishes: the payload as it came and the trace as it stands. */
  function Completion(d: Fields, t: Trace): Completed {
    Completed(FieldOf(d, "conversation_id"), Obj(d), t.steps, t.toolCalls, t.output,
              if Falsy(t.status) then Str("success") else t.status)
  }

  /** The same event, with the notice set in its metadata. */
  ghost predicate IsNoticed(e: Event, noticed: Event, notice: bool) {
    && noticed.name == e.name && e.data.Obj? && noticed.data.Obj?
    && noticed.data.fields.Keys == e.data.fields.Keys && "metadata" in e.data.fields
    && (forall key :: key in e.data.fields && key != "metadata" ==> noticed.data.fields[key] == e.data.fields[key])
    && e.data.fields["metadata"].Obj? && noticed.data.fields["metadata"].Obj?
    && noticed.data.fields["metadata"].fields == e.data.fields["metadata"].fields["truncationNotice" := Bool(notice)]
  }

  /** A `message_end` line that is relayed publishes its completion and carries the notice; no other line publishes. */
  lemma LinePublishesIff(cfg: Config, line: string, s: Stream)
    requires HandleLine(cfg, line, s).Handled?
    ensures var (h, d) := (HandleLine(cfg, line, s), Payload(cfg, line));
            if d.Some? && IsNamed(d.value, s.eventType, "message_end") then
              && h.published == [Completion(d.value, s.trace)] && |h.events| == 1
              && MapEvent("message_end", d.value).Mapped?
              && IsNoticed(MapEvent("message_end", d.value).event, h.events[0], cfg.notice)
            else h.published == []
  {
    var d := Payload(cfg, line);
    if d.Some? {
      assert line[0] == 'd' && !StartsWith(line, "event:") by { assert "event:"[0] == 'e'; }
      var name := EventName(d.value, s.eventType);
      assert HandleLine(cfg, line, s) == Dispatch(cfg, name, d.value, s);
      NamedIff(d.value, s.eventType, "message_end");
      DispatchPublishes(cfg, name, d.value, s);
    }
  }

  lemma DispatchPublishes(cfg: Config, name: string, d: Fields, s: Stream)
    requires Dispatch(cfg, name, d, s).Handled?
    ensures var h := Dispatch(cfg, name, d, s);
            if name == "message_end" then
              && h.published == [Completion(d, s.trace)] && |h.events| == 1 && MapEvent(name, d).Mapped?
              && IsNoticed(MapEvent(name, d).event, h.events[0], cfg.notice)
            else h.published == []
  {
    FalsyIffNotTruthy(s.trace.status);
    if name == "message_end" {
      assert Accumulate(name, d, s.trace) == Some(s.trace);
    }
  }

  // ---------------------------------------------------------------- every line

  /**
   * Nothing known is lost: a line's payload is relayed as its mapped event, a `message_end` with the
   * notice, and a thought perhaps with a request behind it; a line without one relays nothing.
   */
  lemma LineRelays(cfg: Config, line: string, s: Stream, name: string)
    requires HandleLine(cfg, line, s).Handled? && name != NOT_A_NAME
    requires Payload(cfg, line).Some? ==> IsNamed(Payload(cfg, line).value, s.eventType, name)
    ensures var (events, d) := (HandleLine(cfg, line, s).events, Payload(cfg, line));
            if d.None? || MapEvent(name, d.value).Dropped? then events == []
            else
              && events != [] && MapEvent(name, d.value).Mapped?
              && (if name == "message_end" then IsNoticed(MapEvent(name, d.value).event, events[0], cfg.notice)
                  else events[0] == MapEvent(name, d.value).event)
              && (|events| > 1 ==> name == "agent_thought" && |events| == 2
                                   && events[1].name == "tool_approval_required")
  {
    var d := Payload(cfg, line);
    if d.Some? {
      assert line[0] == 'd' && !StartsWith(line, "event:") by { assert "event:"[0] == 'e'; }
      NamedIff(d.value, s.eventType, name);
      assert HandleLine(cfg, line, s) == Dispatch(cfg, name, d.value, s);
      if name == "message_end" {
        DispatchPublishes(cfg, name, d.value, s);
      }
    }
  }

  /** The lines of a text are its pieces between newlines, but for an empty piece at the end. */
  lemma LinesArePieces(text: string)
    ensures SplitLines(text) == TextLines(text) || SplitLines(text) == TextLines(text) + [""]
    ensures TextLines(text) != [] && SplitLines(text) == TextLines(text) ==>
              TextLines(text)[|TextLines(text)| - 1] != ""
  {
    var pieces := SplitLines(text);
    assert pieces == pieces[..|pieces| - 1] + [pieces[|pieces| - 1]];
  }
}
