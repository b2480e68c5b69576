/**
 * What the adapter records of a stream for the run log: the trace that `_accumulate_trace` of
 * `app/services/dify_conversation_adapter.py` folds, as published with `conversation.completed`.
 */
module RunLogTrace {
  import opened Wrappers
  import opened SseText
  import opened SseDecoding
  import opened DifyAdapter
  import opened EventPipeline
  import opened Envelope

  // ---------------------------------------------------------------- steps

  function Nodes(steps: seq<TraceStep>): (nodes: seq<Json>)
    ensures |nodes| == |steps| && forall i :: 0 <= i < |steps| ==> nodes[i] == steps[i].node
  {
    if steps == [] then [] else [steps[0].node] + Nodes(steps[1..])
  }

  /** One step per node, as in a dictionary. */
  predicate OnePerNode(steps: seq<TraceStep>) {
    forall i, j :: 0 <= i < j < |steps| ==> steps[i].node != steps[j].node
  }

  function StepOf(steps: seq<TraceStep>, node: Json): Option<TraceStep> {
    if steps == [] then None
    else if steps[0].node == node then Some(steps[0])
    else StepOf(steps[1..], node)
  }

  lemma {:induction false} PutStepNodes(steps: seq<TraceStep>, s: TraceStep)
    ensures Nodes(PutStep(steps, s)) == if s.node in Nodes(steps) then Nodes(steps) else Nodes(steps) + [s.node]
  {
    if steps != [] && steps[0].node != s.node {
      PutStepNodes(steps[1..], s);
      assert PutStep(steps, s)[1..] == PutStep(steps[1..], s);
    } else if steps != [] {
      assert PutStep(steps, s)[1..] == steps[1..];
    }
  }

  lemma {:induction false} PutStepOf(steps: seq<TraceStep>, s: TraceStep, other: Json)
    ensures StepOf(PutStep(steps, s), other) == if other == s.node then Some(s) else StepOf(steps, other)
  {
    if steps != [] && steps[0].node != s.node {
      PutStepOf(steps[1..], s, other);
      assert PutStep(steps, s)[1..] == PutStep(steps[1..], s);
    } else if steps != [] {
      assert PutStep(steps, s)[1..] == steps[1..];
    }
  }

  lemma {:induction false} FinishStepNodes(steps: seq<TraceStep>, node: Json, status: Json)
    ensures Nodes(FinishStep(steps, node, status)) == Nodes(steps)
  {
    if steps != [] && steps[0].node != node {
      FinishStepNodes(steps[1..], node, status);
      assert FinishStep(steps, node, status)[1..] == FinishStep(steps[1..], node, status);
    } else if steps != [] {
      assert FinishStep(steps, node, status)[1..] == steps[1..];
    }
  }

  lemma {:induction false} FinishStepOf(steps: seq<TraceStep>, node: Json, status: Json, other: Json)
    ensures var before := StepOf(steps, other);
            StepOf(FinishStep(steps, node, status), other)
            == if other == node && before.Some? then Some(before.value.(status := status)) else before
  {
    if steps != [] && steps[0].node != node {
      FinishStepOf(steps[1..], node, status, other);
      assert FinishStep(steps, node, status)[1..] == FinishStep(steps[1..], node, status);
    } else if steps != [] {
      assert FinishStep(steps, node, status)[1..] == steps[1..];
    }
  }

  lemma StartKeepsSteps(d: Fields, t: Trace, other: Json)
    requires OnePerNode(t.steps) && Accumulate("node_started", d, t).Some?
    ensures var after := Accumulate("node_started", d, t).value;
            && OnePerNode(after.steps) && Nodes(t.steps) <= Nodes(after.steps)
            && StepOf(after.steps, other) == StepAfter("node_started", d, StepOf(t.steps, other), other)
  {
    var node := Nested(d, "data").value;
    if Get(node, "node_id") != Null {
      PutStepNodes(t.steps, Started(node));
      PutStepOf(t.steps, Started(node), other);
      NodesTellApart(t.steps, PutStep(t.steps, Started(node)));
    }
  }

  lemma FinishKeepsSteps(d: Fields, t: Trace, other: Json)
    requires OnePerNode(t.steps) && Accumulate("node_finished", d, t).Some?
    ensures var after := Accumulate("node_finished", d, t).value;
            && OnePerNode(after.steps) && Nodes(t.steps) <= Nodes(after.steps)
            && StepOf(after.steps, other) == StepAfter("node_finished", d, StepOf(t.steps, other), other)
  {
    var node := Nested(d, "data").value;
    FinishStepNodes(t.steps, Get(node, "node_id"), Get(node, "status"));
    FinishStepOf(t.steps, Get(node, "node_id"), Get(node, "status"), other);
    NodesTellApart(t.steps, FinishStep(t.steps, Get(node, "node_id"), Get(node, "status")));
  }

  /**
   * Every event keeps one step per node, in the order nodes first started, and rewrites only the
   * step of the node it names: a start runs it anew, a finish changes its status alone.
   */
  lemma AccumulateKeepsSteps(name: string, d: Fields, t: Trace, other: Json)
    requires OnePerNode(t.steps) && Accumulate(name, d, t).Some?
    ensures var after := Accumulate(name, d, t).value;
            && OnePerNode(after.steps) && Nodes(t.steps) <= Nodes(after.steps)
            && StepOf(after.steps, other) == StepAfter(name, d, StepOf(t.steps, other), other)
  {
    if name == "node_started" {
      StartKeepsSteps(d, t, other);
    } else if name == "node_finished" {
      FinishKeepsSteps(d, t, other);
    }
  }

  lemma NodesTellApart(a: seq<TraceStep>, b: seq<TraceStep>)
    requires OnePerNode(a)
    requires Nodes(b) == Nodes(a) || exists n :: n !in Nodes(a) && Nodes(b) == Nodes(a) + [n]
    ensures OnePerNode(b)
  {
    forall i, j | 0 <= i < j < |b| ensures b[i].node != b[j].node {
      assert Nodes(b)[i] == Nodes(a)[i] == a[i].node;
      assert j < |a| ==> Nodes(b)[j] == a[j].node;
    }
  }

  function Started(node: Fields): TraceStep {
    TraceStep(Get(node, "node_id"), OrElse(Get(node, "index"), Num(0, 0)), OrElse(Get(node, "title"), Str("")),
              Str("running"))
  }

  /** What one event does to the step of one node. */
  function StepAfter(name: string, d: Fields, step: Option<TraceStep>, node: Json): Option<TraceStep> {
    var inner := Nested(d, "data");
    if inner.None? || Get(inner.value, "node_id") != node then step
    else if name == "node_started" && node != Null then Some(Started(inner.value))
    else if name == "node_finished" && step.Some? then Some(step.value.(status := Get(inner.value, "status")))
    else step
  }

  // ---------------------------------------------------------------- the recorded answer

  /** The stream after some lines. */
  function Through(cfg: Config, s: Stream, lines: seq<string>): Stream
    decreases lines
  {
    if lines == [] then s else
    match HandleLine(cfg, lines[0], s)
    case Raised => s
    case Handled(next, _, _) => Through(cfg, next, lines[1..])
  }

  /** Wherever it stands, the line is handled without an error. */
  ghost predicate Smooth(cfg: Config, line: string) {
    forall s :: HandleLine(cfg, line, s).Handled? && !HasError(HandleLine(cfg, line, s).events)
  }

  ghost predicate AllSmooth(cfg: Config, lines: seq<string>) {
    forall i :: 0 <= i < |lines| ==> Smooth(cfg, lines[i])
  }

  lemma {:induction false} BatchThrough(cfg: Config, s: Stream, a: seq<string>, b: seq<string>)
    requires AllSmooth(cfg, a)
    ensures var o := Batch(cfg, s, a);
            Batch(cfg, s, a + b) == Before(o.events, o.published, Batch(cfg, Through(cfg, s, a), b))
    decreases |a|
  {
    if a == [] {
      assert a + b == b;
      BeforeNothing(Batch(cfg, s, b));
    } else {
      assert Smooth(cfg, a[0]);
      var h := HandleLine(cfg, a[0], s);
      assert (a + b)[0] == a[0] && (a + b)[1..] == a[1..] + b;
      assert AllSmooth(cfg, a[1..]);
      BatchThrough(cfg, h.next, a[1..], b);
      var o := Batch(cfg, h.next, a[1..]);
      BeforeBefore(h.events, h.published, o.events, o.published, Batch(cfg, Through(cfg, h.next, a[1..]), b));
    }
  }

  predicate IsRecorded(name: string, d: Fields) {
    (name == "message" || name == "message_replace") && FieldOf(d, "answer") != Null
  }

  /** The answer a line records, if it is a `message` or `message_replace` that has one. */
  function Recorded(cfg: Config, line: string, eventType: string): Option<Json> {
    var d := Payload(cfg, line);
    if && d.Some? && (IsNamed(d.value, eventType, "message") || IsNamed(d.value, eventType, "message_replace"))
       && FieldOf(d.value, "answer") != Null
    then Some(FieldOf(d.value, "answer")) else None
  }

  lemma AccumulateMovesOutput(name: string, d: Fields, t: Trace)
    requires Accumulate(name, d, t).Some?
    ensures Accumulate(name, d, t).value.output == if IsRecorded(name, d) then Get(d, "answer") else t.output
  {}

  lemma DispatchMovesOutput(cfg: Config, name: string, d: Fields, s: Stream)
    requires Dispatch(cfg, name, d, s).Handled?
    ensures Dispatch(cfg, name, d, s).next.trace.output
            == if IsRecorded(name, d) then Get(d, "answer") else s.trace.output
  {
    AccumulateMovesOutput(name, d, s.trace);
  }

  /** The recorded output moves with the lines that record an answer, and with no other. */
  lemma LineMovesOutput(cfg: Config, line: string, s: Stream)
    requires HandleLine(cfg, line, s).Handled?
    ensures HandleLine(cfg, line, s).next.trace.output
            == match Recorded(cfg, line, s.eventType) case Some(answer) => answer case None => s.trace.output
  {
    if Payload(cfg, line).Some? {
      var d := Payload(cfg, line).value;
      assert line[0] == 'd' && !StartsWith(line, "event:") by { assert "event:"[0] == 'e'; }
      assert HandleLine(cfg, line, s) == Dispatch(cfg, EventName(d, s.eventType), d, s);
      NamedIff(d, s.eventType, "message");
      NamedIff(d, s.eventType, "message_replace");
      DispatchMovesOutput(cfg, EventName(d, s.eventType), d, s);
    }
  }

  /** What is kept of an observation: nothing of a false one, and the first 2000 characters of a text. */
  ghost predicate IsResponse(observation: Json, response: Json) {
    && (Falsy(observation) ==> response == Null)
    && (observation.Str? && observation.s != "" ==>
          response == Str(if |observation.s| <= 2000 then observation.s else observation.s[..2000]))
  }

  /**
   * A thought that names a tool adds one call, with what was observed; a finished workflow sets the
   * status; no other line touches either.
   */
  lemma LineRecordsCalls(cfg: Config, line: string, s: Stream, inner: Fields)
    requires HandleLine(cfg, line, s).Handled?
    requires var d := Payload(cfg, line);
             d.Some? && IsNamed(d.value, s.eventType, "workflow_finished") ==> IsInner(d.value, inner)
    ensures var (d, t, after) := (Payload(cfg, line), s.trace, HandleLine(cfg, line, s).next.trace);
            && (if d.Some? && IsNamed(d.value, s.eventType, "agent_thought") && !Falsy(FieldOf(d.value, "tool")) then
                  && |after.toolCalls| == |t.toolCalls| + 1 && after.toolCalls[..|t.toolCalls|] == t.toolCalls
                  && var call := after.toolCalls[|t.toolCalls|];
                     call.tool == FieldOf(d.value, "tool") && IsResponse(FieldOf(d.value, "observation"), call.response)
                else after.toolCalls == t.toolCalls)
            && after.status == if d.Some? && IsNamed(d.value, s.eventType, "workflow_finished")
                               then FieldOf(inner, "status") else t.status
  {
    if Payload(cfg, line).Some? {
      var d := Payload(cfg, line).value;
      assert line[0] == 'd' && !StartsWith(line, "event:") by { assert "event:"[0] == 'e'; }
      var name := EventName(d, s.eventType);
      assert HandleLine(cfg, line, s) == Dispatch(cfg, name, d, s);
      NamedIff(d, s.eventType, "agent_thought");
      NamedIff(d, s.eventType, "workflow_finished");
      if name == "workflow_finished" {
        InnerIsNested(d, inner);
      }
      AccumulateRecordsCalls(name, d, s.trace, inner);
    }
  }

  lemma AccumulateRecordsCalls(name: string, d: Fields, t: Trace, inner: Fields)
    requires Accumulate(name, d, t).Some? && (name == "workflow_finished" ==> Nested(d, "data") == Some(inner))
    ensures var after := Accumulate(name, d, t).value;
            && (if name == "agent_thought" && !Falsy(FieldOf(d, "tool")) then
                  && |after.toolCalls| == |t.toolCalls| + 1 && after.toolCalls[..|t.toolCalls|] == t.toolCalls
                  && var call := after.toolCalls[|t.toolCalls|];
                     call.tool == FieldOf(d, "tool") && IsResponse(FieldOf(d, "observation"), call.response)
                else after.toolCalls == t.toolCalls)
            && after.status == if name == "workflow_finished" then FieldOf(inner, "status") else t.status
  {
    FalsyIffNotTruthy(FieldOf(d, "tool"));
    FalsyIffNotTruthy(FieldOf(d, "observation"));
  }

  lemma RecordedIsNamed(cfg: Config, line: string, eventType: string)
    requires Recorded(cfg, line, eventType).Some?
    ensures EventName(Payload(cfg, line).value, eventType) in ["message", "message_replace"]
  {
    NamedIff(Payload(cfg, line).value, eventType, "message");
    NamedIff(Payload(cfg, line).value, eventType, "message_replace");
  }

  /** Wherever it stands, the line records no answer and no error. */
  ghost predicate Passes(cfg: Config, line: string) {
    Smooth(cfg, line) && forall s: Stream :: Recorded(cfg, line, s.eventType).None?
  }

  predicate IsAgentMessage(cfg: Config, line: string) {
    var d := Payload(cfg, line);
    d.Some? && Get(d.value, "event") == Str("agent_message")
  }

  /** Quiet lines record nothing, and neither do `agent_message` lines, whatever they say. */
  lemma PassingLines(cfg: Config, line: string)
    requires Quiet(cfg, line) || IsAgentMessage(cfg, line)
    ensures Passes(cfg, line)
  {
    forall s: Stream
      ensures HandleLine(cfg, line, s).Handled? && !HasError(HandleLine(cfg, line, s).events)
      ensures Recorded(cfg, line, s.eventType).None?
    {
      if Payload(cfg, line).Some? {
        var d := Payload(cfg, line).value;
        assert line[0] == 'd' && !StartsWith(line, "event:") by { assert "event:"[0] == 'e'; }
        assert HandleLine(cfg, line, s) == Dispatch(cfg, EventName(d, s.eventType), d, s);
        var name := EventName(d, s.eventType);
        if name in ["message", "message_replace", "agent_message"] {
          WritingDispatch(cfg, name, d, s);
        }
        if Recorded(cfg, line, s.eventType).Some? {
          RecordedIsNamed(cfg, line, s.eventType);
        }
      }
    }
  }

  lemma WritingDispatch(cfg: Config, name: string, d: Fields, s: Stream)
    requires name in ["message", "message_replace", "agent_message"]
    ensures var h := Dispatch(cfg, name, d, s);
            h.Handled? && |h.events| == 1 && Writes(h.events[0].name) && h.events[0].name != "error"
  {}

  lemma {:induction false} PassingKeepsOutput(cfg: Config, s: Stream, lines: seq<string>)
    requires forall i :: 0 <= i < |lines| ==> Passes(cfg, lines[i])
    ensures Through(cfg, s, lines).trace.output == s.trace.output
    decreases |lines|
  {
    if lines != [] {
      assert Passes(cfg, lines[0]) && Smooth(cfg, lines[0]);
      LineMovesOutput(cfg, lines[0], s);
      PassingKeepsOutput(cfg, HandleLine(cfg, lines[0], s).next, lines[1..]);
    }
  }

  /** A `message_end` line that the mapping accepts. */
  predicate Ending(cfg: Config, line: string) {
    var d := Payload(cfg, line);
    d.Some? && Get(d.value, "event") == Str("message_end") && MessageEnd(d.value).Mapped?
  }

  lemma EndPublishes(cfg: Config, line: string, s: Stream)
    requires Ending(cfg, line)
    ensures var o := Batch(cfg, s, [line]); |o.published| == 1 && o.published[0].output == s.trace.output
  {
    var d := Payload(cfg, line).value;
    assert line[0] == 'd' && !StartsWith(line, "event:") by { assert "event:"[0] == 'e'; }
    assert HandleLine(cfg, line, s) == Dispatch(cfg, "message_end", d, s);
    BatchOne(cfg, s, line);
  }

  lemma OutputAfterPiece(
      cfg: Config, s: Stream, body: seq<string>, last: string, tail: seq<string>, id: string)
    requires AllSmooth(cfg, body + [last]) && Says(cfg, last, id)
    requires forall i :: 0 <= i < |tail| ==> Passes(cfg, tail[i])
    ensures Through(cfg, s, (body + [last]) + tail).trace.output == Get(Payload(cfg, last).value, "answer")
  {
    assert AllSmooth(cfg, body) by { assert forall i :: 0 <= i < |body| ==> (body + [last])[i] == body[i]; }
    ThroughConcat(cfg, s, body + [last], tail);
    ThroughConcat(cfg, s, body, [last]);
    PassingKeepsOutput(cfg, Through(cfg, s, body + [last]), tail);
    var before := Through(cfg, s, body);
    SaysOneDelta(cfg, last, id, before);
    LineMovesOutput(cfg, last, before);
    assert Through(cfg, before, [last]) == HandleLine(cfg, last, before).next by { assert [last][1..] == []; }
  }

  /**
   * The run log records only the last piece of an answer. That is the answer the reader reads if
   * and only if the pieces before it are empty.
   */
  lemma RunLogKeepsLastPiece(
      cfg: Config, s: Stream, body: seq<string>, last: string, tail: seq<string>, end: string, id: string)
    requires OneAnswer(cfg, body + [last], id) && Says(cfg, last, id) && Ending(cfg, end)
    requires forall i :: 0 <= i < |tail| ==> Quiet(cfg, tail[i])
    ensures var published := Batch(cfg, s, (body + [last]) + tail + [end]).published;
            && |published| >= 1
            && var output := published[|published| - 1].output;
               && output == Get(Payload(cfg, last).value, "answer")
               && (output == Str(Answer(cfg, body + [last], id)) <==> Answer(cfg, body, id) == "")
  {
    PiecesAreSmooth(cfg, body + [last], id);
    TailPasses(cfg, tail);
    OutputAfterPiece(cfg, s, body, last, tail, id);
    SmoothConcat(cfg, body + [last], tail);
    LastPublished(cfg, s, (body + [last]) + tail, end);
    AnswerConcat(cfg, body, last, id);
  }

  lemma SmoothConcat(cfg: Config, a: seq<string>, b: seq<string>)
    requires AllSmooth(cfg, a) && AllSmooth(cfg, b)
    ensures AllSmooth(cfg, a + b)
  {}

  lemma LastPublished(cfg: Config, s: Stream, lines: seq<string>, end: string)
    requires AllSmooth(cfg, lines) && Ending(cfg, end)
    ensures var published := Batch(cfg, s, lines + [end]).published;
            |published| >= 1 && published[|published| - 1].output == Through(cfg, s, lines).trace.output
  {
    BatchThrough(cfg, s, lines, [end]);
    EndPublishes(cfg, end, Through(cfg, s, lines));
  }

  /** An agent's answer is not recorded at all: the output stays what it was. */
  lemma RunLogMissesAgentAnswers(cfg: Config, s: Stream, body: seq<string>, end: string)
    requires Ending(cfg, end)
    requires forall i :: 0 <= i < |body| ==>
      Quiet(cfg, body[i]) || IsAgentMessage(cfg, body[i])
    ensures var published := Batch(cfg, s, body + [end]).published;
            |published| >= 1 && published[|published| - 1].output == s.trace.output
  {
    forall i | 0 <= i < |body| ensures Passes(cfg, body[i]) {
      PassingLines(cfg, body[i]);
    }
    assert AllSmooth(cfg, body);
    PassingKeepsOutput(cfg, s, body);
    LastPublished(cfg, s, body, end);
  }

  lemma TailPasses(cfg: Config, tail: seq<string>)
    requires forall i :: 0 <= i < |tail| ==> Quiet(cfg, tail[i])
    ensures forall i :: 0 <= i < |tail| ==> Passes(cfg, tail[i])
    ensures AllSmooth(cfg, tail)
  {
    forall i | 0 <= i < |tail| ensures Passes(cfg, tail[i]) {
      PassingLines(cfg, tail[i]);
    }
  }

  lemma PiecesAreSmooth(cfg: Config, lines: seq<string>, id: string)
    requires OneAnswer(cfg, lines, id)
    ensures AllSmooth(cfg, lines)
  {
    forall i | 0 <= i < |lines| ensures Smooth(cfg, lines[i]) {
      assert Says(cfg, lines[i], id) || Quiet(cfg, lines[i]);
      if Says(cfg, lines[i], id) {
        forall s ensures HandleLine(cfg, lines[i], s).Handled? && !HasError(HandleLine(cfg, lines[i], s).events) {
          SaysOneDelta(cfg, lines[i], id, s);
        }
      }
    }
  }

  lemma {:induction false} ThroughConcat(cfg: Config, s: Stream, a: seq<string>, b: seq<string>)
    requires AllSmooth(cfg, a)
    ensures Through(cfg, s, a + b) == Through(cfg, Through(cfg, s, a), b)
    decreases |a|
  {
    if a == [] {
      assert a + b == b;
    } else {
      assert Smooth(cfg, a[0]) && AllSmooth(cfg, a[1..]);
      assert (a + b)[0] == a[0] && (a + b)[1..] == a[1..] + b;
      ThroughConcat(cfg, HandleLine(cfg, a[0], s).next, a[1..], b);
    }
  }

  lemma {:induction false} AnswerConcat(cfg: Config, body: seq<string>, last: string, id: string)
    requires Says(cfg, last, id)
    ensures Answer(cfg, body + [last], id) == Answer(cfg, body, id) + Get(Payload(cfg, last).value, "answer").s
    decreases |body|
  {
    if body == [] {
      assert [] + [last] == [last] && [last][1..] == [];
    } else {
      AnswerConcat(cfg, body[1..], last, id);
      assert (body + [last])[0] == body[0] && (body + [last])[1..] == body[1..] + [last];
    }
  }
}
