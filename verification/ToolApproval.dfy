/**
 * The approval gate of the adapter: which lines of an upstream stream make it ask the platform's
 * gateway (`_request_tool_approval` of `app/services/dify_conversation_adapter.py`).
 *
 * `Questions` reads the lines alone; the adapter is proved to ask just those questions, in order,
 * and to relay just their answers.
 */
module ToolApproval {
  import opened Wrappers
  import opened SseText
  import opened SseDecoding
  import opened DifyAdapter
  import opened EventPipeline
  import opened Envelope
  import ChatReducer

  /** The line is the "before" frame of a tool call: a named tool with input and no observation yet. */
  predicate IsToolCall(d: Fields, eventType: string) {
    && IsNamed(d, eventType, "agent_thought")
    && "tool" in d && d["tool"].Str? && d["tool"] != Str("")
    && "tool_input" in d && !Falsy(d["tool_input"])
    && ("observation" !in d || Falsy(d["observation"]))
  }

  /** The parameters asked about: the input if it is an object or the text of one, and none otherwise. */
  ghost predicate IsParams(loads: string -> Option<Json>, input: Json, params: Json) {
    if input.Obj? then params == input
    else if input.Str? && loads(input.s).Some? && loads(input.s).value.Obj? then params == loads(input.s).value
    else params == Obj(map[])
  }

  lemma AsksIff(cfg: Config, d: Fields, eventType: string)
    ensures EventName(d, eventType) == "agent_thought" && AsksApproval(cfg, d)
            <==> cfg.gateway.Some? && IsToolCall(d, eventType)
  {
    NamedIff(d, eventType, "agent_thought");
    FalsyIffNotTruthy(Get(d, "tool_input"));
    FalsyIffNotTruthy(Get(d, "observation"));
  }

  /** A question to the gateway: the tool's name and its parameters. */
  datatype Question = Question(tool: string, params: Json)

  /** What the line makes the adapter ask, if anything. */
  function QuestionOf(cfg: Config, line: string, eventType: string): Option<Question> {
    var d := Payload(cfg, line);
    if cfg.gateway.Some? && d.Some? && IsToolCall(d.value, eventType)
    then Some(Question(d.value["tool"].s, ToolInput(cfg.loads, d.value["tool_input"]))) else None
  }

  /** Every approval request stands right behind the thought it is about. */
  predicate RequestsFollow(events: seq<Event>) {
    forall i :: 0 <= i < |events| && events[i].name == "tool_approval_required" ==>
      i > 0 && events[i - 1].name == "agent_thought"
  }

  /**
   * Exactly when one line asks: a tool call's "before" frame asks once, with the next number, and
   * its request follows its thought just when the gateway answers; no other line asks.
   */
  lemma LineAsksIff(cfg: Config, line: string, s: Stream)
    requires HandleLine(cfg, line, s).Handled?
    ensures var (h, d, q) := (HandleLine(cfg, line, s), Payload(cfg, line), QuestionOf(cfg, line, s.eventType));
            && (q.Some? <==> cfg.gateway.Some? && d.Some? && IsToolCall(d.value, s.eventType))
            && (q.Some? ==> Str(q.value.tool) == d.value["tool"]
                            && IsParams(cfg.loads, d.value["tool_input"], q.value.params))
            && h.next.asked == s.asked + (if q.Some? then 1 else 0)
            && if q.None? then forall e :: e in h.events ==> e.name != "tool_approval_required"
               else
                 var answer := cfg.gateway.value(s.asked, q.value.tool, q.value.params);
                 && h.events != [] && h.events[0].name == "agent_thought"
                 && h.events[1..] == if answer.None? then [] else [Event("tool_approval_required", answer.value)]
  {
    var d := Payload(cfg, line);
    if d.Some? {
      assert line[0] == 'd' && !StartsWith(line, "event:") by { assert "event:"[0] == 'e'; }
      var name := EventName(d.value, s.eventType);
      assert HandleLine(cfg, line, s) == Dispatch(cfg, name, d.value, s);
      AsksIff(cfg, d.value, s.eventType);
      DispatchAsks(cfg, name, d.value, s);
    }
  }

  lemma DispatchAsks(cfg: Config, name: string, d: Fields, s: Stream)
    requires Dispatch(cfg, name, d, s).Handled?
    ensures var h := Dispatch(cfg, name, d, s);
            if name == "agent_thought" && AsksApproval(cfg, d) then
              var answer := cfg.gateway.value(s.asked, Get(d, "tool").s, ToolInput(cfg.loads, Get(d, "tool_input")));
              && h.next.asked == s.asked + 1
              && h.events != [] && h.events[0].name == "agent_thought"
              && h.events[1..] == if answer.None? then [] else [Event("tool_approval_required", answer.value)]
            else h.next.asked == s.asked && forall e :: e in h.events ==> e.name != "tool_approval_required"
  {}

  // ---------------------------------------------------------------- a whole stream

  /** What the lines make the adapter ask, in order, up to the one that ends the stream. */
  function Questions(cfg: Config, eventType: string, lines: seq<string>): seq<Question>
    decreases lines
  {
    if lines == [] then [] else
    var q := QuestionOf(cfg, lines[0], eventType);
    (if q.Some? then [q.value] else [])
    + (if Stops(cfg, lines[0], eventType) then []
       else Questions(cfg, NextEventType(lines[0], eventType), lines[1..]))
  }

  /** The requests owed for some questions, the first of which is number `n`. */
  function Requests(gateway: (nat, string, Json) -> Option<Json>, n: nat, questions: seq<Question>): seq<Event>
    decreases questions
  {
    if questions == [] then [] else
    var answer := gateway(n, questions[0].tool, questions[0].params);
    (if answer.Some? then [Event("tool_approval_required", answer.value)] else [])
    + Requests(gateway, n + 1, questions[1..])
  }

  function IfRequest(e: Event): seq<Event> {
    if e.name == "tool_approval_required" then [e] else []
  }

  /** The approval requests among some events. */
  function RequestsIn(events: seq<Event>): seq<Event> {
    if events == [] then [] else IfRequest(events[0]) + RequestsIn(events[1..])
  }

  lemma EventsJoin(a: seq<Event>, b: seq<Event>, c: seq<Event>)
    ensures a + (b + c) == (a + b) + c
  {}

  lemma {:induction false} RequestsInConcat(a: seq<Event>, b: seq<Event>)
    ensures RequestsIn(a + b) == RequestsIn(a) + RequestsIn(b)
  {
    if a == [] {
      assert a + b == b;
    } else {
      assert (a + b)[0] == a[0] && (a + b)[1..] == a[1..] + b;
      calc {
        RequestsIn(a + b);
        IfRequest(a[0]) + RequestsIn(a[1..] + b);
        { RequestsInConcat(a[1..], b); }
        IfRequest(a[0]) + (RequestsIn(a[1..]) + RequestsIn(b));
        { EventsJoin(IfRequest(a[0]), RequestsIn(a[1..]), RequestsIn(b)); }
        RequestsIn(a) + RequestsIn(b);
      }
    }
  }

  lemma {:induction false} NoRequestsIn(events: seq<Event>)
    requires forall e :: e in events ==> e.name != "tool_approval_required"
    ensures RequestsIn(events) == []
  {
    if events != [] {
      NoRequestsIn(events[1..]);
    }
  }

  /** What one line asks and relays, and how the stream goes on. */
  ghost predicate LineDoes(cfg: Config, line: string, s: Stream) {
    var (h, q) := (HandleLine(cfg, line, s), QuestionOf(cfg, line, s.eventType));
    if h.Raised? then q.None? && Stops(cfg, line, s.eventType)
    else
      && (HasError(h.events) <==> Stops(cfg, line, s.eventType))
      && (HasError(h.events) ==> q.None?)
      && h.next.eventType == NextEventType(line, s.eventType)
      && h.next.asked == s.asked + (if q.Some? then 1 else 0)
      && RequestsIn(h.events) == (if q.None? then [] else Requests(cfg.gateway.value, s.asked, [q.value]))
      && RequestsFollow(h.events)
  }

  /** A tool call's "before" frame is always readable and no error. */
  lemma ToolCallNeverStops(cfg: Config, line: string, eventType: string)
    requires QuestionOf(cfg, line, eventType).Some?
    ensures !Stops(cfg, line, eventType)
  {
    var d := Payload(cfg, line).value;
    NamedIff(d, eventType, "agent_thought");
    FalsyIffNotTruthy(Get(d, "observation"));
    assert Accumulate("agent_thought", d, NEW_TRACE).Some?;
    assert MapEvent("agent_thought", d) == Plain("agent_thought", d, PlainRenaming("agent_thought"));
  }

  lemma LineDoesIt(cfg: Config, line: string, s: Stream)
    ensures LineDoes(cfg, line, s)
  {
    LineFollows(cfg, line, s, ChatReducer.Initial(0));
    var (h, q) := (HandleLine(cfg, line, s), QuestionOf(cfg, line, s.eventType));
    if q.Some? {
      ToolCallNeverStops(cfg, line, s.eventType);
    }
    if h.Handled? {
      LineAsksIff(cfg, line, s);
      if q.None? {
        NoRequestsIn(h.events);
      } else {
        AskedLine(cfg, s.asked, q.value, h.events);
      }
    }
  }

  lemma {:induction false} AskedLine(cfg: Config, n: nat, q: Question, events: seq<Event>)
    requires cfg.gateway.Some? && events != [] && events[0].name == "agent_thought"
    requires var answer := cfg.gateway.value(n, q.tool, q.params);
             events[1..] == if answer.None? then [] else [Event("tool_approval_required", answer.value)]
    ensures RequestsIn(events) == Requests(cfg.gateway.value, n, [q]) && RequestsFollow(events)
  {
    var answer := cfg.gateway.value(n, q.tool, q.params);
    assert [q][1..] == [] && Requests(cfg.gateway.value, n + 1, []) == [];
    assert RequestsIn(events) == RequestsIn(events[1..]);
    if answer.Some? {
      var request := Event("tool_approval_required", answer.value);
      assert events[1..] == [request] && [request][1..] == [] && events[1] == request;
      assert RequestsIn([request]) == [request];
      assert Requests(cfg.gateway.value, n, [q]) == [request];
    } else {
      assert Requests(cfg.gateway.value, n, [q]) == [];
    }
  }

  lemma RequestsFollowConcat(a: seq<Event>, b: seq<Event>)
    requires RequestsFollow(a) && RequestsFollow(b)
    ensures RequestsFollow(a + b)
  {
    forall i | 0 <= i < |a + b| && (a + b)[i].name == "tool_approval_required"
      ensures i > 0 && (a + b)[i - 1].name == "agent_thought"
    {
      if i < |a| {
        assert (a + b)[i] == a[i];
      } else {
        assert (a + b)[i] == b[i - |a|];
      }
    }
  }

  lemma {:induction false} RequestsOfMore(
      gateway: (nat, string, Json) -> Option<Json>, n: nat, q: Question, rest: seq<Question>)
    ensures Requests(gateway, n, [q] + rest) == Requests(gateway, n, [q]) + Requests(gateway, n + 1, rest)
  {
    assert ([q] + rest)[1..] == rest && [q][1..] == [];
  }

  /** The requests the lines owe when the next question is number `asked`. */
  function Owed(cfg: Config, asked: nat, eventType: string, lines: seq<string>): seq<Event> {
    if cfg.gateway.None? then [] else Requests(cfg.gateway.value, asked, Questions(cfg, eventType, lines))
  }

  /** The first line's requests, then those of the lines behind it. */
  lemma OwedUnfolds(cfg: Config, asked: nat, eventType: string, lines: seq<string>)
    requires lines != []
    ensures var q := QuestionOf(cfg, lines[0], eventType);
            Owed(cfg, asked, eventType, lines)
            == (if q.None? then [] else Requests(cfg.gateway.value, asked, [q.value]))
               + (if Stops(cfg, lines[0], eventType) then []
                  else Owed(cfg, asked + (if q.Some? then 1 else 0), NextEventType(lines[0], eventType),
                            lines[1..]))
  {
    var q := QuestionOf(cfg, lines[0], eventType);
    var more := if Stops(cfg, lines[0], eventType) then []
                else Questions(cfg, NextEventType(lines[0], eventType), lines[1..]);
    if q.Some? {
      assert Questions(cfg, eventType, lines) == [q.value] + more;
      RequestsOfMore(cfg.gateway.value, asked, q.value, more);
    } else {
      assert Questions(cfg, eventType, lines) == [] + more == more;
    }
  }

  /** The requests among the events are those the lines owe, each right behind its thought. */
  ghost predicate Relays(cfg: Config, s: Stream, lines: seq<string>, events: seq<Event>) {
    RequestsFollow(events) && RequestsIn(events) == Owed(cfg, s.asked, s.eventType, lines)
  }

  lemma RelaysLast(cfg: Config, s: Stream, lines: seq<string>, events: seq<Event>)
    requires lines != [] && Stops(cfg, lines[0], s.eventType) && QuestionOf(cfg, lines[0], s.eventType).None?
    requires RequestsIn(events) == [] && RequestsFollow(events)
    ensures Relays(cfg, s, lines, events)
  {
    OwedUnfolds(cfg, s.asked, s.eventType, lines);
  }

  lemma RelaysMore(cfg: Config, s: Stream, next: Stream, lines: seq<string>, events: seq<Event>, rest: seq<Event>)
    requires lines != [] && !Stops(cfg, lines[0], s.eventType)
    requires next.eventType == NextEventType(lines[0], s.eventType)
    requires var q := QuestionOf(cfg, lines[0], s.eventType);
             && next.asked == s.asked + (if q.Some? then 1 else 0)
             && RequestsIn(events) == (if q.None? then [] else Requests(cfg.gateway.value, s.asked, [q.value]))
    requires RequestsFollow(events) && Relays(cfg, next, lines[1..], rest)
    ensures Relays(cfg, s, lines, events + rest)
  {
    OwedUnfolds(cfg, s.asked, s.eventType, lines);
    RequestsFollowConcat(events, rest);
    RequestsInConcat(events, rest);
  }

  /**
   * The gate misses no tool call and is asked about nothing else: over any lines the approval
   * requests relayed are the gateway's answers to the questions of the lines, numbered in order,
   * each right behind its thought.
   */
  lemma {:induction false} RequestsAnswerQuestions(cfg: Config, s: Stream, lines: seq<string>)
    ensures Relays(cfg, s, lines, Batch(cfg, s, lines).events)
    decreases lines
  {
    if lines != [] {
      LineDoesIt(cfg, lines[0], s);
      match HandleLine(cfg, lines[0], s)
      case Raised => RelaysLast(cfg, s, lines, []);
      case Handled(next, events, _) =>
        if HasError(events) {
          RelaysLast(cfg, s, lines, events);
        } else {
          RequestsAnswerQuestions(cfg, next, lines[1..]);
          RelaysMore(cfg, s, next, lines, events, Batch(cfg, next, lines[1..]).events);
        }
    }
  }

  /** The stream the adapter serves asks the same questions of the whole text, however it is cut into reads. */
  lemma StreamAsksQuestions(cfg: Config, upstream: string)
    requires cfg.gateway.Some?
    ensures RequestsIn(Relayed(cfg, upstream))
            == Requests(cfg.gateway.value, 0, Questions(cfg, "", TextLines(upstream)))
  {
    RequestsAnswerQuestions(cfg, NEW_STREAM, TextLines(upstream));
  }

  /** The two frames of one tool call, the second with its observation, ask once. */
  lemma BeforeAndAfterAskOnce(cfg: Config, before: string, after: string, eventType: string)
    requires cfg.gateway.Some? && Payload(cfg, before).Some? && IsToolCall(Payload(cfg, before).value, eventType)
    requires Payload(cfg, after).Some? && var d := Payload(cfg, after).value;
             "observation" in d && !Falsy(d["observation"])
    ensures |Questions(cfg, eventType, [before, after])| == 1
    ensures Questions(cfg, eventType, [before, after])[0].tool == Payload(cfg, before).value["tool"].s
  {
    ToolCallNeverStops(cfg, before, eventType);
    assert [before, after][1..] == [after] && [after][1..] == [];
    assert Questions(cfg, NextEventType(before, eventType), [after]) == [];
  }
}
