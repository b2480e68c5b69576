/**
 * The chat reducer of `lib/chat-stream-state.ts`, with the actions of `lib/use-stream-chat.ts`
 * that surround it: sending a query and loading the history.
 *
 * The bubbles on screen are compared with a log of the writes the stream was allowed to make.
 */
module ChatReducer {
  import opened Wrappers
  import opened SseText
  import opened SseDecoding

  datatype Role = User | Assistant

  datatype Message = Message(id: string, role: Role, content: string)

  /** The part of the stream state the bubbles depend on, and the module's fallback counter. */
  datatype ChatState = ChatState(
    messages: seq<Message>, assistantId: Option<string>, renderedIds: seq<string>, fallbacks: nat)

  function Initial(fallbacks: nat): ChatState {
    ChatState([], None, [], fallbacks)
  }

  // ---------------------------------------------------------------- ids

  function Decimal(n: nat): (s: string)
    ensures s != "" && forall c :: c in s ==> '0' <= c <= '9'
  {
    var digit := ['0' + (n % 10) as char];
    if n < 10 then digit else Decimal(n / 10) + digit
  }

  /** The number some digits stand for. */
  function ValueOf(digits: string): int {
    if digits == "" then 0 else ValueOf(digits[..|digits| - 1]) * 10 + (digits[|digits| - 1] as int - '0' as int)
  }

  lemma {:induction false} DecimalValue(n: nat)
    ensures ValueOf(Decimal(n)) == n
  {
    var (s, digit) := (Decimal(n), '0' + (n % 10) as char);
    assert digit as int - '0' as int == n % 10;
    if n >= 10 {
      DecimalValue(n / 10);
      assert s[..|s| - 1] == Decimal(n / 10);
    } else {
      assert s[..|s| - 1] == "" && ValueOf("") == 0;
    }
  }

  function FallbackId(n: nat): string {
    "assistant-" + Decimal(n)
  }

  lemma FallbackIdsDiffer(m: nat, n: nat)
    ensures FallbackId(m) == FallbackId(n) ==> m == n
  {
    if FallbackId(m) == FallbackId(n) {
      assert Decimal(m) == FallbackId(m)[10..] && Decimal(n) == FallbackId(n)[10..];
      DecimalValue(m);
      DecimalValue(n);
    }
  }

  // ---------------------------------------------------------------- the reducer

  function StrOrNull(value: Json): Option<string> {
    if value.Str? && value.s != "" then Some(value.s) else None
  }

  function Field(data: Json, key: string): Json {
    if data.Obj? && key in data.fields then data.fields[key] else Null
  }

  predicate IsBubble(m: Message, id: string) {
    m.role == Assistant && m.id == id
  }

  /** The first assistant bubble with that id, or the number of messages. */
  function Find(messages: seq<Message>, id: string): (i: nat)
    ensures i <= |messages|
    ensures i < |messages| ==> IsBubble(messages[i], id)
    ensures forall j :: 0 <= j < i ==> !IsBubble(messages[j], id)
  {
    if messages == [] || IsBubble(messages[0], id) then 0 else 1 + Find(messages[1..], id)
  }

  /** Extend the assistant bubble of that id, or open it. */
  function WriteTo(s: ChatState, id: string, text: string): ChatState {
    var index := Find(s.messages, id);
    if index < |s.messages| then
      var m := s.messages[index];
      s.(messages := s.messages[index := m.(content := m.content + text)], assistantId := Some(id))
    else
      s.(messages := s.messages + [Message(id, Assistant, text)], assistantId := Some(id),
         renderedIds := s.renderedIds + [id])
  }

  function AppendAssistantText(s: ChatState, text: Option<string>, messageId: Option<string>): ChatState {
    if text.None? then s
    else if messageId.Some? && s.assistantId != messageId && messageId.value in s.renderedIds then s
    else
      var falls := messageId.None? && s.assistantId.None?;
      var counter := if falls then s.fallbacks + 1 else s.fallbacks;
      var id := if messageId.Some? then messageId.value
                else if s.assistantId.Some? then s.assistantId.value else FallbackId(counter);
      WriteTo(s.(fallbacks := counter), id, text.value)
  }

  function ReplaceIn(messages: seq<Message>, id: string, text: string): (after: seq<Message>)
    ensures |after| == |messages|
    ensures forall i :: 0 <= i < |messages| ==>
      after[i] == if IsBubble(messages[i], id) then messages[i].(content := text) else messages[i]
  {
    if messages == [] then []
    else [if IsBubble(messages[0], id) then messages[0].(content := text) else messages[0]]
         + ReplaceIn(messages[1..], id, text)
  }

  function ReplaceAssistantText(s: ChatState, text: Option<string>): ChatState {
    if text.None? || s.assistantId.None? then s
    else s.(messages := ReplaceIn(s.messages, s.assistantId.value, text.value))
  }

  function ApplySseEvent(s: ChatState, e: Event): ChatState {
    if e.name == "message" then
      AppendAssistantText(s, StrOrNull(Field(e.data, "content")), StrOrNull(Field(e.data, "messageId")))
    else if e.name == "agent_message" then
      AppendAssistantText(s, StrOrNull(Field(e.data, "answer")), StrOrNull(Field(e.data, "messageId")))
    else if e.name == "text_chunk" then AppendAssistantText(s, StrOrNull(Field(e.data, "text")), None)
    else if e.name == "text_replace" then ReplaceAssistantText(s, StrOrNull(Field(e.data, "text")))
    else if e.name == "replace" then ReplaceAssistantText(s, StrOrNull(Field(e.data, "answer")))
    else s
  }

  // ---------------------------------------------------------------- around the reducer

  datatype HistoryItem = HistoryItem(id: string, query: string, answer: string)

  /** A newest-first history page as a chronological transcript, without its empty halves. */
  function HistoryToChatMessages(items: seq<HistoryItem>): seq<Message> {
    if items == [] then [] else
    var item := items[|items| - 1];
    (if item.query == "" then [] else [Message(item.id + "-user", User, item.query)])
    + (if item.answer == "" then [] else [Message(item.id + "-assistant", Assistant, item.answer)])
    + HistoryToChatMessages(items[..|items| - 1])
  }

  datatype Action =
    | Receive(event: Event)
    | Send(id: string, query: string)
    | Load(items: seq<HistoryItem>)

  function Act(s: ChatState, a: Action): ChatState {
    match a
    case Receive(e) => ApplySseEvent(s, e)
    case Send(id, query) => s.(messages := s.messages + [Message(id, User, query)], assistantId := None)
    case Load(items) => s.(messages := HistoryToChatMessages(items) + s.messages)
  }

  function Run(s: ChatState, actions: seq<Action>): ChatState {
    if actions == [] then s else Act(Run(s, actions[..|actions| - 1]), actions[|actions| - 1])
  }

  // ---------------------------------------------------------------- the log of accepted writes

  datatype Write = Append(id: string, text: string) | Replace(id: string, text: string)

  /** The bubble a delta is for, unless it replays one the stream has left. */
  function DeltaFor(s: ChatState, text: Option<string>, messageId: Option<string>): seq<Write> {
    if text.None? || (messageId.Some? && s.assistantId != messageId && messageId.value in s.renderedIds) then []
    else if messageId.Some? then [Append(messageId.value, text.value)]
    else if s.assistantId.Some? then [Append(s.assistantId.value, text.value)]
    else [Append(FallbackId(s.fallbacks + 1), text.value)]
  }

  function ReplacementFor(s: ChatState, text: Option<string>): seq<Write> {
    if text.None? || s.assistantId.None? then [] else [Replace(s.assistantId.value, text.value)]
  }

  /** The write an action is allowed, decided without looking at any bubble. */
  function Accepted(s: ChatState, a: Action): (w: seq<Write>)
    ensures |w| <= 1
  {
    if !a.Receive? then [] else
    var e := a.event;
    match e.name
    case "message" => DeltaFor(s, StrOrNull(Field(e.data, "content")), StrOrNull(Field(e.data, "messageId")))
    case "agent_message" => DeltaFor(s, StrOrNull(Field(e.data, "answer")), StrOrNull(Field(e.data, "messageId")))
    case "text_chunk" => DeltaFor(s, StrOrNull(Field(e.data, "text")), None)
    case "text_replace" => ReplacementFor(s, StrOrNull(Field(e.data, "text")))
    case "replace" => ReplacementFor(s, StrOrNull(Field(e.data, "answer")))
    case _ => []
  }

  function Log(s: ChatState, actions: seq<Action>): seq<Write> {
    if actions == [] then [] else
    var n := |actions| - 1;
    Log(s, actions[..n]) + Accepted(Run(s, actions[..n]), actions[n])
  }

  /** The deltas written to a bubble since its last replacement, behind that replacement. */
  function TextOf(log: seq<Write>, id: string): string {
    if log == [] then "" else
    var n := |log| - 1;
    if log[n].id != id then TextOf(log[..n], id)
    else if log[n].Replace? then log[n].text
    else TextOf(log[..n], id) + log[n].text
  }

  // ---------------------------------------------------------------- what a bubble shows

  /** What the bubble of that id shows. */
  function Shown(messages: seq<Message>, id: string): Option<string> {
    var i := Find(messages, id);
    if i < |messages| then Some(messages[i].content) else None
  }

  lemma RewriteShows(messages: seq<Message>, i: nat, content: string, id: string)
    requires i < |messages| && i == Find(messages, messages[i].id)
    ensures var after := messages[i := messages[i].(content := content)];
            Shown(after, id) == if id == messages[i].id then Some(content) else Shown(messages, id)
  {
    var after := messages[i := messages[i].(content := content)];
    assert forall j :: 0 <= j < |messages| ==> IsBubble(after[j], id) == IsBubble(messages[j], id);
    assert Find(after, id) == Find(messages, id);
  }

  lemma ReplaceShows(messages: seq<Message>, id: string, text: string, other: string)
    ensures Shown(ReplaceIn(messages, id, text), other)
            == if other == id && Shown(messages, id).Some? then Some(text) else Shown(messages, other)
  {
    var after := ReplaceIn(messages, id, text);
    assert forall j :: 0 <= j < |messages| ==> IsBubble(after[j], other) == IsBubble(messages[j], other);
    assert Find(after, other) == Find(messages, other);
  }

  lemma NewBubbleShows(messages: seq<Message>, m: Message, id: string)
    ensures Shown(messages + [m], id)
            == if Shown(messages, id).Some? then Shown(messages, id)
               else if IsBubble(m, id) then Some(m.content) else None
  {
    var i := Find(messages, id);
    var after := messages + [m];
    assert forall j :: 0 <= j < |messages| ==> after[j] == messages[j];
    assert after[|messages|] == m;
    var k := Find(after, id);
    assert i < |messages| ==> k == i;
  }

  lemma ConcatShows(a: seq<Message>, b: seq<Message>, id: string)
    ensures Shown(a + b, id) == if Shown(a, id).Some? then Shown(a, id) else Shown(b, id)
  {
    var (i, j, k) := (Find(a, id), Find(b, id), Find(a + b, id));
    assert forall n :: 0 <= n < |a| ==> (a + b)[n] == a[n];
    assert forall n :: 0 <= n < |b| ==> (a + b)[|a| + n] == b[n];
    if i < |a| {
      assert k == i;
    } else {
      assert k >= |a|;
      assert j < |b| ==> IsBubble((a + b)[|a| + j], id);
      assert k == |a| + j;
    }
  }

  lemma WriteShows(s: ChatState, id: string, text: string, other: string)
    ensures Shown(WriteTo(s, id, text).messages, other)
            == if other != id then Shown(s.messages, other)
               else Some((if Shown(s.messages, id).Some? then Shown(s.messages, id).value else "") + text)
  {
    var i := Find(s.messages, id);
    assert "" + text == text;
    if i < |s.messages| {
      RewriteShows(s.messages, i, s.messages[i].content + text, other);
    } else {
      NewBubbleShows(s.messages, Message(id, Assistant, text), other);
    }
  }

  /** What a bubble shows after a write that names it. */
  function Written(shown: Option<string>, w: Write): Option<string> {
    match w
    case Append(_, text) => Some((if shown.Some? then shown.value else "") + text)
    case Replace(_, text) => if shown.Some? then Some(text) else None
  }

  /** What one action does to the text shown under an id; a loaded bubble comes before the others. */
  function TextAfter(shown: Option<string>, s: ChatState, a: Action, id: string): Option<string> {
    match a
    case Send(_, _) => shown
    case Load(items) =>
      var loaded := Shown(HistoryToChatMessages(items), id);
      if loaded.Some? then loaded else shown
    case Receive(_) =>
      var w := Accepted(s, a);
      if w == [] || w[0].id != id then shown else Written(shown, w[0])
  }

  /** The delta an event carries: some text, and the id it names if any. */
  function DeltaOf(e: Event): Option<(string, Option<string>)> {
    var key := if e.name == "message" then "content" else if e.name == "agent_message" then "answer" else "text";
    var text := StrOrNull(Field(e.data, key));
    if (e.name != "message" && e.name != "agent_message" && e.name != "text_chunk") || text.None? then None
    else Some((text.value, if e.name == "text_chunk" then None else StrOrNull(Field(e.data, "messageId"))))
  }

  /** What an accepted event does to the state, in terms of its one write. */
  lemma AcceptedActs(s: ChatState, e: Event)
    ensures var (w, after) := (Accepted(s, Receive(e)), ApplySseEvent(s, e));
            if w == [] then after == s
            else match w[0]
                 case Append(id, text) =>
                   && text != "" && after == WriteTo(s.(fallbacks := after.fallbacks), id, text)
                   && DeltaOf(e) == Some((text, DeltaOf(e).value.1))
                 case Replace(id, text) =>
                   s.assistantId == Some(id) && after == s.(messages := ReplaceIn(s.messages, id, text))
  {}

  /** Over any state and action, ids clashing or not, the text under an id is what the write makes of it. */
  lemma ActShows(s: ChatState, a: Action, id: string)
    ensures Shown(Act(s, a).messages, id) == TextAfter(Shown(s.messages, id), s, a, id)
  {
    match a
    case Receive(e) =>
      AcceptedActs(s, e);
      if Accepted(s, a) != [] {
        match Accepted(s, a)[0]
        case Append(target, text) => WriteShows(s.(fallbacks := Act(s, a).fallbacks), target, text, id);
        case Replace(target, text) => ReplaceShows(s.messages, target, text, id);
      }
    case Send(from, query) => NewBubbleShows(s.messages, Message(from, User, query), id);
    case Load(items) => ConcatShows(HistoryToChatMessages(items), s.messages, id);
  }

  lemma RunOneMore(s: ChatState, actions: seq<Action>, i: nat)
    requires i < |actions|
    ensures Run(s, actions[..i + 1]) == Act(Run(s, actions[..i]), actions[i])
  {
    assert actions[..i + 1][..i] == actions[..i] && actions[..i + 1][i] == actions[i];
  }

  /** The action leaves the text under an id alone. */
  predicate Spares(s: ChatState, a: Action, id: string, text: string) {
    match a
    case Receive(_) => forall w :: w in Accepted(s, a) ==> w.id != id || w == Replace(id, text)
    case Send(_, _) => true
    case Load(items) => Shown(HistoryToChatMessages(items), id) in {None, Some(text)}
  }

  lemma SparesIff(s: ChatState, a: Action, id: string, text: string)
    ensures TextAfter(Some(text), s, a, id) == Some(text) <==> Spares(s, a, id, text)
  {
    if a.Receive? && Accepted(s, a) != [] {
      AcceptedActs(s, a.event);
      var w := Accepted(s, a)[0];
      assert Accepted(s, a) == [w];
      assert w.Append? ==> |text + w.text| > |text|;
    }
  }

  /**
   * A bubble, loaded or streamed, keeps its text throughout a run if and only if no accepted write
   * names its id, but for replacements by the very same text, and no other bubble of that id is loaded.
   */
  lemma KeepsTextIff(s: ChatState, actions: seq<Action>, id: string, text: string)
    requires Shown(s.messages, id) == Some(text)
    ensures (forall n :: 0 <= n <= |actions| ==> Shown(Run(s, actions[..n]).messages, id) == Some(text))
            <==> (forall i :: 0 <= i < |actions| ==> Spares(Run(s, actions[..i]), actions[i], id, text))
  {
    if forall i :: 0 <= i < |actions| ==> Spares(Run(s, actions[..i]), actions[i], id, text) {
      forall n | 0 <= n <= |actions| ensures Shown(Run(s, actions[..n]).messages, id) == Some(text) {
        KeepsWhileSpared(s, actions, n, id, text);
      }
    } else {
      var i :| 0 <= i < |actions| && !Spares(Run(s, actions[..i]), actions[i], id, text);
      RunOneMore(s, actions, i);
      ActShows(Run(s, actions[..i]), actions[i], id);
      SparesIff(Run(s, actions[..i]), actions[i], id, text);
    }
  }

  lemma {:induction false} KeepsWhileSpared(s: ChatState, actions: seq<Action>, n: nat, id: string, text: string)
    requires n <= |actions| && Shown(s.messages, id) == Some(text)
    requires forall i :: 0 <= i < n ==> Spares(Run(s, actions[..i]), actions[i], id, text)
    ensures Shown(Run(s, actions[..n]).messages, id) == Some(text)
    decreases n
  {
    if n != 0 {
      KeepsWhileSpared(s, actions, n - 1, id, text);
      RunOneMore(s, actions, n - 1);
      ActShows(Run(s, actions[..n - 1]), actions[n - 1], id);
      SparesIff(Run(s, actions[..n - 1]), actions[n - 1], id, text);
    }
  }

  // ---------------------------------------------------------------- where the bubbles come from

  /** How a message came onto the screen. */
  datatype Origin = Sent(id: string, query: string) | Loaded(message: Message) | Opened(id: string)

  function LoadedTrail(messages: seq<Message>): (trail: seq<Origin>)
    ensures |trail| == |messages| && forall i :: 0 <= i < |messages| ==> trail[i] == Loaded(messages[i])
  {
    if messages == [] then [] else [Loaded(messages[0])] + LoadedTrail(messages[1..])
  }

  /** The bubble an action opens: an accepted delta for an id no bubble has. */
  function Opens(s: ChatState, a: Action): seq<Origin> {
    var w := Accepted(s, a);
    if w != [] && w[0].Append? && Shown(s.messages, w[0].id).None? then [Opened(w[0].id)] else []
  }

  /** The origins of all messages on screen, in their order. */
  function Trail(s: ChatState, actions: seq<Action>): seq<Origin> {
    if actions == [] then [] else
    var (before, a) := (actions[..|actions| - 1], actions[|actions| - 1]);
    match a
    case Receive(_) => Trail(s, before) + Opens(Run(s, before), a)
    case Send(id, query) => Trail(s, before) + [Sent(id, query)]
    case Load(items) => LoadedTrail(HistoryToChatMessages(items)) + Trail(s, before)
  }

  function OpenedIds(trail: seq<Origin>): seq<string> {
    if trail == [] then []
    else (if trail[0].Opened? then [trail[0].id] else []) + OpenedIds(trail[1..])
  }

  /** A message is what its origin says; a loaded one keeps its text unless a write named its id. */
  ghost predicate Fits(o: Origin, m: Message, log: seq<Write>) {
    match o
    case Sent(id, query) => m == Message(id, User, query)
    case Opened(id) => m.id == id && m.role == Assistant
    case Loaded(l) =>
      && m.id == l.id && m.role == l.role
      && (l.role == User || (forall w :: w in log ==> w.id != l.id) ==> m == l)
  }

  ghost predicate AllFit(trail: seq<Origin>, messages: seq<Message>, log: seq<Write>) {
    |trail| == |messages| && forall i :: 0 <= i < |trail| ==> Fits(trail[i], messages[i], log)
  }

  lemma {:induction false} OpenedConcat(a: seq<Origin>, b: seq<Origin>)
    ensures OpenedIds(a + b) == OpenedIds(a) + OpenedIds(b)
  {
    if a == [] {
      assert a + b == b;
    } else {
      var (head, x, y) := (if a[0].Opened? then [a[0].id] else [], OpenedIds(a[1..]), OpenedIds(b));
      OpenedConcat(a[1..], b);
      assert (a + b)[0] == a[0] && (a + b)[1..] == a[1..] + b;
      assert head + (x + y) == (head + x) + y;
    }
  }

  lemma {:induction false} LoadedOpensNone(messages: seq<Message>)
    ensures OpenedIds(LoadedTrail(messages)) == []
  {
    if messages != [] {
      LoadedOpensNone(messages[1..]);
      assert LoadedTrail(messages)[1..] == LoadedTrail(messages[1..]);
    }
  }

  predicate Distinct(ids: seq<string>) {
    forall i, j :: 0 <= i < j < |ids| ==> ids[i] != ids[j]
  }

  /** Every rendered id and the current one have a bubble. */
  ghost predicate RenderedHaveBubbles(s: ChatState) {
    && (forall id :: id in s.renderedIds ==> Shown(s.messages, id).Some?)
    && (s.assistantId.Some? ==> Shown(s.messages, s.assistantId.value).Some?)
  }

  lemma ActKeepsBubbles(s: ChatState, a: Action)
    requires RenderedHaveBubbles(s) && Distinct(s.renderedIds)
    ensures RenderedHaveBubbles(Act(s, a)) && Distinct(Act(s, a).renderedIds)
    ensures Act(s, a).renderedIds == s.renderedIds + OpenedIds(Opens(s, a))
  {
    forall id | Shown(s.messages, id).Some? ensures Shown(Act(s, a).messages, id).Some? {
      ActShows(s, a, id);
    }
    if a.Receive? {
      AcceptedActs(s, a.event);
      var w := Accepted(s, a);
      if w != [] && w[0].Append? {
        ActShows(s, a, w[0].id);
      }
      assert Opens(s, a) != [] ==> Opens(s, a)[1..] == [];
    }
  }

  lemma RewriteFits(trail: seq<Origin>, messages: seq<Message>, after: seq<Message>, log: seq<Write>, w: Write)
    requires AllFit(trail, messages, log) && |after| == |messages|
    requires forall i :: 0 <= i < |messages| ==>
      after[i] == messages[i] || (IsBubble(messages[i], w.id) && after[i] == messages[i].(content := after[i].content))
    ensures AllFit(trail, after, log + [w])
  {
    forall i | 0 <= i < |trail| ensures Fits(trail[i], after[i], log + [w]) {
      assert Fits(trail[i], messages[i], log);
      assert w in log + [w] && forall x :: x in log ==> x in log + [w];
    }
  }

  lemma AppendFits(trail: seq<Origin>, messages: seq<Message>, log: seq<Write>, o: Origin, m: Message, w: Write)
    requires AllFit(trail, messages, log) && Fits(o, m, log + [w])
    ensures AllFit(trail + [o], messages + [m], log + [w])
  {
    RewriteFits(trail, messages, messages, log, w);
  }

  lemma ReceiveFits(s: ChatState, e: Event, trail: seq<Origin>, log: seq<Write>)
    requires AllFit(trail, s.messages, log)
    ensures AllFit(trail + Opens(s, Receive(e)), ApplySseEvent(s, e).messages, log + Accepted(s, Receive(e)))
  {
    var w := Accepted(s, Receive(e));
    AcceptedActs(s, e);
    if w == [] {
      assert trail + [] == trail && log + [] == log;
    } else {
      assert w == [w[0]];
      match w[0]
      case Append(id, text) =>
        var i := Find(s.messages, id);
        if i < |s.messages| {
          assert trail + [] == trail;
          RewriteFits(trail, s.messages, ApplySseEvent(s, e).messages, log, w[0]);
        } else {
          AppendFits(trail, s.messages, log, Opened(id), Message(id, Assistant, text), w[0]);
        }
      case Replace(id, text) =>
        assert trail + [] == trail;
        RewriteFits(trail, s.messages, ApplySseEvent(s, e).messages, log, w[0]);
    }
  }

  /** No assistant bubble of that id is ever loaded. */
  predicate NeverLoaded(actions: seq<Action>, id: string) {
    forall i :: 0 <= i < |actions| && actions[i].Load? ==> Shown(HistoryToChatMessages(actions[i].items), id).None?
  }

  /** Some write names the id. */
  predicate Named(log: seq<Write>, id: string) {
    exists w :: w in log && w.id == id
  }

  lemma LogGrows(log: seq<Write>, w: Write, id: string)
    ensures TextOf(log + [w], id) == if w.id != id then TextOf(log, id)
                                     else if w.Replace? then w.text else TextOf(log, id) + w.text
    ensures Named(log + [w], id) <==> Named(log, id) || w.id == id
  {
    assert (log + [w])[..|log|] == log;
    assert w in log + [w] && forall x :: x in log ==> x in log + [w];
  }

  lemma {:induction false} UnnamedIsEmpty(log: seq<Write>, id: string)
    requires !Named(log, id)
    ensures TextOf(log, id) == ""
  {
    if log != [] {
      var n := |log| - 1;
      assert log == log[..n] + [log[n]] && log[n] in log;
      assert forall w :: w in log[..n] ==> w in log;
      UnnamedIsEmpty(log[..n], id);
    }
  }

  /** What the log owes the screen under an id. */
  function Owed(log: seq<Write>, id: string): Option<string> {
    if Named(log, id) then Some(TextOf(log, id)) else None
  }

  lemma OwedAfter(log: seq<Write>, w: Write, id: string)
    requires w.id == id && w.Replace? ==> Named(log, id)
    ensures Owed(log + [w], id) == if w.id == id then Written(Owed(log, id), w) else Owed(log, id)
  {
    LogGrows(log, w, id);
    if !Named(log, id) {
      UnnamedIsEmpty(log, id);
    }
  }

  /**
   * Over any conversation, whatever ids the stream uses: every message on screen has its origin,
   * in order; the rendered ids are distinct and name exactly the bubbles the stream opened; queries
   * stand, and so does every loaded bubble whose id no write named; and a bubble that was not loaded
   * shows its accepted deltas since its last replacement.
   */
  lemma {:induction false} ScreenShowsLog(fallbacks: nat, actions: seq<Action>)
    ensures var s := Run(Initial(fallbacks), actions);
            var (trail, log) := (Trail(Initial(fallbacks), actions), Log(Initial(fallbacks), actions));
            && AllFit(trail, s.messages, log)
            && RenderedHaveBubbles(s) && Distinct(s.renderedIds) && s.renderedIds == OpenedIds(trail)
    decreases |actions|
  {
    if actions != [] {
      var (start, before, a) := (Initial(fallbacks), actions[..|actions| - 1], actions[|actions| - 1]);
      ScreenShowsLog(fallbacks, before);
      var (s, trail, log) := (Run(start, before), Trail(start, before), Log(start, before));
      ActKeepsBubbles(s, a);
      assert log + [] == log;
      match a
      case Receive(e) =>
        ReceiveFits(s, e, trail, log);
        OpenedConcat(trail, Opens(s, a));
      case Send(id, query) =>
        OpenedConcat(trail, [Sent(id, query)]);
        assert [Sent(id, query)][1..] == [];
      case Load(items) =>
        LoadedOpensNone(HistoryToChatMessages(items));
        OpenedConcat(LoadedTrail(HistoryToChatMessages(items)), trail);
    }
  }

  lemma {:induction false} StreamShowsLog(fallbacks: nat, actions: seq<Action>, id: string)
    requires NeverLoaded(actions, id)
    ensures var s := Run(Initial(fallbacks), actions);
            && Shown(s.messages, id) == Owed(Log(Initial(fallbacks), actions), id)
            && (id in s.renderedIds <==> Shown(s.messages, id).Some?)
    decreases |actions|
  {
    if actions != [] {
      var (start, before, a) := (Initial(fallbacks), actions[..|actions| - 1], actions[|actions| - 1]);
      assert forall i :: 0 <= i < |before| ==> before[i] == actions[i];
      StreamShowsLog(fallbacks, before, id);
      ScreenShowsLog(fallbacks, before);
      StreamStep(Run(start, before), Log(start, before), a, id);
    }
  }

  /** One action keeps a bubble that is never loaded on its log. */
  lemma StreamStep(s: ChatState, log: seq<Write>, a: Action, id: string)
    requires RenderedHaveBubbles(s) && Distinct(s.renderedIds) && Shown(s.messages, id) == Owed(log, id)
    requires id in s.renderedIds <==> Shown(s.messages, id).Some?
    requires a.Load? ==> Shown(HistoryToChatMessages(a.items), id).None?
    ensures var after := Act(s, a);
            && Shown(after.messages, id) == Owed(log + Accepted(s, a), id)
            && (id in after.renderedIds <==> Shown(after.messages, id).Some?)
  {
    ActShows(s, a, id);
    ActKeepsBubbles(s, a);
    OpensOne(s, a, id);
    var w := Accepted(s, a);
    if w == [] {
      assert log + w == log;
    } else {
      AcceptedActs(s, a.event);
      assert w == [w[0]];
      OwedAfter(log, w[0], id);
    }
  }

  lemma OpensOne(s: ChatState, a: Action, id: string)
    ensures id in OpenedIds(Opens(s, a)) <==>
            Accepted(s, a) != [] && Accepted(s, a)[0].Append? && Accepted(s, a)[0].id == id
            && Shown(s.messages, id).None?
  {
    assert Opens(s, a) != [] ==> Opens(s, a)[1..] == [];
  }

  // ---------------------------------------------------------------- bubbles the stream has left

  /** A bubble the stream has moved away from. */
  predicate Left(s: ChatState, id: string) {
    id in s.renderedIds && s.assistantId != Some(id)
  }

  /** A delta without an id arrives while no bubble is current, and the next fallback id is this one. */
  predicate Reopens(s: ChatState, a: Action, id: string) {
    && a.Receive? && DeltaOf(a.event).Some? && DeltaOf(a.event).value.1.None?
    && s.assistantId.None? && id == FallbackId(s.fallbacks + 1)
  }

  /** One action brings a left bubble back, or writes to it, if and only if it reopens it. */
  lemma ReopensIff(s: ChatState, a: Action, id: string)
    requires Left(s, id)
    ensures !Left(Act(s, a), id) <==> Reopens(s, a, id)
    ensures (exists w :: w in Accepted(s, a) && w.id == id) <==> Reopens(s, a, id)
  {
    if a.Receive? && Accepted(s, a) != [] {
      var w := Accepted(s, a)[0];
      assert w in Accepted(s, a) && Accepted(s, a) == [w];
      AcceptedActs(s, a.event);
    }
  }

  /**
   * A left bubble stays left throughout a run if and only if no action reopens it; and then it
   * shows what it showed, unless another bubble of its id is loaded.
   */
  lemma LeftThroughoutIff(s: ChatState, actions: seq<Action>, id: string)
    requires Left(s, id)
    ensures (forall n :: 0 <= n <= |actions| ==> Left(Run(s, actions[..n]), id))
            <==> (forall i :: 0 <= i < |actions| ==> !Reopens(Run(s, actions[..i]), actions[i], id))
    ensures NeverLoaded(actions, id)
            && (forall i :: 0 <= i < |actions| ==> !Reopens(Run(s, actions[..i]), actions[i], id))
            ==> Shown(Run(s, actions).messages, id) == Shown(s.messages, id)
  {
    assert actions[..|actions|] == actions;
    if forall i :: 0 <= i < |actions| ==> !Reopens(Run(s, actions[..i]), actions[i], id) {
      forall n | 0 <= n <= |actions|
        ensures Left(Run(s, actions[..n]), id)
        ensures NeverLoaded(actions, id) ==> Shown(Run(s, actions[..n]).messages, id) == Shown(s.messages, id)
      {
        LeftWhileNotReopened(s, actions, n, id);
      }
    } else {
      var i :| 0 <= i < |actions| && Reopens(Run(s, actions[..i]), actions[i], id);
      RunOneMore(s, actions, i);
      if Left(Run(s, actions[..i]), id) {
        ReopensIff(Run(s, actions[..i]), actions[i], id);
      }
    }
  }

  lemma {:induction false} LeftWhileNotReopened(s: ChatState, actions: seq<Action>, n: nat, id: string)
    requires Left(s, id) && n <= |actions|
    requires forall i :: 0 <= i < n ==> !Reopens(Run(s, actions[..i]), actions[i], id)
    ensures Left(Run(s, actions[..n]), id)
    ensures NeverLoaded(actions, id) ==> Shown(Run(s, actions[..n]).messages, id) == Shown(s.messages, id)
    decreases n
  {
    if n != 0 {
      LeftWhileNotReopened(s, actions, n - 1, id);
      RunOneMore(s, actions, n - 1);
      LeftStep(Run(s, actions[..n - 1]), actions[n - 1], id);
    }
  }

  lemma LeftStep(s: ChatState, a: Action, id: string)
    requires Left(s, id) && !Reopens(s, a, id)
    ensures Left(Act(s, a), id)
    ensures (a.Load? ==> Shown(HistoryToChatMessages(a.items), id).None?) ==>
              Shown(Act(s, a).messages, id) == Shown(s.messages, id)
  {
    ReopensIff(s, a, id);
    ActShows(s, a, id);
    assert Accepted(s, a) != [] ==> Accepted(s, a)[0] in Accepted(s, a);
  }

  lemma {:induction false} RunConcat(s: ChatState, a: seq<Action>, b: seq<Action>)
    ensures Run(s, a + b) == Run(Run(s, a), b)
    decreases |b|
  {
    if b == [] {
      assert a + b == a;
    } else {
      var n := |b| - 1;
      RunConcat(s, a, b[..n]);
      assert (a + b)[..|a + b| - 1] == a + b[..n] && (a + b)[|a + b| - 1] == b[n];
    }
  }

  lemma {:induction false} CounterGrows(s: ChatState, actions: seq<Action>)
    ensures Run(s, actions).fallbacks >= s.fallbacks
    decreases |actions|
  {
    if actions != [] {
      CounterGrows(s, actions[..|actions| - 1]);
    }
  }

  lemma {:induction false} LeftUnlessFallback(s: ChatState, actions: seq<Action>, id: string)
    requires Left(s, id) && forall k: nat :: k > s.fallbacks ==> id != FallbackId(k)
    ensures Left(Run(s, actions), id)
    decreases |actions|
  {
    if actions != [] {
      var before := actions[..|actions| - 1];
      LeftUnlessFallback(s, before, id);
      CounterGrows(s, before);
      ReopensIff(Run(s, before), actions[|actions| - 1], id);
    }
  }

  /** A query, then a piece of answer that names no message. */
  function Round(): seq<Action> {
    [Send("user-1", "next"), Receive(Event("text_chunk", Obj(map["text" := Str("more")])))]
  }

  lemma RoundDraws(s: ChatState, id: string)
    ensures var after := Run(s, Round());
            after.fallbacks == s.fallbacks + 1 && after.assistantId == Some(FallbackId(s.fallbacks + 1))
            && forall x :: x in s.renderedIds ==> x in after.renderedIds
  {
    RunTwo(s, Round()[0], Round()[1]);
    AcceptedActs(Act(s, Round()[0]), Round()[1].event);
  }

  /** Queries answered without message ids draw the counter up to a left bubble's id. */
  lemma {:induction false} ReopeningRun(s: ChatState, id: string, k: nat) returns (actions: seq<Action>)
    requires Left(s, id) && k > s.fallbacks && id == FallbackId(k)
    ensures !Left(Run(s, actions), id)
    decreases k - s.fallbacks
  {
    var after := Run(s, Round());
    RoundDraws(s, id);
    if k == s.fallbacks + 1 {
      actions := Round();
    } else {
      FallbackIdsDiffer(k, s.fallbacks + 1);
      var rest := ReopeningRun(after, id, k);
      actions := Round() + rest;
      RunConcat(s, Round(), rest);
    }
  }

  /**
   * A bubble the stream has left is left for good, whatever happens, if and only if its id is none
   * of the fallback ids still to be drawn.
   */
  lemma LeftForGoodIff(s: ChatState, id: string)
    requires Left(s, id)
    ensures (forall actions :: Left(Run(s, actions), id))
            <==> (forall k: nat :: k > s.fallbacks ==> id != FallbackId(k))
  {
    if k: nat :| k > s.fallbacks && id == FallbackId(k) {
      var actions := ReopeningRun(s, id, k);
      assert !Left(Run(s, actions), id);
    } else {
      forall actions ensures Left(Run(s, actions), id) {
        LeftUnlessFallback(s, actions, id);
      }
    }
  }

  /** An id as the upstream writes a UUID: hexadecimal digits and hyphens. */
  predicate UuidText(id: string) {
    |id| == 36 && forall i :: 0 <= i < |id| ==>
      '0' <= id[i] <= '9' || 'a' <= id[i] <= 'f' || 'A' <= id[i] <= 'F' || id[i] == '-'
  }

  /** A UUID is neither a fallback id nor the id of a loaded bubble, so it meets neither condition. */
  lemma UuidsStandApart(id: string, k: nat, item: string)
    requires UuidText(id)
    ensures id != FallbackId(k) && id != item + "-assistant"
  {
    assert FallbackId(k)[1] == 's';
    assert (item + "-assistant")[|item| + 2] == 's';
  }

  // ---------------------------------------------------------------- ids that do clash

  function MessageEvent(id: string, text: string): Event {
    Event("message", Obj(map["content" := Str(text), "messageId" := Str(id)]))
  }

  lemma RunTwo(s: ChatState, a: Action, b: Action)
    ensures Run(s, [a]) == Act(s, a) && Run(s, [a, b]) == Act(Act(s, a), b)
  {
    assert [a, b][..1] == [a] && [a][..0] == [];
    assert Run(s, []) == s;
  }

  lemma MessageWrites(s: ChatState, id: string, text: string)
    requires text != "" && id != "" && (id in s.renderedIds ==> s.assistantId == Some(id))
    ensures ApplySseEvent(s, MessageEvent(id, text)) == WriteTo(s, id, text)
  {}

  /** A stream that reuses the id of a loaded bubble writes on into the history. */
  lemma HistoryCollision(fallbacks: nat, item: HistoryItem, text: string)
    requires item.answer != "" && text != ""
    ensures var id := item.id + "-assistant";
            var s := Run(Initial(fallbacks), [Load([item]), Receive(MessageEvent(id, text))]);
            Shown(s.messages, id) == Some(item.answer + text) && s.renderedIds == []
  {
    var id := item.id + "-assistant";
    RunTwo(Initial(fallbacks), Load([item]), Receive(MessageEvent(id, text)));
    var h := HistoryToChatMessages([item]);
    var loaded := Initial(fallbacks).(messages := h + []);
    assert [item][..0] == [] && HistoryToChatMessages([]) == [];
    assert h + [] == h && h[|h| - 1] == Message(id, Assistant, item.answer);
    assert forall j :: 0 <= j < |h| - 1 ==> h[j].role == User;
    MessageWrites(loaded, id, text);
    WriteShows(loaded, id, text, id);
  }

  /** A stream that uses the next fallback id as its own has an abandoned bubble written to. */
  lemma FallbackCollision(fallbacks: nat, first: string, second: string)
    requires first != "" && second != ""
    ensures var id := FallbackId(fallbacks + 1);
            var before := [Receive(MessageEvent(id, first)), Send("user-1", "next")];
            var chunk := Receive(Event("text_chunk", Obj(map["text" := Str(second)])));
            var (s, end) := (Run(Initial(fallbacks), before), Run(Initial(fallbacks), before + [chunk]));
            Left(s, id) && Shown(s.messages, id) == Some(first) && Shown(end.messages, id) == Some(first + second)
  {
    var id := FallbackId(fallbacks + 1);
    var (start, send) := (Initial(fallbacks), Send("user-1", "next"));
    var before := [Receive(MessageEvent(id, first)), send];
    var chunk := Receive(Event("text_chunk", Obj(map["text" := Str(second)])));
    assert (before + [chunk])[..2] == before;
    RunTwo(start, before[0], send);
    MessageWrites(start, id, first);
    WriteShows(start, id, first, id);
    var begun := WriteTo(start, id, first);
    NewBubbleShows(begun.messages, Message("user-1", User, "next"), id);
    var s := Run(start, before);
    assert s == Act(begun, send) && begun.renderedIds == [id];
    assert Act(s, chunk) == WriteTo(s.(fallbacks := fallbacks + 1), id, second);
    WriteShows(s.(fallbacks := fallbacks + 1), id, second, id);
  }
}
