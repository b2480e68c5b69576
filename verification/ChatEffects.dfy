/**
 * What each event does to the chat, read off the fields of the event and the bubbles on screen
 * (`lib/chat-stream-state.ts`), and how a page of history reads (`lib/chat-history.ts`).
 */
module ChatEffects {
  import opened Wrappers
  import opened SseText
  import opened SseDecoding
  import opened ChatReducer

  /** The event's payload holds a text under that key. */
  predicate HasText(e: Event, key: string) {
    e.data.Obj? && key in e.data.fields && e.data.fields[key].Str? && e.data.fields[key].s != ""
  }

  /** The event is of that name and adds the text under that key. */
  predicate Adds(e: Event, name: string, key: string) {
    e.name == name && HasText(e, key)
  }

  /** The bubble a delta is for: the one it names, or else the current one, or else a new one. */
  function Target(s: ChatState, named: Option<string>): string {
    if named.Some? then named.value
    else if s.assistantId.Some? then s.assistantId.value
    else "assistant-" + Decimal(s.fallbacks + 1)
  }

  /** A delta that names a bubble the stream has left. */
  predicate IsReplay(s: ChatState, named: Option<string>) {
    named.Some? && named.value in s.renderedIds && s.assistantId != named
  }

  /** The first assistant bubble of an id. */
  ghost predicate IsFirst(messages: seq<Message>, id: string, i: int) {
    && 0 <= i < |messages| && messages[i].role == Assistant && messages[i].id == id
    && forall j :: 0 <= j < i ==> messages[j].role != Assistant || messages[j].id != id
  }

  ghost predicate NoBubble(messages: seq<Message>, id: string) {
    forall i :: 0 <= i < |messages| ==> messages[i].role != Assistant || messages[i].id != id
  }

  /** The text has been added to the bubble, which is now the current one; a missing bubble has been opened last. */
  ghost predicate Added(s: ChatState, s': ChatState, id: string, text: string) {
    && s'.assistantId == Some(id)
    && (NoBubble(s.messages, id) ==>
          s'.messages == s.messages + [Message(id, Assistant, text)] && s'.renderedIds == s.renderedIds + [id])
    && (forall i :: IsFirst(s.messages, id, i) ==>
          && s'.messages == s.messages[i := Message(id, Assistant, s.messages[i].content + text)]
          && s'.renderedIds == s.renderedIds)
  }

  lemma WriteAdds(s: ChatState, id: string, text: string)
    ensures Added(s, WriteTo(s, id, text), id, text) && WriteTo(s, id, text).fallbacks == s.fallbacks
  {
    var k := Find(s.messages, id);
    if k < |s.messages| {
      assert IsBubble(s.messages[k], id);
      forall i | IsFirst(s.messages, id, i) ensures i == k {
        assert i < k ==> !IsBubble(s.messages[i], id);
      }
    } else {
      forall i | 0 <= i < |s.messages| ensures s.messages[i].role != Assistant || s.messages[i].id != id {
        assert !IsBubble(s.messages[i], id);
      }
      assert forall i :: !IsFirst(s.messages, id, i);
    }
  }

  /** What a delta does: nothing for a replay, and otherwise its text joins its bubble. */
  ghost predicate DeltaActs(s: ChatState, s': ChatState, text: string, named: Option<string>) {
    if IsReplay(s, named) then s' == s
    else
      && Added(s, s', Target(s, named), text)
      && s'.fallbacks == s.fallbacks + (if named.None? && s.assistantId.None? then 1 else 0)
  }

  lemma AppendActs(s: ChatState, text: string, named: Option<string>)
    ensures DeltaActs(s, AppendAssistantText(s, Some(text), named), text, named)
  {
    if !IsReplay(s, named) {
      var counter := s.fallbacks + (if named.None? && s.assistantId.None? then 1 else 0);
      WriteAdds(s.(fallbacks := counter), Target(s, named), text);
      assert FallbackId(counter) == "assistant-" + Decimal(counter);
    }
  }

  /** What a replacement does: every bubble of the current id shows the text, and nothing else changes. */
  ghost predicate ReplacementActs(s: ChatState, s': ChatState, text: string) {
    if s.assistantId.None? then s' == s
    else
      && s' == s.(messages := s'.messages) && |s'.messages| == |s.messages|
      && forall i :: 0 <= i < |s.messages| ==>
           s'.messages[i] == if s.messages[i].role == Assistant && Some(s.messages[i].id) == s.assistantId
                             then Message(s.messages[i].id, Assistant, text) else s.messages[i]
  }

  lemma ReplaceActs(s: ChatState, text: string)
    ensures ReplacementActs(s, ReplaceAssistantText(s, Some(text)), text)
  {}

  /** An answer's delta: its text and the message it names. */
  lemma MessageActs(s: ChatState, e: Event)
    requires Adds(e, "message", "content") || Adds(e, "agent_message", "answer")
    ensures var text := e.data.fields[if e.name == "message" then "content" else "answer"].s;
            DeltaActs(s, ApplySseEvent(s, e), text,
                      if HasText(e, "messageId") then Some(e.data.fields["messageId"].s) else None)
  {
    var text := e.data.fields[if e.name == "message" then "content" else "answer"].s;
    AppendActs(s, text, if HasText(e, "messageId") then Some(e.data.fields["messageId"].s) else None);
  }

  /** A workflow's text names no message. */
  lemma ChunkActs(s: ChatState, e: Event)
    requires Adds(e, "text_chunk", "text")
    ensures DeltaActs(s, ApplySseEvent(s, e), e.data.fields["text"].s, None)
  {
    AppendActs(s, e.data.fields["text"].s, None);
  }

  /** A replacement, of an answer or of a workflow's text. */
  lemma ReplacementDoes(s: ChatState, e: Event)
    requires Adds(e, "replace", "answer") || Adds(e, "text_replace", "text")
    ensures ReplacementActs(s, ApplySseEvent(s, e), e.data.fields[if e.name == "replace" then "answer" else "text"].s)
  {
    ReplaceActs(s, e.data.fields[if e.name == "replace" then "answer" else "text"].s);
  }

  /** Any other event, and one of these without a text, changes no bubble. */
  lemma OthersDoNothing(s: ChatState, e: Event)
    requires !Adds(e, "message", "content") && !Adds(e, "agent_message", "answer") && !Adds(e, "text_chunk", "text")
    requires !Adds(e, "replace", "answer") && !Adds(e, "text_replace", "text")
    ensures ApplySseEvent(s, e) == s
  {}

  // ---------------------------------------------------------------- the history

  /** One turn of the history: the query, then the answer, each only if it is not empty. */
  lemma HistoryOne(item: HistoryItem)
    ensures var messages := HistoryToChatMessages([item]);
            messages == (if item.query != "" then [Message(item.id + "-user", User, item.query)] else [])
                        + (if item.answer != "" then [Message(item.id + "-assistant", Assistant, item.answer)] else [])
  {
    assert [item][..0] == [] && HistoryToChatMessages([]) == [];
  }

  /** A history is newest first and is read oldest first. */
  lemma {:induction false} HistoryConcat(newer: seq<HistoryItem>, older: seq<HistoryItem>)
    ensures HistoryToChatMessages(newer + older) == HistoryToChatMessages(older) + HistoryToChatMessages(newer)
    decreases |older|
  {
    if older == [] {
      assert newer + older == newer;
    } else {
      var (n, item) := (|older| - 1, older[|older| - 1]);
      assert (newer + older)[..|newer + older| - 1] == newer + older[..n];
      assert (newer + older)[|newer + older| - 1] == item;
      var (turn, before) := (HistoryTurn(item), HistoryToChatMessages(older[..n]));
      calc {
        HistoryToChatMessages(newer + older);
        { HistoryUnfolds(newer + older); }
        turn + HistoryToChatMessages(newer + older[..n]);
        { HistoryConcat(newer, older[..n]); }
        turn + (before + HistoryToChatMessages(newer));
        { MessagesJoin(turn, before, HistoryToChatMessages(newer)); }
        (turn + before) + HistoryToChatMessages(newer);
        { HistoryUnfolds(older); }
        HistoryToChatMessages(older) + HistoryToChatMessages(newer);
      }
    }
  }

  function HistoryTurn(item: HistoryItem): seq<Message> {
    (if item.query == "" then [] else [Message(item.id + "-user", User, item.query)])
    + (if item.answer == "" then [] else [Message(item.id + "-assistant", Assistant, item.answer)])
  }

  lemma HistoryUnfolds(items: seq<HistoryItem>)
    requires items != []
    ensures HistoryToChatMessages(items)
            == HistoryTurn(items[|items| - 1]) + HistoryToChatMessages(items[..|items| - 1])
  {}

  lemma MessagesJoin(a: seq<Message>, b: seq<Message>, c: seq<Message>)
    ensures a + (b + c) == (a + b) + c
  {}
}
