/**
 * The message list `ask_ollama` sends to the chat model: the system turn with
 * the tier's prompt, the recent history in chronological order, and the
 * final user turn that repeats the role instruction around the new message.
 */
module Prompt {
  import opened Wrappers
  import opened Text

  datatype Role = System | User | Assistant

  /** One `{"role": …, "content": …}` entry of the message list. */
  datatype Turn = Turn(role: Role, content: string)

  /** The two fields of a history document the worker reads. */
  datatype HistoryDoc = HistoryDoc(sender: string, text: string)

  /** A sender of `user` speaks as the user; every other sender, the AI included, as the assistant. */
  function RoleOf(sender: string): (role: Role)
    ensures role != System
    ensures role == User <==> sender == "user"
  {
    if sender == "user" then User else Assistant
  }

  /** The history query returns the newest documents first; `[::-1]` puts them in chronological order. */
  function Reverse(docs: seq<HistoryDoc>): (r: seq<HistoryDoc>)
    ensures |r| == |docs| && forall i :: 0 <= i < |docs| ==> r[i] == docs[|docs| - 1 - i]
  {
    seq(|docs|, i requires 0 <= i < |docs| => docs[|docs| - 1 - i])
  }

  /** `past_messages`: the reversed history, or none when the history query raised. */
  function Past(history: Option<seq<HistoryDoc>>): (past: seq<HistoryDoc>)
    ensures history.None? ==> past == []
    ensures history.Some? ==> past == Reverse(history.value)
  {
    if history.None? then [] else Reverse(history.value)
  }

  /** The history turns: one per document, in order, skipping the documents whose text is the message being answered. */
  function HistoryTurns(past: seq<HistoryDoc>, last: string): (turns: seq<Turn>)
    ensures |turns| <= |past|
    ensures forall i :: 0 <= i < |turns| ==> turns[i].role != System && turns[i].content != last
  {
    if past == [] then []
    else
      var doc := past[|past| - 1];
      var init := HistoryTurns(past[..|past| - 1], last);
      if doc.text == last then init else init + [Turn(RoleOf(doc.sender), doc.text)]
  }

  /** The history turns of two stretches of history are those of the first, then those of the second. */
  lemma {:induction false} HistoryTurnsAppend(a: seq<HistoryDoc>, b: seq<HistoryDoc>, last: string)
    ensures HistoryTurns(a + b, last) == HistoryTurns(a, last) + HistoryTurns(b, last)
  {
    if b == [] {
      assert a + b == a;
    } else {
      assert (a + b)[..|a + b| - 1] == a + b[..|b| - 1];
      HistoryTurnsAppend(a, b[..|b| - 1], last);
    }
  }

  /** When no document repeats the message, every document becomes exactly one turn, in place. */
  lemma {:induction false} HistoryTurnsExact(past: seq<HistoryDoc>, last: string)
    requires forall i :: 0 <= i < |past| ==> past[i].text != last
    ensures |HistoryTurns(past, last)| == |past|
    ensures forall i :: 0 <= i < |past| ==>
              HistoryTurns(past, last)[i] == Turn(RoleOf(past[i].sender), past[i].text)
  {
    if past != [] {
      HistoryTurnsExact(past[..|past| - 1], last);
    }
  }

  /** A history made only of copies of the message contributes nothing. */
  lemma {:induction false} HistoryTurnsAllRepeats(past: seq<HistoryDoc>, last: string)
    requires forall i :: 0 <= i < |past| ==> past[i].text == last
    ensures HistoryTurns(past, last) == []
  {
    if past != [] {
      HistoryTurnsAllRepeats(past[..|past| - 1], last);
    }
  }

  const RoleHeader := "ИНСТРУКЦИЯ РОЛИ: "
  const Divider := "----------------\n"
  const InputHeader := "ВВОД ПОЛЬЗОВАТЕЛЯ: "

  /**
   * `forced_user_message`: the role instruction, a divider and the user's
   * input, with the context block and a line break in front when there is one.
   */
  function UserTurnContent(systemPrompt: string, context: string, last: string): (content: string)
    ensures EndsWith(content, InputHeader + last)
    ensures StartsWith(content, context + "\n") <==> context != ""
    ensures context == "" ==> StartsWith(content, RoleHeader + systemPrompt + "\n")
  {
    var forced := RoleHeader + systemPrompt + "\n" + Divider + InputHeader + last;
    assert forced[0] == 'И';
    assert forced[|forced| - |InputHeader + last|..] == InputHeader + last;
    var content := if context != "" then context + "\n" + forced else forced;
    assert content[|content| - |InputHeader + last|..] == InputHeader + last;
    content
  }

  /** The message list of `ask_ollama`. */
  function Messages(systemPrompt: string, context: string, history: Option<seq<HistoryDoc>>, last: string): seq<Turn> {
    [Turn(System, systemPrompt)] + HistoryTurns(Past(history), last)
      + [Turn(User, UserTurnContent(systemPrompt, context, last))]
  }

  /**
   * The list opens with the system prompt and closes with the user turn;
   * in between only user and assistant turns, none repeating the message;
   * with the history capped at four documents, at most six turns.
   */
  lemma MessagesShape(systemPrompt: string, context: string, history: Option<seq<HistoryDoc>>, last: string)
    ensures var m := Messages(systemPrompt, context, history, last);
      && 2 <= |m|
      && m[0] == Turn(System, systemPrompt)
      && m[|m| - 1] == Turn(User, UserTurnContent(systemPrompt, context, last))
      && (forall i :: 0 < i < |m| - 1 ==> m[i].role != System && m[i].content != last)
      && (history.Some? && |history.value| <= 4 ==> |m| <= 6)
  {
    var h := HistoryTurns(Past(history), last);
    var m := Messages(systemPrompt, context, history, last);
    assert forall i :: 0 < i < |m| - 1 ==> m[i] == h[i - 1];
  }

  /**
   * The history query lists the newest document first; in the message list
   * the documents appear oldest first, each as one turn with its mapped role.
   */
  lemma HistoryChronological(systemPrompt: string, context: string, h: seq<HistoryDoc>, last: string)
    requires forall i :: 0 <= i < |h| ==> h[i].text != last
    ensures |Messages(systemPrompt, context, Some(h), last)| == |h| + 2
    ensures forall i :: 0 <= i < |h| ==>
              Messages(systemPrompt, context, Some(h), last)[|h| - i] == Turn(RoleOf(h[i].sender), h[i].text)
  {
    HistoryTurnsExact(Reverse(h), last);
  }

  /** When the history query raises, the model sees only the system turn and the user turn. */
  lemma HistoryFailure(systemPrompt: string, context: string, last: string)
    ensures Messages(systemPrompt, context, None, last)
            == [Turn(System, systemPrompt), Turn(User, UserTurnContent(systemPrompt, context, last))]
  {
  }

  /** Building the list by appending turn after turn, as `ask_ollama` does. */
  method BuildMessages(systemPrompt: string, context: string, history: Option<seq<HistoryDoc>>, last: string)
    returns (turns: seq<Turn>)
    ensures turns == Messages(systemPrompt, context, history, last)
  {
    var past := Past(history);
    turns := [Turn(System, systemPrompt)];
    var i := 0;
    while i < |past|
      invariant 0 <= i <= |past|
      invariant turns == [Turn(System, systemPrompt)] + HistoryTurns(past[..i], last)
    {
      assert past[..i + 1][..i] == past[..i];
      if past[i].text != last {
        turns := turns + [Turn(RoleOf(past[i].sender), past[i].text)];
      }
      i := i + 1;
    }
    assert past[..i] == past;
    turns := turns + [Turn(User, UserTurnContent(systemPrompt, context, last))];
  }

  const Fallback := "Ошибка генерации ответа"

  /** The reply text: the chat model's `message.content`, or the fallback when the request or the decoding raised. */
  function ChatReply(response: Option<string>): (reply: string)
    ensures response.Some? ==> reply == response.value
    ensures response.None? ==> reply == Fallback
  {
    if response.Some? then response.value else Fallback
  }
}
