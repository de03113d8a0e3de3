/**
 * The message worker: `ask_ollama`, which ties the prompt cache, the tier,
 * the search and the message list together, and one iteration of the
 * polling loop of `main`, with its set of already handled message ids.
 */
module Worker {
  import opened Wrappers
  import opened Audio
  import opened Search
  import opened Prompt
  import opened PromptCache
  import opened Tier

  type MsgId = string

  /**
   * A user message as the poll query returns it. `createdAt` is its
   * `$createdAt` parsed to a UTC instant, None when parsing or comparing it
   * raises; `searchEnabled` is `search_enabled`, false when absent.
   */
  datatype MessageDoc = MessageDoc(id: MsgId, chatId: string, text: string, createdAt: Option<int>, searchEnabled: bool)

  /** The message document written for an answer. */
  datatype Reply = Reply(chatId: string, sender: string, text: string, isVoice: bool, audioFileId: Option<FileId>)

  /**
   * What the services outside the worker answer while one message is
   * handled: the clock around the settings read and that read, the chat and
   * profile lookups, the classifier, the search engine, the history query,
   * the chat model, speech synthesis with upload, and whether writing the
   * reply succeeds.
   */
  datatype Collaborators = Collaborators(
    now: real, finished: real, settings: Option<seq<Setting>>,
    store: Option<StoreView>,
    classifier: Option<string>,
    hits: Option<seq<Hit>>,
    history: Option<seq<HistoryDoc>>,
    chat: Option<string>,
    synthesis: Option<FileId>,
    written: bool)

  /** The tier's system prompt. */
  function SystemPrompt(p: Prompts, isPro: bool): string {
    if isPro then p.pro else p.lite
  }

  /** `user_forced_search or ai_decide_search(last_message)`. */
  function WantsSearch(forced: bool, w: Collaborators): bool {
    forced || DecideSearch(w.classifier)
  }

  /** The context block; the search runs only for a pro user who wants one. */
  function Context(isPro: bool, forced: bool, w: Collaborators): string {
    var wants := WantsSearch(forced, w);
    ContextData(isPro, wants, if isPro && wants then SearchOutcome(w.hits) else None)
  }

  /**
   * `ask_ollama`: refreshes the prompt cache, looks up the tier, consults
   * the classifier unless the user forced a search, searches for pro users
   * only, assembles the message list and returns the model's answer.
   * `classified` and `searched` say whether the classifier and the search
   * engine were called.
   */
  method AskOllama(cache: Cache, last: string, chatId: string, forced: bool, w: Collaborators)
    returns (reply: string, turns: seq<Turn>, classified: bool, searched: bool)
    modifies cache
    ensures cache.State() == Refreshed(old(cache.State()), w.now, w.settings, w.finished)
    ensures turns == Messages(SystemPrompt(cache.State(), GetUserStatus(w.store, chatId)),
                              Context(GetUserStatus(w.store, chatId), forced, w), w.history, last)
    ensures reply == ChatReply(w.chat)
    ensures classified <==> !forced
    ensures searched <==> GetUserStatus(w.store, chatId) && WantsSearch(forced, w)
  {
    var _ := cache.Refresh(w.now, w.settings, w.finished);
    var isPro := GetUserStatus(w.store, chatId);
    var context := "";
    var systemPrompt := "";
    var wants := forced;
    classified := false;
    if !forced {
      classified := true;
      wants := DecideSearch(w.classifier);
    }
    searched := false;
    if isPro {
      systemPrompt := cache.pro;
      if wants {
        searched := true;
        var found := SearchWeb(w.hits);
        if found.Some? && found.value != "" {
          context := SearchHeader + found.value + "\n";
        }
      }
    } else {
      systemPrompt := cache.lite;
      if wants {
        context := Refusal;
      }
    }
    turns := BuildMessages(systemPrompt, context, w.history, last);
    reply := ChatReply(w.chat);
  }

  /** The reply document for a dispatched message. */
  function ReplyFor(m: MessageDoc, w: Collaborators): Reply {
    var text := ChatReply(w.chat);
    Reply(m.chatId, "ai", text, true, GenerateVoice(text, w.synthesis))
  }

  /** Asking the model about a message and voicing its answer: the reply document `main` writes. */
  method Respond(cache: Cache, m: MessageDoc, w: Collaborators) returns (doc: Reply)
    modifies cache
    ensures cache.State() == Refreshed(old(cache.State()), w.now, w.settings, w.finished)
    ensures doc == ReplyFor(m, w)
  {
    var reply, turns, classified, searched := AskOllama(cache, m.text, m.chatId, m.searchEnabled, w);
    var audio := GenerateVoice(reply, w.synthesis);
    doc := Reply(m.chatId, "ai", reply, true, audio);
  }

  /**
   * Every reply goes to the message's chat as a voice message from the AI,
   * carrying an audio file exactly when the answer has something to say and
   * synthesis and upload succeed.
   */
  lemma ReplyForShape(m: MessageDoc, w: Collaborators)
    ensures var r := ReplyFor(m, w);
      && r.chatId == m.chatId && r.sender == "ai" && r.isVoice
      && (r.audioFileId.Some? <==> w.synthesis.Some? && exists i :: 0 <= i < |r.text| && IsVisible(r.text[i]))
      && (r.audioFileId.Some? ==> r.audioFileId == w.synthesis)
  {
    VoiceIffVisible(ChatReply(w.chat), w.synthesis);
  }

  /**
   * When the chat request fails, the reply still goes out: the fallback
   * text, voiced, to the message's chat. The fallback has letters, so its
   * audio is exactly what synthesis produced.
   */
  lemma GenerationFallback(m: MessageDoc, w: Collaborators)
    requires w.chat.None?
    ensures ReplyFor(m, w).text == Fallback && ReplyFor(m, w).isVoice && ReplyFor(m, w).chatId == m.chatId
    ensures ReplyFor(m, w).audioFileId == w.synthesis
  {
    assert IsVisible(Fallback[0]);
    VoiceIffVisible(Fallback, w.synthesis);
  }

  /** A message not older than the worker's start, with a readable timestamp. */
  predicate Current(m: MessageDoc, start: int) {
    m.createdAt.Some? && m.createdAt.value >= start
  }

  /**
   * The worker's state: the handled ids, the replies written, and (ghost in
   * the class) the messages dispatched to the model, in order.
   */
  datatype WorkerState = WorkerState(processed: set<MsgId>, outbox: seq<Reply>, dispatched: seq<MessageDoc>, prompts: Prompts)

  /** How a cycle ends: the new state, how many messages it examined, and whether a write raised. */
  datatype CycleEnd = CycleEnd(state: WorkerState, examined: nat, aborted: bool)

  /**
   * How the reply document is formed from a dispatched message and what the
   * services answered while it was handled. The worker's is `ReplyFor`; the
   * facts about cycles below hold whatever it is.
   */
  type Answerer = (MessageDoc, Collaborators) -> Reply

  /** Handling a new, current message: mark it, ask the model, write the reply if the write succeeds. */
  function Dispatch(st: WorkerState, m: MessageDoc, w: Collaborators, answer: Answerer): WorkerState {
    WorkerState(
      st.processed + {m.id},
      if w.written then st.outbox + [answer(m, w)] else st.outbox,
      st.dispatched + [m],
      Refreshed(st.prompts, w.now, w.settings, w.finished))
  }

  /** A message is answered when its id is new and it is current. */
  predicate Answers(st: WorkerState, start: int, m: MessageDoc) {
    m.id !in st.processed && Current(m, start)
  }

  /**
   * Examining one message: a seen id is skipped; an old or unreadable
   * message is marked and skipped; any other is dispatched.
   */
  function Step(st: WorkerState, start: int, m: MessageDoc, w: Collaborators, answer: Answerer): WorkerState {
    if m.id in st.processed then st
    else if !Current(m, start) then st.(processed := st.processed + {m.id})
    else Dispatch(st, m, w, answer)
  }

  /** What examining one message changes. */
  lemma StepEffect(st: WorkerState, start: int, m: MessageDoc, w: Collaborators, answer: Answerer)
    ensures var next := Step(st, start, m, w, answer);
      && next.processed == st.processed + {m.id}
      && next.dispatched == st.dispatched + (if Answers(st, start, m) then [m] else [])
      && next.outbox == st.outbox + (if Answers(st, start, m) && w.written then [answer(m, w)] else [])
  {
  }

  /**
   * One pass over the batch, message by message, ending early when the
   * reply to a dispatched message cannot be written.
   */
  function Cycle(st: WorkerState, start: int, batch: seq<MessageDoc>, world: MsgId -> Collaborators, answer: Answerer): CycleEnd
    decreases |batch|
  {
    if batch == [] then CycleEnd(st, 0, false)
    else
      var m := batch[0];
      var next := Step(st, start, m, world(m.id), answer);
      if Answers(st, start, m) && !world(m.id).written then CycleEnd(next, 1, true)
      else
        var e := Cycle(next, start, batch[1..], world, answer);
        CycleEnd(e.state, e.examined + 1, e.aborted)
  }

  function IdsOf(ms: seq<MessageDoc>): set<MsgId> {
    set i | 0 <= i < |ms| :: ms[i].id
  }

  lemma IdsOfCons(m: MessageDoc, ms: seq<MessageDoc>)
    ensures IdsOf([m] + ms) == {m.id} + IdsOf(ms)
  {
    var l := [m] + ms;
    forall x | x in IdsOf(l) ensures x in {m.id} + IdsOf(ms) {
      var i :| 0 <= i < |l| && l[i].id == x;
      if i > 0 {
        assert ms[i - 1].id == x;
      }
    }
    forall x | x in IdsOf(ms) ensures x in IdsOf(l) {
      var i :| 0 <= i < |ms| && ms[i].id == x;
      assert l[i + 1].id == x;
    }
    assert l[0].id == m.id;
  }

  /** The examined prefix of a non-empty batch is its head and then the examined prefix of the rest. */
  lemma PrefixCons(batch: seq<MessageDoc>, k: nat)
    requires batch != [] && k < |batch|
    ensures batch[..k + 1] == [batch[0]] + batch[1..][..k]
  {
  }

  /**
   * The examined messages are exactly the ones added to the seen set: the
   * set only grows, every examined id is in it afterwards, and a cycle
   * stops early only on a failed write.
   */
  lemma {:induction false} CycleMarks(st: WorkerState, start: int, batch: seq<MessageDoc>, world: MsgId -> Collaborators, answer: Answerer)
    ensures var e := Cycle(st, start, batch, world, answer);
      && e.examined <= |batch|
      && e.state.processed == st.processed + IdsOf(batch[..e.examined])
      && (!e.aborted ==> e.examined == |batch|)
      && (e.aborted ==> e.examined >= 1 && !world(batch[e.examined - 1].id).written)
    decreases |batch|
  {
    if batch == [] {
      assert batch[..0] == [];
    } else {
      var m := batch[0];
      var next := Step(st, start, m, world(m.id), answer);
      StepEffect(st, start, m, world(m.id), answer);
      if Answers(st, start, m) && !world(m.id).written {
        assert batch[..1] == [m];
        IdsOfCons(m, []);
      } else {
        CycleMarks(next, start, batch[1..], world, answer);
        var e := Cycle(next, start, batch[1..], world, answer);
        PrefixCons(batch, e.examined);
        IdsOfCons(m, batch[1..][..e.examined]);
      }
    }
  }

  /**
   * The invariant of the worker: every dispatched message is in the seen
   * set and was current, and no id was dispatched twice.
   */
  predicate Consistent(st: WorkerState, start: int) {
    && (forall i :: 0 <= i < |st.dispatched| ==> st.dispatched[i].id in st.processed && Current(st.dispatched[i], start))
    && (forall i, j :: 0 <= i < j < |st.dispatched| ==> st.dispatched[i].id != st.dispatched[j].id)
  }

  /** `Dispatch` with the worker's own reply former, its reply spelled out. */
  lemma DispatchReplyFor(st: WorkerState, m: MessageDoc, w: Collaborators)
    ensures var doc := ReplyFor(m, w);
      Dispatch(st, m, w, ReplyFor).outbox == if w.written then st.outbox + [doc] else st.outbox
  {
  }

  lemma DispatchConsistent(st: WorkerState, start: int, m: MessageDoc, w: Collaborators, answer: Answerer)
    requires Consistent(st, start) && Answers(st, start, m)
    ensures Consistent(Dispatch(st, m, w, answer), start)
  {
    var next := Dispatch(st, m, w, answer);
    assert forall i :: 0 <= i < |st.dispatched| ==> next.dispatched[i] == st.dispatched[i];
  }

  lemma StepConsistent(st: WorkerState, start: int, m: MessageDoc, w: Collaborators, answer: Answerer)
    requires Consistent(st, start)
    ensures Consistent(Step(st, start, m, w, answer), start)
  {
    var next := Step(st, start, m, w, answer);
    StepEffect(st, start, m, w, answer);
    assert forall i :: 0 <= i < |st.dispatched| ==> next.dispatched[i] == st.dispatched[i];
  }

  /** A cycle keeps the invariant, so across cycles no id is dispatched twice and no stale message at all. */
  lemma {:induction false} CycleConsistent(st: WorkerState, start: int, batch: seq<MessageDoc>, world: MsgId -> Collaborators, answer: Answerer)
    requires Consistent(st, start)
    ensures Consistent(Cycle(st, start, batch, world, answer).state, start)
    decreases |batch|
  {
    if batch != [] {
      var m := batch[0];
      StepConsistent(st, start, m, world(m.id), answer);
      if !(Answers(st, start, m) && !world(m.id).written) {
        CycleConsistent(Step(st, start, m, world(m.id), answer), start, batch[1..], world, answer);
      }
    }
  }

  /**
   * The messages a cycle dispatches, when the batch holds no id twice: the
   * examined ones that were neither seen before nor stale, in batch order.
   */
  function FreshMessages(seen: set<MsgId>, start: int, batch: seq<MessageDoc>): seq<MessageDoc> {
    if batch == [] then []
    else (if batch[0].id !in seen && Current(batch[0], start) then [batch[0]] else [])
         + FreshMessages(seen, start, batch[1..])
  }

  predicate DistinctIds(batch: seq<MessageDoc>) {
    forall i, j :: 0 <= i < j < |batch| ==> batch[i].id != batch[j].id
  }

  /** Marking an id the rest of the batch does not hold changes nothing about it. */
  lemma {:induction false} FreshMessagesIgnores(seen: set<MsgId>, x: MsgId, start: int, batch: seq<MessageDoc>)
    requires forall i :: 0 <= i < |batch| ==> batch[i].id != x
    ensures FreshMessages(seen + {x}, start, batch) == FreshMessages(seen, start, batch)
    decreases |batch|
  {
    if batch != [] {
      FreshMessagesIgnores(seen, x, start, batch[1..]);
    }
  }

  lemma DistinctTail(batch: seq<MessageDoc>)
    requires batch != [] && DistinctIds(batch)
    ensures DistinctIds(batch[1..])
    ensures forall i :: 0 <= i < |batch| - 1 ==> batch[1..][i].id != batch[0].id
  {
    assert forall i :: 0 <= i < |batch| - 1 ==> batch[1..][i] == batch[i + 1];
  }

  lemma FreshMessagesCons(seen: set<MsgId>, start: int, m: MessageDoc, rest: seq<MessageDoc>)
    ensures FreshMessages(seen, start, [m] + rest)
         == (if m.id !in seen && Current(m, start) then [m] else []) + FreshMessages(seen, start, rest)
  {
    assert ([m] + rest)[1..] == rest;
  }

  /** The step of `CycleDispatches`: a message in front of a batch whose ids differ from its own. */
  lemma DispatchedCons(before: seq<MessageDoc>, seen: set<MsgId>, start: int, m: MessageDoc, tail: seq<MessageDoc>, k: nat, after: seq<MessageDoc>)
    requires k <= |tail|
    requires forall i :: 0 <= i < |tail| ==> tail[i].id != m.id
    requires after == before + (if m.id !in seen && Current(m, start) then [m] else [])
                      + FreshMessages(seen + {m.id}, start, tail[..k])
    ensures after == before + FreshMessages(seen, start, ([m] + tail)[..k + 1])
  {
    var restPart := tail[..k];
    assert ([m] + tail)[..k + 1] == [m] + restPart;
    assert forall i :: 0 <= i < |restPart| ==> restPart[i] == tail[i];
    FreshMessagesIgnores(seen, m.id, start, restPart);
    FreshMessagesCons(seen, start, m, restPart);
  }

  /** The dispatched messages of one cycle are exactly the fresh ones among those it examined. */
  lemma {:induction false} CycleDispatches(st: WorkerState, start: int, batch: seq<MessageDoc>, world: MsgId -> Collaborators, answer: Answerer)
    requires DistinctIds(batch)
    ensures var e := Cycle(st, start, batch, world, answer);
      e.examined <= |batch|
      && e.state.dispatched == st.dispatched + FreshMessages(st.processed, start, batch[..e.examined])
    decreases |batch|
  {
    if batch == [] {
      assert batch[..0] == [];
    } else {
      var m := batch[0];
      var w := world(m.id);
      var next := Step(st, start, m, w, answer);
      StepEffect(st, start, m, w, answer);
      if Answers(st, start, m) && !w.written {
        assert batch[..1] == [m] + [];
        FreshMessagesCons(st.processed, start, m, []);
      } else {
        var tail := batch[1..];
        DistinctTail(batch);
        CycleDispatches(next, start, tail, world, answer);
        var e := Cycle(next, start, tail, world, answer);
        assert Cycle(st, start, batch, world, answer) == CycleEnd(e.state, e.examined + 1, e.aborted);
        assert batch == [m] + tail;
        DispatchedCons(st.dispatched, st.processed, start, m, tail, e.examined, e.state.dispatched);
      }
    }
  }

  /**
   * The replies a cycle writes: one per dispatched message whose write
   * succeeded, in the order of dispatch.
   */
  function RepliesFor(ms: seq<MessageDoc>, world: MsgId -> Collaborators, answer: Answerer): (rs: seq<Reply>)
    ensures |rs| == |ms| && forall i :: 0 <= i < |ms| ==> rs[i] == answer(ms[i], world(ms[i].id))
  {
    seq(|ms|, i requires 0 <= i < |ms| => answer(ms[i], world(ms[i].id)))
  }

  /** Every message of the list had its reply written. */
  predicate AllWritten(ms: seq<MessageDoc>, world: MsgId -> Collaborators) {
    forall i :: 0 <= i < |ms| ==> world(ms[i].id).written
  }

  /**
   * One reply per answered dispatch: the outbox grows by the replies to the
   * dispatched messages, in order, except that when the cycle aborts its
   * last dispatched message is the one whose write failed and has none.
   */
  lemma {:induction false} CycleReplies(st: WorkerState, start: int, batch: seq<MessageDoc>, world: MsgId -> Collaborators, answer: Answerer)
    ensures var e := Cycle(st, start, batch, world, answer);
      && (e.aborted ==> CycleNew(st, e) != [] && !world(Last(CycleNew(st, e)).id).written)
      && e.state.outbox == st.outbox + RepliesFor(Answered(st, e), world, answer)
      && AllWritten(Answered(st, e), world)
    decreases |batch|
  {
    CycleExtends(st, start, batch, world, answer);
    if batch != [] {
      var m := batch[0];
      var w := world(m.id);
      var next := Step(st, start, m, w, answer);
      StepEffect(st, start, m, w, answer);
      if Answers(st, start, m) && !w.written {
        assert CycleNew(st, CycleEnd(next, 1, true)) == [m];
      } else {
        CycleReplies(next, start, batch[1..], world, answer);
        var e := Cycle(next, start, batch[1..], world, answer);
        CycleExtends(next, start, batch[1..], world, answer);
        assert Cycle(st, start, batch, world, answer) == CycleEnd(e.state, e.examined + 1, e.aborted);
        if Answers(st, start, m) {
          AnsweredCons(st, next, e, m);
          OutboxCons(st.outbox, m, Answered(next, e), e.state.outbox, world, answer);
          AllWrittenCons(m, Answered(next, e), world);
        } else {
          assert CycleNew(st, e) == CycleNew(next, e);
        }
      }
    }
  }

  /** The step of `CycleReplies` on the outbox: a written reply in front of the replies of the rest. */
  lemma OutboxCons(before: seq<Reply>, m: MessageDoc, rest: seq<MessageDoc>, after: seq<Reply>, world: MsgId -> Collaborators, answer: Answerer)
    requires after == before + [answer(m, world(m.id))] + RepliesFor(rest, world, answer)
    ensures after == before + RepliesFor([m] + rest, world, answer)
  {
    RepliesForCons(m, rest, world, answer);
    var r := answer(m, world(m.id));
    assert before + [r] + RepliesFor(rest, world, answer) == before + ([r] + RepliesFor(rest, world, answer));
  }

  /** A dispatch in front of the rest of a cycle puts its message in front of what the rest dispatches and answers. */
  lemma AnsweredCons(st: WorkerState, next: WorkerState, e: CycleEnd, m: MessageDoc)
    requires next.dispatched == st.dispatched + [m]
    requires |next.dispatched| <= |e.state.dispatched|
    requires e.state.dispatched == next.dispatched + e.state.dispatched[|next.dispatched|..]
    requires e.aborted ==> CycleNew(next, e) != []
    ensures CycleNew(st, e) == [m] + CycleNew(next, e)
    ensures e.aborted ==> Last(CycleNew(st, e)) == Last(CycleNew(next, e))
    ensures Answered(st, e) == [m] + Answered(next, e)
  {
    var rest := CycleNew(next, e);
    assert CycleNew(st, e) == [m] + rest;
    if e.aborted {
      DropLastCons(m, rest);
    }
  }

  lemma DropLastCons(m: MessageDoc, rest: seq<MessageDoc>)
    requires rest != []
    ensures Last([m] + rest) == Last(rest)
    ensures ([m] + rest)[..|rest|] == [m] + rest[..|rest| - 1]
  {
  }

  lemma RepliesForCons(m: MessageDoc, ms: seq<MessageDoc>, world: MsgId -> Collaborators, answer: Answerer)
    ensures RepliesFor([m] + ms, world, answer) == [answer(m, world(m.id))] + RepliesFor(ms, world, answer)
  {
    var all := [m] + ms;
    var lhs := RepliesFor(all, world, answer);
    var rhs := [answer(m, world(m.id))] + RepliesFor(ms, world, answer);
    forall i | 0 <= i < |lhs|
      ensures lhs[i] == rhs[i]
    {
      if i > 0 {
        assert all[i] == ms[i - 1];
      }
    }
  }

  lemma AllWrittenCons(m: MessageDoc, ms: seq<MessageDoc>, world: MsgId -> Collaborators)
    ensures AllWritten([m] + ms, world) <==> world(m.id).written && AllWritten(ms, world)
  {
    var all := [m] + ms;
    assert all[0] == m;
    assert forall i :: 0 <= i < |ms| ==> all[i + 1] == ms[i];
    if world(m.id).written && AllWritten(ms, world) {
      forall i | 0 <= i < |all|
        ensures world(all[i].id).written
      {
        if i > 0 {
          assert all[i] == ms[i - 1];
        }
      }
    }
  }

  function Last(ms: seq<MessageDoc>): MessageDoc
    requires ms != []
  {
    ms[|ms| - 1]
  }

  /** The dispatched messages whose reply was written: all of them, but the last when the cycle aborted. */
  function Answered(st: WorkerState, e: CycleEnd): seq<MessageDoc> {
    var added := CycleNew(st, e);
    if e.aborted && added != [] then added[..|added| - 1] else added
  }

  /** The messages a cycle dispatched, past those dispatched before it. */
  function CycleNew(st: WorkerState, e: CycleEnd): seq<MessageDoc> {
    if |st.dispatched| <= |e.state.dispatched| then e.state.dispatched[|st.dispatched|..] else []
  }

  /** A cycle only appends to the dispatched list. */
  lemma {:induction false} CycleExtends(st: WorkerState, start: int, batch: seq<MessageDoc>, world: MsgId -> Collaborators, answer: Answerer)
    ensures var d := Cycle(st, start, batch, world, answer).state.dispatched;
      |st.dispatched| <= |d| && d == st.dispatched + d[|st.dispatched|..]
    decreases |batch|
  {
    if batch != [] {
      var m := batch[0];
      StepEffect(st, start, m, world(m.id), answer);
      if !(Answers(st, start, m) && !world(m.id).written) {
        CycleExtends(Step(st, start, m, world(m.id), answer), start, batch[1..], world, answer);
      }
    }
  }

  /** Ids the preload query returns; none when it raised. */
  function Preloaded(ids: Option<seq<MsgId>>): set<MsgId> {
    if ids.None? then {} else set i | 0 <= i < |ids.value| :: ids.value[i]
  }

  /** The worker process: its start instant, the prompt cache and the seen set, and what it has written. */
  class Worker {
    const startTime: int
    const cache: Cache
    var processed: set<MsgId>
    var outbox: seq<Reply>
    ghost var dispatched: seq<MessageDoc>

    ghost function State(): WorkerState
      reads this, cache
    {
      WorkerState(processed, outbox, dispatched, cache.State())
    }

    ghost predicate Valid()
      reads this, cache
    {
      Consistent(State(), startTime)
    }

    /**
     * The start of `main`: record the start instant, refresh the prompts
     * once, and mark the ids of the preload query as seen.
     */
    constructor(start: int, now: real, settings: Option<seq<Setting>>, finished: real, preload: Option<seq<MsgId>>)
      ensures Valid() && fresh(cache)
      ensures startTime == start
      ensures cache.State() == Refreshed(Prompts(DefaultLite, DefaultPro, 0.0), now, settings, finished)
      ensures processed == Preloaded(preload) && outbox == [] && dispatched == []
    {
      startTime := start;
      var c := new Cache();
      var _ := c.Refresh(now, settings, finished);
      cache := c;
      processed := {};
      outbox := [];
      dispatched := [];
      new;
      Preload(preload);
    }

    /** The preload loop: every listed id is marked seen; a failed listing marks nothing. */
    method Preload(ids: Option<seq<MsgId>>)
      modifies this
      ensures processed == old(processed) + Preloaded(ids)
      ensures outbox == old(outbox) && dispatched == old(dispatched)
    {
      if ids.None? {
        return;
      }
      var list := ids.value;
      var i := 0;
      while i < |list|
        invariant 0 <= i <= |list|
        invariant processed == old(processed) + set j | 0 <= j < i :: list[j]
        invariant outbox == old(outbox) && dispatched == old(dispatched)
      {
        processed := processed + {list[i]};
        i := i + 1;
      }
    }

    /**
     * Handling a new, current message: it is marked seen before the model is
     * asked, then the answer is voiced and the reply written; a write that
     * raises leaves the outbox as it was.
     */
    method Answer(m: MessageDoc, w: Collaborators)
      requires Valid() && Answers(State(), startTime, m)
      modifies this, cache
      ensures Valid()
      ensures State() == Dispatch(old(State()), m, w, ReplyFor)
    {
      ghost var before := State();
      ghost var after := Dispatch(before, m, w, ReplyFor);
      DispatchConsistent(before, startTime, m, w, ReplyFor);
      processed := processed + {m.id};
      dispatched := dispatched + [m];
      DispatchReplyFor(before, m, w);
      var doc := Respond(cache, m, w);
      if w.written {
        outbox := outbox + [doc];
      }
    }

    /**
     * One iteration of the polling loop over the batch the poll query
     * returned (None when it raised). `world` gives, for each message id,
     * what the services answer while that message is handled.
     */
    method PollCycle(batch: Option<seq<MessageDoc>>, world: MsgId -> Collaborators) returns (examined: nat, aborted: bool)
      requires Valid()
      modifies this, cache
      ensures Valid()
      ensures batch.None? ==> State() == old(State()) && examined == 0 && aborted
      ensures batch.Some? ==>
        var e := Cycle(old(State()), startTime, batch.value, world, ReplyFor);
        State() == e.state && examined == e.examined && aborted == e.aborted
    {
      if batch.None? {
        return 0, true;
      }
      var msgs := batch.value;
      ghost var st0 := State();
      var i := 0;
      while i < |msgs|
        invariant 0 <= i <= |msgs|
        invariant Valid()
        invariant var e := Cycle(State(), startTime, msgs[i..], world, ReplyFor);
          Cycle(st0, startTime, msgs, world, ReplyFor) == CycleEnd(e.state, e.examined + i, e.aborted)
      {
        var m := msgs[i];
        assert msgs[i..][1..] == msgs[i + 1..];
        if m.id in processed {
          i := i + 1;
          continue;
        }
        if m.createdAt.None? || m.createdAt.value < startTime {
          processed := processed + {m.id};
          i := i + 1;
          continue;
        }
        var w := world(m.id);
        Answer(m, w);
        if !w.written {
          return i + 1, true;
        }
        i := i + 1;
      }
      assert msgs[i..] == [];
      return i, false;
    }
  }

  /** Two consecutive cycles never dispatch the same id, nor one dispatched before them. */
  lemma TwoCyclesDisjoint(st: WorkerState, start: int, b1: seq<MessageDoc>, b2: seq<MessageDoc>,
                          w1: MsgId -> Collaborators, w2: MsgId -> Collaborators, answer: Answerer)
    requires Consistent(st, start)
    ensures var e1 := Cycle(st, start, b1, w1, answer).state;
      var e2 := Cycle(e1, start, b2, w2, answer).state;
      && |e1.dispatched| <= |e2.dispatched|
      && forall i, j :: 0 <= i < |e1.dispatched| <= j < |e2.dispatched| ==> e1.dispatched[i].id != e2.dispatched[j].id
  {
    var e1 := Cycle(st, start, b1, w1, answer).state;
    var e2 := Cycle(e1, start, b2, w2, answer).state;
    CycleConsistent(st, start, b1, w1, answer);
    CycleConsistent(e1, start, b2, w2, answer);
    CycleExtends(e1, start, b2, w2, answer);
    assert forall i :: 0 <= i < |e1.dispatched| ==> e2.dispatched[i] == e1.dispatched[i];
  }
}
