# Voice assistant worker and payment webhook, modelled in Dafny

This project models the decision logic of two services of a voice-chat
assistant and proves properties of it.

**The message worker** (`services/messages/main.py`) polls the messages
collection and answers each new user message:

- it asks a local chat model, with a system prompt that depends on the
  user's tier;
- pro users may get web-search results in front of the message; lite users
  who ask for a search get a polite refusal instead;
- the answer is turned into speech and written back as a reply document.

**The payment service** (`services/payments/main.py`):

- builds an order id `SUB-<user id>-<timestamp>` for a payment link;
- receives the provider's webhook, reads the user id back from that order
  id, and upgrades that user's profile to pro (or creates a pro profile
  when the user has none).

## Modules

- `Text`: the Python string operations the code relies on, with their
  shapes proved as lemmas. These are `strip`, `upper`, `in`, `startswith`,
  `split`, `str(int)`, and filtering characters out of a string.
- `Audio`: `clean_text_for_audio`, and the empty and failure paths of
  `generate_voice`.
- `Search`: the `ai_decide_search` token test, the text `search_web`
  builds, and the tier-gated `context_data` block.
- `Prompt`: the message list `ask_ollama` sends. This is the system turn,
  the reversed and filtered history, and the final user turn.
- `PromptCache`: `update_prompts_cache` and its 60-second window. It is a
  pure transition `Refreshed`, plus a class `Cache` holding the three module
  globals.
- `Profiles` and `Tier`: the shared profiles collection, its
  "first profile of this user" query, and `get_user_status`.
- `Worker`: `ask_ollama`, and one iteration of `main`'s polling loop over
  the set of handled ids.
  - `Cycle` is the specification function for one iteration.
  - The class `Worker.Worker` does the same work in place.
  - The ids the worker has handled are `processed`. The ghost list
    `dispatched` records the messages answered so far, so that facts about
    dispatch can be stated.
- `Payments`: the status filter, the order id, its parsing, and the
  upgrade-or-create step. The pure functions come first, then a class
  `ProfileStore` whose `Webhook` method changes the profiles in place.

## How outside services are modelled

Every outside service becomes an input:

- the database, the search engine, the chat model, speech synthesis with
  the storage upload, and the clock;
- each value is `None` or `false` where the call raises.

While one message is handled, the worker sees a `Collaborators` record
(`Worker.Collaborators`). A poll cycle gets a function `world` from message
ids to such records.

The facts about cycles are proved for any reply former `answer`. The class
uses the concrete one, `Worker.ReplyFor`.

## Model

| member | source | states |
|---|---|---|
| Audio.CollapseWhitespace | services/messages/main.py:104 | collapsing whitespace runs never lengthens the text, empties only the empty text, and keeps whether the text starts with whitespace |
| Audio.CollapseShape | services/messages/main.py:104 | after `re.sub(r'\s+', ' ', …)` every whitespace character is a plain space, no two are adjacent, and no character outside the allowed set is introduced |
| Audio.CollapseSingleSpaced | services/messages/main.py:104 | a text that is already single-spaced is left unchanged by the collapsing step |
| Audio.CollapseKeepsContent | services/messages/main.py:104 | collapsing keeps every non-whitespace character, in order |
| Audio.StripKeepsContent | services/messages/main.py:104 | `strip()` keeps every non-whitespace character, in order |
| Audio.TrimLeftKeepsContent | services/messages/main.py:104 | `lstrip()` keeps every non-whitespace character, in order |
| Audio.CleanShape | services/messages/main.py:101-104 | the sanitised text has no `*`, `#` or backtick. It holds only word characters, the punctuation `,!.?:-` and plain spaces, never two spaces in a row, and no space at either end |
| Audio.CleanKeepsVisible | services/messages/main.py:101-104 | with spaces set aside, the sanitised text is exactly the input's word characters and kept punctuation, in their original order |
| Audio.CleanIdempotent | services/messages/main.py:101-104 | sanitising twice gives the same text as sanitising once |
| Audio.CleanEmptyIff | services/messages/main.py:101-104 | the sanitised text is empty exactly when the input has no word character and no kept punctuation |
| Audio.CleanExample | services/messages/main.py:101-104 | `Hello* #world` followed by a backtick and ` 123!` sanitises to `Hello world 123!` |
| Audio.GenerateVoice | services/messages/main.py:106-124 | a file id comes back exactly when the sanitised text is non-empty and synthesis with upload succeeded, and it is the uploaded file's id |
| Audio.VoiceIffVisible | services/messages/main.py:109-110 | a file id comes back exactly when synthesis succeeded and the text has a word character or kept punctuation |
| Search.DecideSearchIff | services/messages/main.py:92-99 | the classifier asks for a search exactly when it answered and its upper-cased answer contains `SEARCH` anywhere; stripping does not matter, and a failed request is no |
| Search.StripIrrelevant | services/messages/main.py:98 | `strip()` never changes whether the upper-cased answer contains `SEARCH` |
| Search.NoLetterNoSearch | services/messages/main.py:98 | an answer with no character upper-casing to `S` never triggers a search |
| Search.ResearchCounts | services/messages/main.py:98 | the test is a substring test: the answer `research` triggers a search |
| Search.TalkDoesNotCount | services/messages/main.py:98 | the answer `TALK` does not trigger a search |
| Search.SearchWeb | services/messages/main.py:79-90 | the loop builds `SearchOutcome`: None when the engine raised, found nothing, or a hit lacked its body; otherwise one `- body` line per hit, in order |
| Search.SearchOutcomeFound | services/messages/main.py:84-87 | a successful search gives non-empty text that contains every hit's bullet line |
| Search.FormatResultsAppend | services/messages/main.py:85-86 | the accumulated text for two runs of hits is the text of the first run followed by the text of the second |
| Search.LiteContext | services/messages/main.py:139-142 | a lite user's context never depends on a search result; it is the refusal exactly when a search was wanted, and empty otherwise |
| Search.ProContext | services/messages/main.py:133-138 | a pro user's context is empty exactly when no search was wanted or it found nothing; otherwise it starts with the search header and contains the found text |
| Prompt.RoleOf | services/messages/main.py:155 | a history document never becomes a system turn; it becomes a user turn exactly when its sender is `user` |
| Prompt.HistoryTurns | services/messages/main.py:153-156 | at most one turn per document; no history turn is a system turn or repeats the message being answered |
| Prompt.HistoryTurnsAppend | services/messages/main.py:153-156 | the history turns of two stretches of history are those of the first, then those of the second |
| Prompt.HistoryTurnsExact | services/messages/main.py:153-156 | when no document repeats the message, each document becomes exactly one turn, in place, with its mapped role |
| Prompt.HistoryTurnsAllRepeats | services/messages/main.py:154 | a history made only of copies of the message contributes no turn |
| Prompt.UserTurnContent | services/messages/main.py:158-165 | the final user turn ends with the input header and the message. It starts with the context and a line break exactly when there is a context, and otherwise starts with the role instruction |
| Prompt.MessagesShape | services/messages/main.py:145-167 | the list opens with the system prompt and closes with the user turn. In between there are only user and assistant turns, none repeating the message. With at most four history documents, the list has at most six turns |
| Prompt.HistoryChronological | services/messages/main.py:144-156 | the newest-first history comes out oldest first: with no document repeating the message, the list has two more turns than documents, and document `i` of the query is turn `n-i`, with its mapped role and text |
| Prompt.HistoryFailure | services/messages/main.py:149 | when the history query raises, the model gets only the system turn and the user turn |
| Prompt.BuildMessages | services/messages/main.py:151-167 | appending turn after turn builds exactly the list `Messages` describes |
| PromptCache.LatestIsLastMatch | services/messages/main.py:57-61 | the last settings document with a key decides that prompt |
| PromptCache.LatestNoMatch | services/messages/main.py:57-61 | documents with other keys leave a prompt as it was |
| PromptCache.RefreshedWithinInterval | services/messages/main.py:52-53 | within 60 seconds of the last refresh nothing changes |
| PromptCache.RefreshedOnFailure | services/messages/main.py:64-65 | a listing that raises changes neither prompt nor the refresh time |
| PromptCache.RefreshedOnSuccess | services/messages/main.py:55-63 | a successful refresh records the finishing clock reading. Each prompt becomes the value of the last document with its key, or is kept when there is none |
| PromptCache.RefreshedSettles | services/messages/main.py:52-63 | a call within a minute after a successful refresh is a no-op |
| PromptCache.Cache.constructor | services/messages/main.py:45-47 | the cache starts with the built-in prompts and a refresh time of 0 |
| PromptCache.Cache.Refresh | services/messages/main.py:49-65 | the settings are read exactly when 60 seconds have passed; the new globals are `Refreshed` of the old ones |
| Profiles.FirstMatch | services/payments/main.py:127-133 | the position of the user's first profile in listing order, or None exactly when the user has no profile |
| Profiles.FirstMatchAt | services/payments/main.py:132-133 | a profile of the user with no earlier one of the same user is the first match |
| Profiles.FirstMatchSameIds | services/payments/main.py:127-133 | two profile lists with the same user ids in the same places have the same first matches |
| Tier.GetUserStatusIff | services/messages/main.py:67-77 | pro exactly when the store answered, the chat names its owner, and the owner's first profile is pro; every failure counts as lite |
| Payments.StatusAcceptedIff | services/payments/main.py:111-114 | `str(status)` passes exactly for the integer 1 and the strings `1`, `success` and `paid` |
| Payments.SelectOrderId | services/payments/main.py:110 | the order id is `extid` when it is truthy, and `order_id` otherwise |
| Payments.PrefixedHasSecondField | services/payments/main.py:117-119 | an id starting with `SUB-` always splits into at least two fields, the first being `SUB` |
| Payments.ParsedUserIdShape | services/payments/main.py:116-122 | a user id read from an order id is never empty and never holds a `-` |
| Payments.ParseFields | services/payments/main.py:116-120 | `SUB-<user>-<more>` with no `-` in the user part parses to that user |
| Payments.ParseRoundTrip | services/payments/main.py:51 | the webhook reads back the user id the payment link was made for, for every timestamp, when the id has no `-` |
| Payments.ParseTruncatesHyphenated | services/payments/main.py:118-120 | a user id holding a `-` is read back cut at its first `-` |
| Payments.ParseRejects | services/payments/main.py:116-124 | a missing or empty id, an id without the prefix, and an empty user field all give no user |
| Payments.UpgradeTransition | services/payments/main.py:132-141 | a first profile that is not pro gets `is_pro` and nothing else changes. One that is pro is left alone. A user without a profile gets exactly one new pro profile at the end, named `Неизвестный` |
| Payments.UpgradeGrantsPro | services/payments/main.py:132-141 | afterwards the user's first profile is pro |
| Payments.UpgradeLeavesOthers | services/payments/main.py:132-141 | no other user's profile changes, and no other user's first match moves |
| Payments.UpgradeIdempotent | services/payments/main.py:132-141 | upgrading twice is upgrading once |
| Payments.RejectedStatus | services/payments/main.py:113-114 | an unaccepted status is answered OK and changes nothing |
| Payments.PaidLinkUpgrades | services/payments/main.py:51-143 | for a user id that is non-empty and holds no `-`, a webhook with an accepted status for that user's link answers OK while the store is up, and upgrades exactly that user |
| Payments.WebhookIdempotent | services/payments/main.py:126-143 | a repeated webhook changes nothing more, whether or not the store is up the second time |
| Payments.UpgradedChatsArePro | services/payments/main.py:132-141 | after the upgrade, every chat of the paying user is served at the pro tier |
| Payments.ProfileStore.Webhook | services/payments/main.py:110-147 | the response and the new profiles are those of `WebhookResponse` and `WebhookEffect` |
| Worker.AskOllama | services/messages/main.py:126-173 | see below |
| Worker.Respond | services/messages/main.py:215-218 | the reply document is the model's answer, voiced, addressed to the message's chat |
| Worker.ReplyForShape | services/messages/main.py:218-223 | every reply goes to the message's chat as a voice message from `ai`. It has an audio file exactly when synthesis succeeded and the answer has a word character or kept punctuation |
| Worker.GenerationFallback | services/messages/main.py:169-173 | when the chat request raises, the reply still goes to the message's chat as a voice message carrying the fallback text. Its audio is exactly the synthesis outcome |
| Worker.StepEffect | services/messages/main.py:196-212 | examining a message always marks its id. It is dispatched exactly when it is new and current, and it gets a reply exactly when it is also written |
| Worker.CycleMarks | services/messages/main.py:195-212 | see below |
| Worker.CycleConsistent | services/messages/main.py:198-212 | a cycle keeps the invariant: every dispatched message is marked and current, and no id is dispatched twice |
| Worker.CycleDispatches | services/messages/main.py:195-215 | for a batch without repeated ids, the messages dispatched are exactly the examined ones that were not seen and not old, in batch order |
| Worker.CycleReplies | services/messages/main.py:211-228 | see below |
| Worker.CycleExtends | services/messages/main.py:195-215 | a cycle only appends to the dispatched list |
| Worker.TwoCyclesDisjoint | services/messages/main.py:188-212 | across two consecutive cycles no id is dispatched twice |
| Worker.Worker.constructor | services/messages/main.py:178-186 | see below |
| Worker.Worker.Preload | services/messages/main.py:182-186 | every id of the preload query is marked seen; a failed query marks nothing |
| Worker.Worker.Answer | services/messages/main.py:211-223 | handling a new, current message is `Dispatch` of the old state, and the invariant is kept |
| Worker.Worker.PollCycle | services/messages/main.py:189-228 | see below |

Some rows are too long for the table:

- **Worker.AskOllama.** It refreshes the cache. The classifier is asked
  exactly when the user did not force a search. The search runs exactly
  for a pro user who wants one. The list sent is `Messages` of the tier's
  prompt and context, and the reply is the model's answer or the fallback.
- **Worker.CycleMarks.** The seen set is the old set plus exactly the
  examined ids. A cycle examines the whole batch unless a reply write
  raises, and then it stops right after that message.
- **Worker.CycleReplies.** The outbox grows by one reply per dispatched
  message, in order. The exception is the last message of an aborted
  cycle, whose write raised.
- **Worker.Worker.constructor.** At start-up the prompts are refreshed
  once, and the preloaded ids are seen. Nothing is yet dispatched or
  written.
- **Worker.Worker.PollCycle.** The worker's new state, the count examined
  and the abort flag are those of `Cycle`. A poll that raised changes
  nothing, and the invariant is kept.

## Left out

- Printing and logging, `time.sleep`, and the endless `while True` are not
  modelled. `PollCycle` is one iteration. Clocks are parameters: the prompt
  cache's seconds are reals, and message timestamps are already-parsed
  integers.
- Speech synthesis (`edge_tts`), the temporary mp3 file and its removal, and
  the storage upload are one input, `synthesis`. It is the file id, or None
  when synthesis, upload or the first removal raised.
- Audio.GenerateVoice: an `os.remove` that raises inside the error handler
  (services/messages/main.py:123) is not modelled. That exception escapes
  `generate_voice` and ends the cycle. The message is already marked seen
  (line 212) and its reply is never written (line 220), whereas
  `Worker.ReplyFor` always forms a reply, with no audio.
- The HTTP requests to the chat model and the classifier, the search
  engine, and Appwrite are not modelled. Each call's outcome is an input.
  The request bodies (model name, temperature, `max_results=2`, the
  history query's chat filter, ordering and limit of 4) are not modelled.
  The history limit appears only as a hypothesis of `Prompt.MessagesShape`.
- The model's answer does not depend on the turns in the model. It is an
  input, like the classifier's answer.
- Text.IsWordChar: `\w` and `\s` are modelled for ASCII, the Russian
  alphabet and Python's whitespace set. Other Unicode letters and digits,
  which Python's `\w` also matches, count as removed.
- Text.Upper: upper-casing covers ASCII and the Russian alphabet only.
  Special cases such as `ß` becoming `SS` are not modelled.
- PromptCache.Refreshed: settings documents are assumed to have both `key`
  and `value`. A document without them would make the loop raise midway,
  after some prompts were already replaced.
- Tier.GetUserStatus: `is_pro` is a boolean, with a missing field read as
  false. A stored `null` or string value is not modelled.
- Worker.PollCycle: messages are assumed to carry `text` and `chat_id`.
  History documents are assumed to carry `text` and `sender`, which lines
  154-155 read outside any `try`. A missing field would
  raise and end the cycle, and this is not modelled.
- Payments: the payment-link request to the provider is not modelled. Its
  SHA-1 request token (`generate_x_token`), the float-to-int amount, and the provider's
  response handling are left out; only the `extid` it builds is modelled.
  The timestamp is whole seconds (`int(time.time())`). FastAPI's request
  decoding (query string, JSON, form) is left out: the webhook starts from
  the decoded `extid`, `order_id` and `status`.
- Payments.Json: payload values are scalars: null, booleans, integers and
  strings. Float statuses (`str(1.0)` is `1.0`, which is rejected), lists
  and dictionaries are not modelled.
- Payments.ParseRoundTrip holds only for user ids without `-`.
  `Payments.ParseTruncatesHyphenated` states what happens otherwise.
