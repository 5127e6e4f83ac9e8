# qqbot message aggregation core, modelled in Dafny

This project models the part of the qqbot group-chat bot that decides when and how the bot
answers a group. The bot is a OneBot v11 client.

- **Aggregator** (`aggregator.dfy`). The per-group message aggregator is a class. It holds a
  table from group id to the group's current response block, the set of groups that own a lock,
  and a counter that names asynchronous tasks.
  - Every incoming message lands in the group's open block. A block that is being processed is
    replaced by a fresh one and is never appended to.
  - Each message cancels the block's wait timer and supersedes its wait-time judgment.
  - When the judgment answers, a wait timer starts with a delay taken from the answer.
  - When the timer fires, a non-empty block is closed and handed to the reply callback.
  - Afterwards exactly that block is cleared.
  - The two asynchronous events are explicit methods, `JudgeAnswered` and `TimerFired`. The
    cleanup after the callback is `FinishProcessing`.
  - The class invariant `Valid` says:
    - no block has a pending timer and a pending judgment at once;
    - a processing block is one whose finalization is running;
    - such a block is non-empty.
- **Judges** (`block_judge.dfy`, `message_judge.dfy`). Both the block judge and the older
  single-message judge decode the language model's answer. Decoding slices from the first `{`
  to the last `}` (`json.dfy`). The decoded record is filled with the source's defaults, and
  every failure becomes a conservative "do not reply" result. A successful judgment applies the
  silence transition.
- **Silence register** (`silence_mode.dfy`). The per-group silence register is a class over a
  map whose default is "not silent".
- **Segment folds** (`group_chat.dfy`, `event_handlers.dfy`, `onebot.dfy`). These are the two
  folds over OneBot message segments. One is the chat plugin's content and mention flag, with
  its skip rules. The other is the storage plugin's content and message type, with its
  media-stops-the-scan rule and its fallbacks.
- **Reply callback** (`group_chat.dfy`). The callback's early exits, its sender-name
  resolution, and the per-reply judgments it hands to the reply generator.
- **Context rendering** (`context.dfy`). One line per non-recalled stored message. Display-name
  precedence. The replacement of `[CQ:at,qq=N]` codes by `@name`, proved equal to a
  single-pass substitution of every code.
- **Helper modules.** `text.dfy` holds the Python string built-ins the code relies on (`strip`,
  `in`, `join`, `replace`, `str(int)`). `wrappers.dfy` holds `Option` and `Result`.

Database lookups, the language-model call, `json.loads` and `float()` are parameters of the
model: `members`/`users` lookups, an `OracleReply`, `decode` and `toFloat`.

After the reply callback, `message_aggregator.py:381-393` clears the processed block but never
removes the group's entry from the table; `MessageAggregator.FinishProcessing` leaves the table
unchanged.

## Model

| member | source | states |
|---|---|---|
| Aggregator.Cancelled | qqbot/services/message_aggregator.py:306-314 | cancelling and awaiting a pending task ends it and keeps its handle; a finished or absent handle is unchanged |
| Aggregator.ResponseBlock.constructor | qqbot/services/message_aggregator.py:37-47 | a new block belongs to its group, is empty, is not processing and has no tasks |
| Aggregator.ResponseBlock.AddMessage | qqbot/services/message_aggregator.py:49-52 | the message list becomes the old list followed by the new message; nothing else in the block changes |
| Aggregator.ResponseBlock.MessageCount | qqbot/services/message_aggregator.py:54-56 | the count is the list length, and it is zero exactly when the block is empty |
| Aggregator.ResponseBlock.HasBotMention | qqbot/services/message_aggregator.py:58-60 | true if and only if some message in the block mentions the bot |
| Aggregator.ResponseBlock.UniqueUsers | qqbot/services/message_aggregator.py:62-64 | a user id is in the result if and only if some message of the block was sent by that user |
| Aggregator.UserIds | qqbot/services/message_aggregator.py:62-64 | the sender set has exactly the senders of the list and is no larger than the list |
| Aggregator.ResponseBlock.Clear | qqbot/services/message_aggregator.py:66-77 | the block is empty, open again and holds no task handle |
| Aggregator.Clamp | qqbot/services/message_aggregator.py:198 | the result lies in [3, 10], equals the input inside that range and the nearer bound outside it |
| Aggregator.WaitDelay | qqbot/services/message_aggregator.py:181-237 | the delay is 0 or lies in [2, 10]; it is 0 exactly when the answer decodes to an object whose `should_wait` (default true) is falsy |
| Aggregator.WaitDelayRules | qqbot/services/message_aggregator.py:188-237 | a failed call gives 2; no brace pair gives 5; a decode failure or a non-object gives 2; an object with neither key gives 5; a truthy `should_wait` with a missing or null `wait_seconds` gives 5, with a number gives the clamped number, with a list or object gives 2 |
| Aggregator.MessageAggregator.constructor | qqbot/services/message_aggregator.py:83-94 | no blocks, no locks, no finalization running; the invariant holds |
| Aggregator.MessageAggregator.GetLock | qqbot/services/message_aggregator.py:107-111 | the group owns a lock afterwards; the block table is unchanged |
| Aggregator.MessageAggregator.GetBlock | qqbot/services/message_aggregator.py:113-117 | returns the group's block; a group without one gets a fresh empty block and no other entry changes |
| Aggregator.MessageAggregator.AddMessage | qqbot/services/message_aggregator.py:260-329 | a processing block is left exactly as it was and a fresh block takes the entry; the message ends last in the group's current block, after the old messages of a reused block; a pending wait timer is cancelled; exactly one new judgment is pending; other groups' entries are unchanged; the invariant is kept |
| Aggregator.MessageAggregator.OpenBlock | qqbot/services/message_aggregator.py:260-272 | the group's entry holds a block that is not processing: the old one when it was open, otherwise a fresh empty one |
| Aggregator.MessageAggregator.ReplaceBlock | qqbot/services/message_aggregator.py:266-272 | a fresh empty block takes the group's entry; every other entry, the locks and the running finalizations are unchanged |
| Aggregator.MessageAggregator.Enqueue | qqbot/services/message_aggregator.py:284-329 | the block gets the message appended, its wait timer cancelled and a new pending judgment under a new task identity |
| Aggregator.MessageAggregator.JudgeAnswered | qqbot/services/message_aggregator.py:119-237 | only the judgment still pending on the group's block schedules a timer; the delay is `WaitDelay` of the answer, the judgment ends and one new wait timer is pending; the table and the locks are unchanged; a cancelled judgment changes nothing |
| Aggregator.MessageAggregator.StartTimer | qqbot/services/message_aggregator.py:205-225 | the pending judgment ends and a wait timer under a new identity takes its place; nothing else changes |
| Aggregator.MessageAggregator.TimerFired | qqbot/services/message_aggregator.py:335-366 | a cancelled timer changes nothing; an empty block is skipped; otherwise the group takes its lock, and the block is marked processing and handed over, and it is non-empty |
| Aggregator.MessageAggregator.FinishProcessing | qqbot/services/message_aggregator.py:381-393 | exactly the processed block is cleared, even when a newer block holds the entry; the block's group holds its lock; the table and every other block are unchanged |
| Aggregator.MessageAggregator.GetBlockInfo | qqbot/services/message_aggregator.py:401-422 | "not exists" exactly for a group without a block; otherwise the count, processing flag, wait-handle presence, sender set and mention flag of that block |
| BlockJudge.PlanDefaults | qqbot/services/block_judge.py:56-67 | a missing reply key takes its default: "topic", no target, "happy", empty instruction, no mention, empty related messages; a present key is copied |
| BlockJudge.FromDict | qqbot/services/block_judge.py:56-77 | the append loop builds the same result as the declarative reading of `from_dict`, including its failures |
| BlockJudge.FromDictKeepsReplies | qqbot/services/block_judge.py:56-67 | a list of reply objects gives one plan per entry, in order and in number |
| BlockJudge.FromDictDefaults | qqbot/services/block_judge.py:69-77 | an answer without any known key gives no reply, zero replies, empty summary and explanation, both flags off, no plans; this is `no_reply("")` |
| BlockJudge.NoReply | qqbot/services/block_judge.py:80-95 | no reply, zero replies, no plans, the reason as explanation, empty summary, both flags off |
| BlockJudge.BlockLineLayout | qqbot/services/block_judge.py:143-145 | a line is `name(id)`, then the six-character mention tag exactly when the bot is mentioned, then `: content`; an unknown sender's name starts with 用户 |
| BlockJudge.FormatBlockMessages | qqbot/services/block_judge.py:139-147 | one line per message in block order, each in the layout above, joined by newlines |
| BlockJudge.JudgeBlock | qqbot/services/block_judge.py:167-298 | an empty block gives `no_reply("对话块为空")`; a failed call gives `no_reply("判断出错: …")`; no brace pair or a decode failure gives `no_reply("JSON解析失败")`; a `from_dict` failure gives `no_reply("判断出错: …")`; otherwise the decoded result; only a successful judgment applies the silence transition |
| MessageJudge.ToDict | qqbot/services/message_judge.py:77-93 | the dictionary has exactly the nine field keys, each holding its field's value |
| MessageJudge.FromDictDefaults | qqbot/services/message_judge.py:56-75 | missing keys give no reply, type "none", no target, "happy", empty explanation and instruction, no mention, both flags off |
| MessageJudge.FromDictOfToDict | qqbot/services/message_judge.py:56-93 | `from_dict(to_dict(r))` is `r` |
| MessageJudge.ToDictOfFromDict | qqbot/services/message_judge.py:56-93 | a dictionary with exactly the nine keys survives `from_dict` then `to_dict`; any key that survives keeps its value |
| MessageJudge.Conservative | qqbot/services/message_judge.py:224-232 | the failure result: no reply, type "none", the given explanation, empty instruction, both flags off |
| MessageJudge.JudgeMessage | qqbot/services/message_judge.py:139-232 | a failed call or a non-object answer gives "AI judgment failed"; no brace pair or a decode failure gives "Failed to parse judgment response"; otherwise `from_dict` of the answer, with the silence transition applied only then |
| SilenceMode.SilenceRegister.constructor | qqbot/services/silence_mode.py:7 | the register starts empty |
| SilenceMode.SilenceRegister.IsSilent | qqbot/services/silence_mode.py:10-19 | a group never set is not silent; a set group reads its stored flag |
| SilenceMode.SilenceRegister.SetSilent | qqbot/services/silence_mode.py:22-29 | the register becomes the old one with just this group overwritten, so repeating a write changes nothing and the last write wins; the group reads the written flag and every other group reads as before |
| SilenceMode.SilenceAfterIdempotent | qqbot/services/block_judge.py:280-292 | applying the same judgment's transition twice is applying it once |
| SilenceMode.LastTransitionWins | qqbot/services/message_judge.py:213-220 | of two judgments for a group, the later one sets the mode whenever it raises a flag (silent exactly when it complains); one raising neither keeps the earlier mode |
| SilenceMode.SilenceAfter | qqbot/services/block_judge.py:280-292 | for a truthy group id, a complaint turns silence on, otherwise a request to speak turns it off, otherwise nothing changes; other groups and a falsy group id are untouched |
| SilenceMode.ApplySilenceTransition | qqbot/services/message_judge.py:213-220 | the register afterwards is `SilenceAfter` of the register before |
| Context.DisplayNamePrecedence | qqbot/services/context.py:115-131 | a non-empty card wins, else a non-empty nickname, else `用户{id}`; the name is never empty |
| Context.CodeLength | qqbot/services/context.py:37 | a positive length is the length of a `[CQ:at,qq=` prefix, at least one digit and a closing `]` |
| Context.Matches | qqbot/services/context.py:37-38 | every reported match is a whole at-code |
| Context.ParseAtInfo | qqbot/services/context.py:36-63 | the loop applies `str.replace` for each match in turn |
| Context.ParseAtInfoReplacesEveryCode | qqbot/services/context.py:36-63 | when no display name contains `[`, every at-code is replaced by `@` and the display name of its number, and every other character is kept |
| Context.ReplaceEachRenders | qqbot/services/context.py:40-61 | replacing the codes seen so far one by one equals substituting exactly those codes in one pass |
| Context.ReplaceRendered | qqbot/services/context.py:61 | one more `replace` on a one-pass substitution is the one-pass substitution of one more code |
| Context.RenderCovering | qqbot/services/context.py:37-41 | substituting a set of codes that covers every match substitutes every code |
| Context.RenderAllWithoutCodes | qqbot/services/context.py:36-63 | content without at-codes is returned unchanged |
| Context.ContextLinesAppend | qqbot/services/context.py:100-153 | the lines of two runs of messages are the lines of the first followed by the lines of the second |
| Context.ContextLinesAllRecalled | qqbot/services/context.py:105-108 | recalled messages produce no line |
| Context.RecentContext | qqbot/services/context.py:95-155 | no messages give "（暂无上下文消息）"; otherwise one `name(id) [time] 说了: content` line per non-recalled message in order, with "小奏" for the bot, joined by newlines |
| GroupChat.ChatPieceRules | qqbot/plugins/group_chat.py:266-288 | text is copied; an at for the bot gives `name or "小奏"`; an at for anyone else gives `@` and `name or qq`; media give 【图片】, 【语音】, 【视频】, 【文件】; every other type gives nothing |
| GroupChat.ChatTextAppend | qqbot/plugins/group_chat.py:262-288 | the content of two runs of segments is the concatenation of their contents |
| GroupChat.FoldStep | qqbot/plugins/group_chat.py:262-288 | one more segment appends its piece and raises the flag exactly when it mentions the bot |
| GroupChat.MediaIsNotBlank | qqbot/plugins/group_chat.py:279-293 | a message with a media segment never folds to blank content |
| GroupChat.FoldSegments | qqbot/plugins/group_chat.py:262-288 | the loop builds the fold's content and raises the mention flag exactly when some at-segment targets the bot |
| GroupChat.ChatMessage | qqbot/plugins/group_chat.py:246-293 | the bot's own messages are skipped; an aggregated message has non-blank content or mentions the bot |
| GroupChat.NameIsNotBlank | qqbot/plugins/group_chat.py:258-259 | text that contains "小奏" is not blank |
| GroupChat.RawMessageRule | qqbot/plugins/group_chat.py:256-259 | a non-empty raw text is the content verbatim, mentions the bot exactly when it contains "小奏", and is dropped exactly when blank |
| GroupChat.SegmentMessageRules | qqbot/plugins/group_chat.py:260-293 | without raw text, a message that mentions the bot is aggregated even when blank, and one carrying media is always aggregated |
| GroupChat.HandleGroupChat | qqbot/plugins/group_chat.py:243-314 | a skipped message leaves the table, the locks, the running finalizations, the task counter and the group's block unchanged; an aggregated one has exactly the effect of `add_message`: a processing block is left as it was and a fresh one takes its place, the message is appended last, a pending wait timer is cancelled, one new judgment is pending, other groups keep their blocks; the invariant is kept |
| GroupChat.ResolveNamePrecedence | qqbot/plugins/group_chat.py:81-97 | a failed member lookup gives `用户{id}`; else a non-empty card, else a non-empty nickname, else `用户{id}`; the name is never empty |
| GroupChat.ResolveNameMatchesContext | qqbot/plugins/group_chat.py:81-97 | it agrees with the context renderer's display name unless the member lookup raised, where the two can differ |
| GroupChat.ResolveUserNames | qqbot/plugins/group_chat.py:80-97 | one resolved name for each distinct sender and no other entry |
| GroupChat.LegacyKeepsPlan | qqbot/plugins/group_chat.py:146-153 | the per-reply judgment keeps the plan's type, target, emotion, instruction and mention flag, asks for a reply and sets neither feedback flag |
| GroupChat.NoReplyGeneratesNothing | qqbot/plugins/group_chat.py:119-124 | a no-reply judgment produces no generator request |
| GroupChat.ReplyJudgmentsFollowPlans | qqbot/plugins/group_chat.py:119-153 | requests exist only for a truthy `should_reply` with a non-zero `reply_count`; then there is one per plan, in order, each carrying its plan |
| GroupChat.ProcessResponseBlock | qqbot/plugins/group_chat.py:56-133 | no bot or an empty block returns at once without effect; otherwise the senders' names are resolved, the judgment is the block judge's verdict and the requests are one per plan; the silence register changes only on a successful judgment |
| GroupChat.GenerationRequests | qqbot/plugins/group_chat.py:133-153 | the loop produces the per-plan judgments in order |
| EventHandlers.FirstMedia | qqbot/plugins/event_handlers.py:85-100 | the index of the first media segment, or none when there is no media segment |
| EventHandlers.StoredMessage | qqbot/plugins/event_handlers.py:49-109 | the type is one of text, img, aud, vid, others, and the content is never empty |
| EventHandlers.RawMessageIsText | qqbot/plugins/event_handlers.py:56-58 | a non-empty raw text is stored verbatim as "text" |
| EventHandlers.EmptyContentFallback | qqbot/plugins/event_handlers.py:106-109 | empty content becomes the message's string form, or "【空消息】" when that is blank |
| EventHandlers.StorePieceRules | qqbot/plugins/event_handlers.py:65-103 | text is copied; an at for the bot gives the bare name or "小奏"; anyone else gives `@name`, or `@qq` without a name; face, emoji, shake and poke give `[CQ:<type>]` |
| EventHandlers.StoreTextAppend | qqbot/plugins/event_handlers.py:61-103 | the content of two runs of non-media segments is the concatenation of their contents |
| EventHandlers.MediaStopsScanning | qqbot/plugins/event_handlers.py:85-100 | the first media segment alone decides type and content: what came before is discarded and nothing after is read |
| EventHandlers.FirstMediaDecides | qqbot/plugins/event_handlers.py:85-100 | a media segment with no media before it decides the parse |
| EventHandlers.SegmentKinds | qqbot/plugins/event_handlers.py:85-100 | image, record, video and file map to img/【图片】, aud/【语音】, vid/【视频】, others/【文件】 |
| EventHandlers.AgreesWithChatFold | qqbot/plugins/event_handlers.py:61-84 | on text and at-segments only, the storage parse equals the chat plugin's fold |
| EventHandlers.NoMediaParse | qqbot/plugins/event_handlers.py:61-103 | without media the type is "text" and the content is every segment's piece in order |
| EventHandlers.ScanFromIsParse | qqbot/plugins/event_handlers.py:61-103 | resuming the scan after a media-free prefix reaches the segment parse |
| EventHandlers.ScanSegments | qqbot/plugins/event_handlers.py:61-103 | the loop with its early exit computes the segment parse |
| EventHandlers.ParseMessage | qqbot/plugins/event_handlers.py:49-109 | the parsed type and content are the stored message |
| OneBot.Field | qqbot/plugins/event_handlers.py:66-71 | a missing data key reads as the empty string |
| OneBot.AtText | qqbot/plugins/group_chat.py:268-278 | never empty; an at-segment for someone other than the bot starts with `@` |
| OneBot.Placeholder | qqbot/plugins/group_chat.py:279-286 | a four-character bracketed placeholder |
| Json.Get | qqbot/services/block_judge.py:70-76 | a present key gives its value and a missing key the default |
| Json.Find | qqbot/services/message_aggregator.py:181 | the first index of the character, or -1 when it does not occur |
| Json.RFind | qqbot/services/message_aggregator.py:182 | the last index of the character, or -1 when it does not occur |
| Json.ExtractJsonSpec | qqbot/services/message_aggregator.py:181-185 | extraction succeeds exactly when some `}` follows some `{`, and the slice then starts with `{` and ends with `}` |
| Json.ExtractJsonIgnoresStrip | qqbot/services/message_aggregator.py:180-185 | stripping the answer first never changes the extracted slice |
| Json.ExtractJsonOfSlice | qqbot/services/block_judge.py:220-229 | cutting brace-free text off both ends leaves the slice unchanged |
| Text.Strip | qqbot/services/message_aggregator.py:180 | the result is a slice of the input with only whitespace cut off both ends, and it neither starts nor ends with whitespace |
| Text.IntToStringInjective | qqbot/plugins/group_chat.py:271 | equal decimal strings come from equal integers, so `str(at_qq) == str(self_id)` compares the accounts |
| Text.DigitsValueOfNatToString | qqbot/services/context.py:42 | `int(str(n))` is `n` |
| Text.JoinLength | qqbot/services/block_judge.py:147 | joining k parts adds exactly k - 1 separators |
| Text.ReplaceAllAbsent | qqbot/services/context.py:61 | `replace` of a pattern that does not occur returns the string unchanged |

## Left out

- Concurrency: asyncio locks, `create_task`, and the interleaving of coroutines are not modelled. Each event is one atomic method. Awaiting a cancelled task is part of the method that cancels it. A lock is only recorded as existing.
- Time: `asyncio.sleep`, `time.time`, `created_at`, `last_message_at` and `age_seconds` are not modelled. The timer's expiry is the `TimerFired` call, and its delay is only returned.
- The wait-time judgment's prompt is not modelled. This covers the history fetched for it, the block text and the prompt strings. Only its answer is modelled, as an `OracleReply`.
- The language-model calls are not modelled. They are `OracleReply` values, so any exception they raise is `CallFailed`.
- `json.loads` and `float()` on strings are the `decode` and `toFloat` parameters. Non-finite floats are not modelled.
- The judges' prompt construction is not modelled, including the silence-mode wording. Nor is the context string the block judge receives.
- Database sessions and persistence are not modelled. Stored messages, user records and member records are parameters. `timeText` is an already formatted time, so `strftime`, `fromisoformat` and the `[:5]` fallback are not modelled.
- Sending replies, the reply generator, saving the bot's replies, and the one-second pause between replies are not modelled. `GroupChat.ProcessResponseBlock` stops at the requests it would hand to the generator.
- The callback registration (`set_reply_callback`) and the global bot instance are not modelled. The bot's presence is the flag `hasBot`.
- Logging and `print` are not modelled.
- `hasattr` checks on the event are not modelled. Every event is a group message with the fields it reads.
- `Context.CodeLength`: the pattern `\d` is modelled as ASCII digits only. Python's `\d` also accepts other Unicode decimal digits.
- `Context.ParseAtInfoReplacesEveryCode`: proved only when no display name contains `[`. A display name that itself contains an at-code could be rewritten by a later `replace`. `Context.ParseAtInfo` models the loop as written for all inputs.
- `BlockJudge.FromDict`: the error texts are descriptions of Python's exceptions, not their exact messages.
- A user or member record is modelled as a field that may be missing. An empty record dictionary counts as a missing record.
- `OneBot.Field`: segment data values are strings, as OneBot sends them. A `qq` given as a number is compared through its decimal string.
- `GroupChat.Legacy`: `group_chat.py:33` and `conversation.py:13` (imported by `group_chat.py:27`) import `JudgeResult` from `block_judge`, which neither defines nor imports that name; as written, loading the plugin raises `ImportError`, so `handle_group_chat` and `_process_response_block` never run. The model assumes the name resolves to the class defined at `message_judge.py:17` (`MessageJudge.JudgeResult`), and does not model the failed import.
- `Aggregator.WaitDelay`: JSON integers and floats are one kind of number (`Json.Num`, a `real`), and `Aggregator.ToFloat` converts every number. An integer `wait_seconds` too large for a double makes `float()` at `message_aggregator.py:198` raise `OverflowError`, which gives the 2-second delay; the model clamps it to 10 instead.
- `str(event.message)` is the event field `rendered`. Its CQ-code serialisation is not modelled.
