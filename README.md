# A model of the shizue Discord bot's core

The bot answers Discord users with a chat-completion model. It works in two ways:

- A message that mentions the bot, directly or through one of the bot's roles, is stripped of its mention tokens. Its text and image attachments go to the model together with the conversation's stored history.
- The `/ask` slash command does the same for a typed question and at most one image.

Each conversation is the pair (channel, user). It has one document in the `ai_bot_conversations` collection, holding the ordered list of its turns. When `MAX_HISTORY_LENGTH` is at least 1, only the newest `2 * MAX_HISTORY_LENGTH` turns are kept. With a bound of 0 the slice `messages[-0:]` keeps everything, so nothing is ever evicted (`ZeroBoundKeepsEverything`). With a negative bound even the new turn can be dropped (`NegativeBoundDropsNewTurn`). `/clear` deletes the document.

An answer longer than 2000 characters is cut at line breaks and packed greedily into messages. In the mention handler the first message is a reply and the others are channel messages; in `/ask` every message is a follow-up.

## Modules

- `Python`: the Python behaviour the code relies on, written out.
  - `Option` and raised exceptions (`Outcome`);
  - the slice `s[k:]`, `str(int)`;
  - `split`, `join`, `replace`, `strip`, `startswith`.
- `Base64`: encoding per section 4 of RFC 4648, with a decoder that inverts the encoding. The decoder accepts non-zero pad bits, so it is not a canonical-form check.
- `FirestoreHistory`: the collection as a `map` from document id to document, held by the class `ConversationHistory`.
  - Its methods `GetHistory`, `AddMessage`, `ClearHistory` and `AddConversation` read or rewrite that map.
  - Specification functions (`StoredMessages`, `Appended`, `WithMessage`, ...) state what each call leaves behind.
- `Config`: the system prompt, the two credential errors, and `validate`.
- `OpenAIClient`: how the chat request is assembled.
  - The system prompt, the stored turns, then the user's message.
  - When images are given, that message is a text part followed by one `data:` URL part (RFC 2397) per image that could be fetched.
- `ResponseChunker`: the packing loop shared by both `_send_response` methods.
- `Discord`: attachments, and the `Effect` trace of everything a handler does outward, in order.
- `Events`: the `MessageHandler` cog (`on_message`, `_is_bot_mentioned`, `_send_response`).
- `Commands`: the `SlashCommands` cog (`ask`, `clear`, `_send_response`).

The handlers are classes whose `log` field records each effect: a reply, a channel message, a deferral, a follow-up, a history read or write, and the messages sent to the model. The collection is the `docs` field of the `ConversationHistory` they share. In the source each cog builds its own `ConversationHistory()`, but both attach to the same Firestore collection. So the model gives both handlers one shared object, and its constructor starts from the documents the collection already holds.

The completion call and the image download are the handlers' `complete` and `fetch` parameters. Each is a function from what is sent to what comes back:
- a completion with possibly null content, or the class name of the exception raised;
- an HTTP status with a header and a body, or a failure.

Every method is proved against specification functions: `OnMessageEffects`/`OnMessageDocs`, `AskEffects`/`AskDocs`, `ClearEffects`, `Request`, `Chunks`, `Outgoing`. The lemmas state the bot's properties about those functions.

Three behaviours of the code that a reader might not expect:
- A role mention of a role the bot holds also triggers an answer, not only a direct user mention.
- An unbroken reply of 2500 characters is handed to Discord as an empty message and then the whole 2500 characters, not as 2000 and 500 (`UnbrokenLongReply`). This is because the packing counts a separator even when the pending chunk is empty, so any line of 2000 characters or more met with nothing pending closes an empty chunk (`LongLineGivesEmptyChunk`).
- Stripping is a single pass per token, so a token assembled by a removal survives (`SinglePassLeavesToken`), so not every mention token is gone from the cleaned text. In the ordinary case, the bot's token followed by plain text, the token is removed (`MentionTokenStripped`).

## Model

| member | source | states |
|---|---|---|
| Python.TailFrom | storage/firestore_history.py:50 | `s[k:]` is a suffix of `s`; for a negative `k` its length is `min(|s|, -k)`, for `k >= 0` it is `max(0, |s| - k)` |
| Python.SplitOn | bot/events.py:115 | `split` never returns an empty list |
| Python.JoinSplit | bot/events.py:115 | joining the pieces of `split(sep)` with `sep` gives the string back |
| Python.SplitPiecesExcludeSeparator | bot/events.py:115 | no line of `split("\n")` holds a `"\n"` |
| Python.SplitOfSeparatorsOnly | bot/events.py:115 | a string of line breaks only splits into empty lines |
| Python.SplitWithoutSeparator | bot/events.py:115 | a string without the separator splits into itself alone |
| Python.SplitAtSeparator | bot/events.py:115 | a string holding the separator splits into at least two pieces |
| Python.SingleLine | bot/events.py:115 | a text without a line break is one line |
| Python.ReplaceAll | bot/events.py:53 | deleting a pattern never lengthens the text |
| Python.ReplaceAllIsJoinOfSplit | bot/events.py:53 | `s.replace(p, r)` equals `r.join(s.split(p))` |
| Python.RemovalShortens | bot/events.py:53 | deleting a pattern that occurs makes the text strictly shorter |
| Python.RemoveAllUnchangedIff | bot/events.py:53 | deleting a pattern leaves the text unchanged exactly when the pattern does not occur |
| Python.RemoveAllIsSinglePass | bot/events.py:52-54 | one deletion pass can assemble a new occurrence: `"<@<@1>1>"` loses `"<@1>"` and becomes `"<@1>"` |
| Python.SkipSpaces | bot/events.py:58 | the first non-whitespace position at or after `i`; everything skipped is whitespace |
| Python.BackSpaces | bot/events.py:58 | the end of `s[..j]` without trailing whitespace; everything dropped is whitespace |
| Python.Strip | bot/events.py:58 | `strip()` is the infix between a whitespace prefix and a whitespace suffix, and it neither starts nor ends with whitespace |
| Python.StripEmptyIff | bot/events.py:58-61 | `strip()` is empty exactly when the text is all whitespace |
| Python.StripUnpadded | bot/events.py:58 | a text without whitespace at its ends is its own `strip()` |
| Python.IntToString | storage/firestore_history.py:18 | `str(i)` is non-empty and has no `_` |
| Python.IntToStringInjective | storage/firestore_history.py:18 | distinct integers have distinct `str` |
| Python.LastIndexOf | ai/openai_client.py:89 | the last index of a character, `None` exactly when it is absent; nothing after it is that character |
| Python.LastIndexOfSeparator | ai/openai_client.py:89 | in `a + [c] + b` with no `c` in `b`, the last `c` is at `|a|` |
| Base64.Encode | ai/openai_client.py:86 | the encoding has `4 * ceil(n / 3)` characters |
| Base64.EncodeAlphabet | ai/openai_client.py:86 | every encoded character is an alphabet character or `=` (so never `;`) |
| Base64.DecodeEncodeShort | ai/openai_client.py:86 | decoding the padded encoding of one or two bytes gives them back |
| Base64.DecodeEncode | ai/openai_client.py:86 | decoding the encoding gives back the bytes |
| FirestoreHistory.DocId | storage/firestore_history.py:16-18 | the document id holds the `_` separator |
| FirestoreHistory.DocIdInjective | storage/firestore_history.py:16-18 | distinct (channel, user) pairs have distinct document ids |
| FirestoreHistory.Retain | storage/firestore_history.py:49-50 | eviction keeps a suffix: `min(n, 2*max)` turns for `max >= 1`, all for `max = 0`, `max(0, n + 2*max)` for a negative `max` |
| FirestoreHistory.LastN | storage/firestore_history.py:49-50 | the newest `min(|s|, n)` elements of `s` |
| FirestoreHistory.RetainKeepsNewest | storage/firestore_history.py:49-50 | with `max >= 1`, eviction keeps exactly the newest `2*max` turns |
| FirestoreHistory.AppendedEndsWithTurn | storage/firestore_history.py:46-50 | for `max >= 0` the new turn is last after `add_message`; for `max >= 1` the length is at most `2*max` |
| FirestoreHistory.AppendBelowBound | storage/firestore_history.py:49-50 | below the bound `add_message` only appends |
| FirestoreHistory.EvictionDropsOldest | storage/firestore_history.py:49-50 | the result is the old list minus a prefix, then the new turn |
| FirestoreHistory.ZeroBoundKeepsEverything | storage/firestore_history.py:49-50 | with `max = 0`, `messages[-0:]` keeps everything, so nothing is evicted |
| FirestoreHistory.NegativeBoundDropsNewTurn | storage/firestore_history.py:49-50 | with a negative `max` and a short list, even the new turn is dropped |
| FirestoreHistory.ConversationEndsWithExchange | storage/firestore_history.py:72-77 | after `add_conversation` the last two turns are the user turn then the assistant turn, within `2*max` |
| FirestoreHistory.AppendAllKeepsNewest | storage/firestore_history.py:31-60 | any run of `add_message` calls leaves the newest `2*max` of all turns ever given, in order |
| FirestoreHistory.LastNFold | storage/firestore_history.py:49-50 | trimming an earlier prefix never changes the newest `n` of the whole |
| FirestoreHistory.GetAfterAdd | storage/firestore_history.py:20-60 | `get_history` after `add_message` is the old list with the turn appended and evicted |
| FirestoreHistory.AddLeavesOthers | storage/firestore_history.py:53-60 | `add_message` leaves every other conversation's list as it was |
| FirestoreHistory.ConversationStored | storage/firestore_history.py:72-77 | `get_history` after `add_conversation` is the old list after both turns |
| FirestoreHistory.ConversationLeavesOthers | storage/firestore_history.py:72-77 | `add_conversation` leaves every other conversation as it was |
| FirestoreHistory.ClearThenGet | storage/firestore_history.py:62-70 | after `clear_history`, `get_history` is `[]`, the document is gone (so a second clear finds nothing), and other conversations are untouched |
| FirestoreHistory.MissingReadsEmpty | storage/firestore_history.py:25-29 | a missing document, or one without `messages`, reads as `[]` |
| FirestoreHistory.ConversationHistory.constructor | storage/firestore_history.py:11-14 | attaches to the collection as it stands, with all the documents it already holds, and the given bound |
| FirestoreHistory.ConversationHistory.GetHistory | storage/firestore_history.py:20-29 | returns the document's `messages`, or `[]` when there is no document or no field |
| FirestoreHistory.ConversationHistory.AddMessage | storage/firestore_history.py:31-60 | the collection afterwards is the old one with only this pair's document rewritten to the appended and evicted list |
| FirestoreHistory.ConversationHistory.ClearHistory | storage/firestore_history.py:62-70 | returns true exactly when the document existed, and the document is removed |
| FirestoreHistory.ConversationHistory.AddConversation | storage/firestore_history.py:72-77 | the user turn is added, then the assistant turn |
| Config.Validate | config.py:27-35 | no errors exactly when both values are non-empty; exactly one error per missing value and no other entry, the token's first |
| Config.StartupExit | main.py:35-40 | start-up exits with status 1 exactly when a credential is missing |
| OpenAIClient.DataUrl | ai/openai_client.py:84-89 | the URL starts with `data:<type>;base64,` |
| OpenAIClient.ParseDataUrlRoundTrip | ai/openai_client.py:84-89 | the data URL reads back as its media type and its bytes, whatever the media type |
| OpenAIClient.NoSeparatorAfterMediaType | ai/openai_client.py:89 | the text after the media type holds no `;` |
| OpenAIClient.FetchResult | ai/openai_client.py:76-91 | a data URL exactly for a 200 response; `None` for another status or an exception |
| OpenAIClient.FetchResultParses | ai/openai_client.py:84-89 | the data URL of a 200 response reads back as its `Content-Type` (`image/png` when absent) and its body |
| OpenAIClient.ResolvedImages | ai/openai_client.py:64-72 | at most one part per URL, every part an image part |
| OpenAIClient.ResolvedImagesConcat | ai/openai_client.py:64-72 | the parts follow the URL order |
| OpenAIClient.ResolvedImagesSnoc | ai/openai_client.py:64-72 | one more URL appends its part, if its fetch succeeds, after the others |
| OpenAIClient.ResolvedImagesAllFetched | ai/openai_client.py:64-72 | when every fetch succeeds, part `i` is the data URL of URL `i` |
| OpenAIClient.ResolvedImagesNoneFetched | ai/openai_client.py:64-72 | when every fetch fails, there is no image part |
| OpenAIClient.ImageContent | ai/openai_client.py:57-74 | a text part comes first exactly when the text is non-empty; all other parts are images |
| OpenAIClient.BuildImageContent | ai/openai_client.py:53-74 | the loop builds `ImageContent` |
| OpenAIClient.UserContent | ai/openai_client.py:38-43 | plain text exactly when the URL list is `None` or empty, else the built parts |
| OpenAIClient.RequestShape | ai/openai_client.py:31-43 | system prompt first, the history turns unchanged and in order, the user message last: `|history| + 2` messages |
| OpenAIClient.NoHistoryIsEmptyHistory | ai/openai_client.py:34-35 | no history and an empty history give the same two-message request |
| OpenAIClient.ReplyOf | ai/openai_client.py:51 | a null content is returned as `""`; a failed call raises |
| OpenAIClient.Chat | ai/openai_client.py:14-51 | sends exactly `Request(...)` and returns the model's text |
| ResponseChunker.ChunkResponse | bot/events.py:112-123 | the loop computes `Chunks` |
| ResponseChunker.PackFits | bot/events.py:115-120 | when no line is over the limit, no closed or pending chunk is |
| ResponseChunker.ChunksFit | bot/events.py:112-123 | when no line is over the limit, no chunk is |
| ResponseChunker.OutgoingFits | bot/events.py:107-123 | so no message sent is over the limit |
| ResponseChunker.JoinWithExtendLast | bot/events.py:120 | extending the last chunk by `"\n" + line` extends the join the same way |
| ResponseChunker.PackJoins | bot/events.py:115-120 | with every line non-empty and shorter than the limit, the chunks joined by `"\n"` are the lines joined by `"\n"` |
| ResponseChunker.ChunksRoundTrip | bot/events.py:112-123 | then joining the chunks with `"\n"` gives the reply back exactly |
| ResponseChunker.PackChunksGrow | bot/events.py:115-118 | closed chunks are never revised by later lines |
| ResponseChunker.LongLineClosesEmptyChunk | bot/events.py:116-118 | a line of `max` characters or more met with nothing pending closes an empty chunk and becomes the pending chunk |
| ResponseChunker.PackLongLine | bot/events.py:115-118 | whenever such a line is met, first or later, the chunk closed next is empty and stays so |
| ResponseChunker.LongLineGivesEmptyChunk | bot/events.py:112-123 | so the reply's chunks then hold an empty message at that position |
| ResponseChunker.LongFirstLineGivesEmptyChunk | bot/events.py:116-118 | the instance for the first line: an empty chunk comes first |
| ResponseChunker.UnbrokenLongReply | bot/events.py:107-123 | an over-long reply without a line break is sent as `""`, then the whole reply as one oversized message |
| ResponseChunker.PackBlankLines | bot/events.py:115-120 | blank lines met with nothing pending vanish |
| ResponseChunker.BlankReplySendsNothing | bot/events.py:107-123 | an over-long reply of line breaks only sends no message at all |
| Events.MentionCheckMeaning | bot/events.py:16-30 | raises exactly when there is no bot user in a guild; with a bot user, true exactly for a direct mention or a mention of one of its roles |
| Events.IsBotMentioned | bot/events.py:16-30 | the early-return loops compute `MentionCheck` |
| Events.CleanContent | bot/events.py:50-58 | the cleaned text is no longer than the message and does not start or end with whitespace |
| Events.RemoveAbsentToken | bot/events.py:52-57 | a token starting with `<` is not found in a text without `<` |
| Events.NoTokenOnlyStripped | bot/events.py:50-58 | a message without `<` only loses its surrounding whitespace |
| Events.MentionTokenStripped | bot/events.py:50-58 | a message mentioning only the bot, its token followed by text without tokens, is cleaned to that text stripped |
| Events.SinglePassLeavesToken | bot/events.py:52-54 | `<@<@1>1>` mentioning user 1 is cleaned to `<@1>` |
| Events.StripMentions | bot/events.py:50-58 | the stripping loops and `strip()` compute `CleanContent` |
| Events.StripUserTokens | bot/events.py:52-54 | the loop over the mentioned users removes each one's two token forms, in order |
| Events.StripRoleTokens | bot/events.py:56-57 | the loop over the mentioned roles removes each role token, in order |
| Events.ImageUrls | bot/events.py:69-72 | at most one URL per attachment |
| Events.ImageUrlsMembers | bot/events.py:69-72 | a URL is collected exactly when some image attachment has it |
| Events.ImageUrlsConcat | bot/events.py:69-72 | the filter keeps attachment order |
| Events.CollectImageUrls | bot/events.py:69-72 | the loop computes `ImageUrls` |
| Events.Delivery | bot/events.py:126-130 | one effect per chunk: the first a reply, the others channel messages, in order |
| Events.ShortAnswerOneReply | bot/events.py:107-109 | an answer that fits is sent whole as the only reply |
| Events.BotAuthorIgnored | bot/events.py:38-40 | a bot's message causes no effect and no write |
| Events.UnmentionedIgnored | bot/events.py:43-45 | a message that does not address the bot causes no effect and no write |
| Events.EmptyMentionPrompted | bot/events.py:50-63 | a mention whose cleaned text is empty and that has no attachment gets only the prompt reply, and nothing is stored |
| Events.BareMentionPrompted | bot/events.py:50-63 | so does the usual blank mention: the bot's token followed by whitespace only |
| Events.FailedChatStoresNothing | bot/events.py:75-98 | a failed model call: history read, model asked, error replied, nothing stored |
| Events.MessageRequestShape | bot/events.py:75-84 | the model gets the system prompt, the stored turns, then the cleaned text (or the image question) with the image URLs |
| Events.AnsweredEffects | bot/events.py:75-95 | an answered message: history read, model asked, exchange stored, then the answer delivered, in that order |
| Events.AnswerEffectsOfError | bot/events.py:97-98 | after a raised call comes only the error reply |
| Events.AnswerEffectsOfReply | bot/events.py:86-95 | after an answer come the history append and the delivery |
| Events.AnswerStored | bot/events.py:86-92 | the conversation stores the stored text (the placeholder for a blank image message) and the answer; other conversations are unchanged |
| Events.MessageHandler.constructor | bot/events.py:11-14 | a handler with an empty log |
| Events.MessageHandler.SendResponse | bot/events.py:103-130 | logs `Delivery(Outgoing(response))` |
| Events.MessageHandler.Answer | bot/events.py:66-101 | logs `AnswerEffects` and leaves `AnswerDocs` |
| Events.MessageHandler.Conclude | bot/events.py:86-98 | logs the error reply, or stores the exchange and delivers the answer |
| Events.MessageHandler.OnMessage | bot/events.py:33-101 | logs exactly `OnMessageEffects` and leaves the store as `OnMessageDocs` |
| Commands.AskImageUrls | bot/commands.py:34-36 | at most one URL, present exactly when the attachment is an image, and then its URL |
| Commands.AskImageArgument | bot/commands.py:34-47 | the model gets an image list exactly when the attachment is an image, and then just its URL; `None` otherwise |
| Commands.FollowUps | bot/commands.py:149-150 | one non-private follow-up per chunk, in order |
| Commands.SameMessagesAsMention | bot/commands.py:127-150 | `/ask` sends the same texts in the same order as the mention handler |
| Commands.ShortAnswerOneFollowUp | bot/commands.py:131-133 | an answer that fits is one follow-up |
| Commands.AskEffectsOfError | bot/commands.py:61-62 | a failed call ends with the error follow-up |
| Commands.AskEffectsOfAnswer | bot/commands.py:30-59 | deferred, history read, model asked, exchange stored, answer followed up, in that order |
| Commands.FailedAskStoresNothing | bot/commands.py:44-62 | a failed model call sends the error follow-up and stores nothing |
| Commands.AskStoresQuestion | bot/commands.py:44-56 | the model is asked the question verbatim; the history keeps it verbatim with the answer; other conversations are unchanged |
| Commands.ClearReply | bot/commands.py:71-82 | the confirmation exactly when a record existed, the other notice otherwise; a second clear finds nothing |
| Commands.SlashCommands.constructor | bot/commands.py:13-16 | a cog with an empty log |
| Commands.SlashCommands.SendResponse | bot/commands.py:127-150 | logs `FollowUps(Outgoing(response))` |
| Commands.SlashCommands.Ask | bot/commands.py:23-62 | logs exactly `AskEffects` and leaves the store as `AskDocs` |
| Commands.SlashCommands.Conclude | bot/commands.py:50-62 | the error follow-up, or the exchange stored and the answer followed up |
| Commands.SlashCommands.Clear | bot/commands.py:65-88 | logs `ClearEffects` and removes the conversation's document |
| Python.StartsWith | bot/events.py:71 | definition; no contract: `str.startswith` |
| Python.IsSpace | bot/events.py:58 | definition; no contract: the characters `str.isspace` accepts |
| Discord.IsImage | bot/events.py:71 | definition; no contract: an attachment whose content type is present and starts with `image/` |
| Discord.ErrorNotice | bot/events.py:98 | definition; no contract: the error reply naming the exception's class |
| FirestoreHistory.StoredMessages | storage/firestore_history.py:20-29 | definition; no contract: what `get_history` returns for a document id |
| FirestoreHistory.Appended | storage/firestore_history.py:45-50 | definition; no contract: append the turn, then evict |
| FirestoreHistory.AfterConversation | storage/firestore_history.py:72-77 | definition; no contract: the user turn appended, then the assistant turn |
| FirestoreHistory.WithMessage | storage/firestore_history.py:31-60 | definition; no contract: the collection after `add_message`, only the pair's document rewritten |
| FirestoreHistory.WithConversation | storage/firestore_history.py:72-77 | definition; no contract: the collection after `add_conversation` |
| FirestoreHistory.WithoutConversation | storage/firestore_history.py:62-70 | definition; no contract: the collection after `clear_history` |
| FirestoreHistory.AppendAll | storage/firestore_history.py:31-60 | definition; no contract: a run of `add_message` calls on one document |
| OpenAIClient.HistoryMessages | ai/openai_client.py:34-35 | definition; no contract: the stored turns as chat messages, in order |
| OpenAIClient.UrlsArgument | bot/events.py:83 | definition; no contract: `image_urls if image_urls else None` |
| OpenAIClient.Request | ai/openai_client.py:31-43 | definition; no contract: the system prompt, the history, then the user message |
| ResponseChunker.PackLine | bot/events.py:116-120 | definition; no contract: one iteration of the packing loop |
| ResponseChunker.Pack | bot/events.py:112-120 | definition; no contract: the packing loop over the lines |
| ResponseChunker.Chunks | bot/events.py:112-123 | definition; no contract: the packed chunks, with the pending chunk kept when not empty |
| ResponseChunker.Outgoing | bot/events.py:107-123 | definition; no contract: the reply itself when it fits, its chunks otherwise |
| Events.RoleMentioned | bot/events.py:23-28 | definition; no contract: a mentioned role is one the bot's member holds |
| Events.MentionCheck | bot/events.py:16-30 | definition; no contract: the result of `_is_bot_mentioned`, or the exception it raises |
| Events.UserToken | bot/events.py:53 | definition; no contract: `<@id>` |
| Events.NicknameToken | bot/events.py:54 | definition; no contract: `<@!id>` |
| Events.RoleToken | bot/events.py:57 | definition; no contract: `<@&id>` |
| Events.RemoveUserTokens | bot/events.py:52-54 | definition; no contract: both token forms of each mentioned user removed, in mention order |
| Events.RemoveRoleTokens | bot/events.py:56-57 | definition; no contract: each mentioned role's token removed, in order |
| Events.ModelText | bot/events.py:81 | definition; no contract: the cleaned text, or the image question when it is empty |
| Events.StoredText | bot/events.py:90 | definition; no contract: the cleaned text, or the image placeholder when it is empty |
| Events.Addressed | bot/events.py:38-45 | definition; no contract: not from a bot, and the mention check returns true |
| Events.Asks | bot/events.py:38-63 | definition; no contract: addressed, with text left or an attachment |
| Events.MessageRequest | bot/events.py:75-84 | definition; no contract: the request `on_message` sends |
| Events.AnswerEffects | bot/events.py:75-98 | definition; no contract: history read, model asked, then the reply's effects |
| Events.ReplyEffects | bot/events.py:86-98 | definition; no contract: the error reply, or the exchange stored and the answer delivered |
| Events.AnswerDocs | bot/events.py:86-92 | definition; no contract: the exchange added only once the model has answered |
| Events.OnMessageEffects | bot/events.py:33-101 | definition; no contract: the effects of `on_message` |
| Events.OnMessageDocs | bot/events.py:33-101 | definition; no contract: the store after `on_message` |
| Commands.AskRequest | bot/commands.py:34-48 | definition; no contract: the request `/ask` sends |
| Commands.AskReplyEffects | bot/commands.py:50-62 | definition; no contract: the error follow-up, or the exchange stored and the answer followed up |
| Commands.AskEffects | bot/commands.py:23-62 | definition; no contract: the effects of `/ask` |
| Commands.AskDocs | bot/commands.py:50-56 | definition; no contract: the store after `/ask` |
| Commands.ClearEffects | bot/commands.py:65-82 | definition; no contract: the effects of `/clear` |

## Left out

- All I/O. This covers the Discord gateway and API objects, Firestore, the OpenAI client (the model name `AI_MODEL` and `max_tokens=2000` are not part of the request model), aiohttp and its 30-second timeout. The model call and the fetch are parameters; the store is an in-memory map.
- The image fetch is a deterministic function of the URL: two fetches of one URL give the same answer.
- The `updated_at` timestamp and the `channel_id`/`user_id` fields of a written document. The two ids are kept in the document datatype; the timestamp comes from the clock.
- Failures of the store and of the sends. The model does not cover an exception from `get_history`, `add_message`, a reply or a follow-up. So it does not cover the partial write where the user turn is stored and the assistant turn is not, nor the exception path of `/clear` (bot/commands.py:84-87), nor Discord refusing an empty chunk or one over 2000 characters. In the source such a refusal raises, and the `except` at bot/events.py:97-98 replies with the error notice after the exchange has already been stored.
- The read-modify-write race between two handlers writing the same document at once; every handler is modelled as running its steps one after another.
- Events.MessageHandler.OnMessage: when `_is_bot_mentioned` raises (no bot user, message in a guild), the exception leaves `on_message` in the source. The model ends the handler there with no effect and does not model the propagated exception.
- `/help`, the typing indicator, and the debug and error `print`s and tracebacks.
- Parsing of the environment (config.py:5-17): the token, the key and the bound are parameters, and their defaults (`20` turns, the `gpt-4o` model) are not modelled. `int()` of a malformed `MAX_HISTORY_LENGTH` is not modelled.
- The rest of `main.py` (the health-check server, the reconnect loop) and `bot/client.py`.
- Python's `str.isspace` is modelled by the fixed list of whitespace code points, without Unicode database lookups.
