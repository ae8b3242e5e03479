/** The mention handler: a message that mentions the bot, directly or
    through one of its roles, is stripped of its mention tokens. The cleaned
    text and any image attachments go to the model along with the
    conversation's history. The exchange is stored, and the answer is sent
    back as a reply followed by plain channel messages when it has to be
    split. */
module Events {
  import opened Python
  import opened FirestoreHistory
  import opened OpenAIClient
  import opened ResponseChunker
  import opened Discord

  /** A guild as far as the handler looks into it: each member's role ids. */
  datatype Guild = Guild(memberRoles: map<int, seq<int>>)

  /** A received message; users and roles are known by their ids, and
      `guild` is `None` in a direct message. */
  datatype Message = Message(
    authorIsBot: bool,
    authorId: int,
    channelId: int,
    content: string,
    mentions: seq<int>,
    roleMentions: seq<int>,
    attachments: seq<Attachment>,
    guild: Option<Guild>)

  const AskPrompt := "何か質問してください！"
  const ImageQuestion := "この画像について説明してください"
  const ImagePlaceholder := "[画像]"

  // ---------------------------------------------------------------------
  // Mention check
  // ---------------------------------------------------------------------

  /** The bot holds one of the roles the message mentions. */
  predicate RoleMentioned(bot: int, m: Message) {
    m.guild.Some? && bot in m.guild.value.memberRoles
    && exists r :: r in m.roleMentions && r in m.guild.value.memberRoles[bot]
  }

  /** `_is_bot_mentioned`. Without a bot user, reading its id to look it up
      in a guild raises `AttributeError`. */
  function MentionCheck(botUser: Option<int>, m: Message): Outcome<bool> {
    if botUser.Some? && botUser.value in m.mentions then Returned(true)
    else if m.guild.None? then Returned(false)
    else if botUser.None? then Raised("AttributeError")
    else Returned(RoleMentioned(botUser.value, m))
  }

  /** The check succeeds unless there is no bot user and the message is in a
      guild, and with a bot user it is true exactly for a direct mention or
      a mention of one of the bot's roles. */
  lemma MentionCheckMeaning(botUser: Option<int>, m: Message)
    ensures MentionCheck(botUser, m).Raised? <==> botUser.None? && m.guild.Some?
    ensures botUser.None? && m.guild.None? ==> MentionCheck(botUser, m) == Returned(false)
    ensures botUser.Some? ==>
      (MentionCheck(botUser, m) == Returned(true) <==> botUser.value in m.mentions || RoleMentioned(botUser.value, m))
  {
  }

  /** `_is_bot_mentioned`, with its early returns out of the loop over the
      mentioned roles. */
  method IsBotMentioned(botUser: Option<int>, m: Message) returns (r: Outcome<bool>)
    ensures r == MentionCheck(botUser, m)
  {
    if botUser.Some? && botUser.value in m.mentions {
      return Returned(true);
    }
    if m.guild.Some? {
      if botUser.None? {
        return Raised("AttributeError");
      }
      var bot := botUser.value;
      var members := m.guild.value.memberRoles;
      if bot in members {
        for i := 0 to |m.roleMentions|
          invariant forall j :: 0 <= j < i ==> m.roleMentions[j] !in members[bot]
        {
          if m.roleMentions[i] in members[bot] {
            var r := m.roleMentions[i];
            assert r in m.roleMentions && r in m.guild.value.memberRoles[bot];
            assert RoleMentioned(bot, m);
            return Returned(true);
          }
        }
      }
    }
    return Returned(false);
  }

  // ---------------------------------------------------------------------
  // Mention stripping
  // ---------------------------------------------------------------------

  function UserToken(id: int): string { "<@" + IntToString(id) + ">" }

  function NicknameToken(id: int): string { "<@!" + IntToString(id) + ">" }

  function RoleToken(id: int): string { "<@&" + IntToString(id) + ">" }

  /** The loop over the mentioned users: each one's two token forms are
      removed, in mention order. */
  function RemoveUserTokens(content: string, users: seq<int>): string
    decreases |users|
  {
    if users == [] then content
    else
      var id := users[|users| - 1];
      ReplaceAll(ReplaceAll(RemoveUserTokens(content, users[..|users| - 1]), UserToken(id), ""), NicknameToken(id), "")
  }

  /** The loop over the mentioned roles. */
  function RemoveRoleTokens(content: string, roles: seq<int>): string
    decreases |roles|
  {
    if roles == [] then content
    else ReplaceAll(RemoveRoleTokens(content, roles[..|roles| - 1]), RoleToken(roles[|roles| - 1]), "")
  }

  /** The message text the handler works with. */
  function CleanContent(m: Message): (text: string)
    ensures |text| <= |m.content|
    ensures text == "" || (!IsSpace(text[0]) && !IsSpace(text[|text| - 1]))
  {
    var raw := RemoveRoleTokens(RemoveUserTokens(m.content, m.mentions), m.roleMentions);
    RemoveTokensShortens(m);
    Strip(raw)
  }

  lemma {:induction false} RemoveTokensShortens(m: Message)
    ensures |RemoveRoleTokens(RemoveUserTokens(m.content, m.mentions), m.roleMentions)| <= |m.content|
  {
    RemoveUserTokensShortens(m.content, m.mentions);
    RemoveRoleTokensShortens(RemoveUserTokens(m.content, m.mentions), m.roleMentions);
  }

  lemma {:induction false} RemoveUserTokensShortens(content: string, users: seq<int>)
    ensures |RemoveUserTokens(content, users)| <= |content|
    decreases |users|
  {
    if users != [] {
      RemoveUserTokensShortens(content, users[..|users| - 1]);
    }
  }

  lemma {:induction false} RemoveRoleTokensShortens(content: string, roles: seq<int>)
    ensures |RemoveRoleTokens(content, roles)| <= |content|
    decreases |roles|
  {
    if roles != [] {
      RemoveRoleTokensShortens(content, roles[..|roles| - 1]);
    }
  }

  /** A token can only be found where the text has a `<`. */
  lemma RemoveAbsentToken(s: string, token: string)
    requires '<' !in s && token != "" && token[0] == '<'
    ensures ReplaceAll(s, token, "") == s
  {
    assert forall i :: OccursAt(s, token, i) ==> s[i] == s[i..i + |token|][0] == '<';
    RemoveAllUnchangedIff(s, token);
  }

  lemma {:induction false} RemoveUserTokensAbsent(s: string, users: seq<int>)
    requires '<' !in s
    ensures RemoveUserTokens(s, users) == s
    decreases |users|
  {
    if users != [] {
      var id := users[|users| - 1];
      RemoveUserTokensAbsent(s, users[..|users| - 1]);
      RemoveAbsentToken(s, UserToken(id));
      RemoveAbsentToken(s, NicknameToken(id));
    }
  }

  lemma {:induction false} RemoveRoleTokensAbsent(s: string, roles: seq<int>)
    requires '<' !in s
    ensures RemoveRoleTokens(s, roles) == s
    decreases |roles|
  {
    if roles != [] {
      RemoveRoleTokensAbsent(s, roles[..|roles| - 1]);
      RemoveAbsentToken(s, RoleToken(roles[|roles| - 1]));
    }
  }

  /** A message without any `<` only loses its surrounding whitespace. */
  lemma NoTokenOnlyStripped(m: Message)
    requires '<' !in m.content
    ensures CleanContent(m) == Strip(m.content)
  {
    RemoveUserTokensAbsent(m.content, m.mentions);
    RemoveRoleTokensAbsent(m.content, m.roleMentions);
  }

  /** A message mentioning only the bot, written as the bot's token
      followed by text without tokens, is that text stripped. */
  lemma MentionTokenStripped(bot: int, rest: string, m: Message)
    requires '<' !in rest && m.content == UserToken(bot) + rest
    requires m.mentions == [bot] && m.roleMentions == []
    ensures CleanContent(m) == Strip(rest)
  {
    var token := UserToken(bot);
    assert m.content[..|token|] == token && m.content[|token|..] == rest;
    assert ReplaceAll(m.content, token, "") == rest by {
      RemoveAbsentToken(rest, token);
    }
    RemoveAbsentToken(rest, NicknameToken(bot));
    assert [bot][..0] == [];
    assert RemoveUserTokens(m.content, m.mentions) == rest;
  }

  /** Each replace is a single pass, so a token that the removal itself
      assembles survives: `<@<@1>1>` mentioning user 1 becomes `<@1>`. */
  lemma SinglePassLeavesToken(m: Message)
    requires m.content == "<@<@1>1>" && m.mentions == [1] && m.roleMentions == []
    ensures CleanContent(m) == "<@1>" == UserToken(1)
  {
    assert IntToString(1) == "1";
    assert UserToken(1) == "<@1>";
    assert [1][..0] == [];
    RemoveAllIsSinglePass();
    var nick := NicknameToken(1);
    assert |nick| == 5;
    assert !Contains("<@1>", nick);
    RemoveAllUnchangedIff("<@1>", nick);
    StripUnpadded("<@1>");
  }

  /** The stripping loops of `on_message`, then `strip()`. */
  method StripMentions(m: Message) returns (content: string)
    ensures content == CleanContent(m)
  {
    var users := StripUserTokens(m.content, m.mentions);
    var roles := StripRoleTokens(users, m.roleMentions);
    content := Strip(roles);
  }

  /** The loop over `message.mentions`. */
  method StripUserTokens(text: string, users: seq<int>) returns (content: string)
    ensures content == RemoveUserTokens(text, users)
  {
    content := text;
    for i := 0 to |users|
      invariant content == RemoveUserTokens(text, users[..i])
    {
      assert users[..i + 1][..i] == users[..i];
      content := ReplaceAll(content, UserToken(users[i]), "");
      content := ReplaceAll(content, NicknameToken(users[i]), "");
    }
    assert users[..|users|] == users;
  }

  /** The loop over `message.role_mentions`. */
  method StripRoleTokens(text: string, roles: seq<int>) returns (content: string)
    ensures content == RemoveRoleTokens(text, roles)
  {
    content := text;
    for i := 0 to |roles|
      invariant content == RemoveRoleTokens(text, roles[..i])
    {
      assert roles[..i + 1][..i] == roles[..i];
      content := ReplaceAll(content, RoleToken(roles[i]), "");
    }
    assert roles[..|roles|] == roles;
  }

  // ---------------------------------------------------------------------
  // Image attachments
  // ---------------------------------------------------------------------

  /** The URLs of the image attachments, in attachment order. */
  function ImageUrls(attachments: seq<Attachment>): (urls: seq<string>)
    ensures |urls| <= |attachments|
    decreases |attachments|
  {
    if attachments == [] then []
    else
      var a := attachments[|attachments| - 1];
      ImageUrls(attachments[..|attachments| - 1]) + (if IsImage(a) then [a.url] else [])
  }

  /** Exactly the image attachments contribute a URL. */
  lemma {:induction false} ImageUrlsMembers(attachments: seq<Attachment>, url: string)
    ensures url in ImageUrls(attachments) <==>
      exists i :: 0 <= i < |attachments| && IsImage(attachments[i]) && attachments[i].url == url
    decreases |attachments|
  {
    if attachments != [] {
      var init, a := attachments[..|attachments| - 1], attachments[|attachments| - 1];
      ImageUrlsMembers(init, url);
      if url in ImageUrls(attachments) && url !in ImageUrls(init) {
        assert IsImage(a) && a.url == url;
        assert IsImage(attachments[|attachments| - 1]);
      }
      if exists i :: 0 <= i < |attachments| && IsImage(attachments[i]) && attachments[i].url == url {
        var i :| 0 <= i < |attachments| && IsImage(attachments[i]) && attachments[i].url == url;
        if i < |init| {
          assert init[i] == attachments[i];
        }
      }
    }
  }

  /** The filter keeps the order of the attachments. */
  lemma {:induction false} ImageUrlsConcat(a: seq<Attachment>, b: seq<Attachment>)
    ensures ImageUrls(a + b) == ImageUrls(a) + ImageUrls(b)
    decreases |b|
  {
    if b == [] {
      assert a + b == a;
    } else {
      assert (a + b)[..|a + b| - 1] == a + b[..|b| - 1];
      assert (a + b)[|a + b| - 1] == b[|b| - 1];
      ImageUrlsConcat(a, b[..|b| - 1]);
    }
  }

  /** The loop of `on_message` that collects the image URLs. */
  method CollectImageUrls(attachments: seq<Attachment>) returns (urls: seq<string>)
    ensures urls == ImageUrls(attachments)
  {
    urls := [];
    for i := 0 to |attachments|
      invariant urls == ImageUrls(attachments[..i])
    {
      assert attachments[..i + 1][..i] == attachments[..i];
      if attachments[i].contentType.Some? && StartsWith(attachments[i].contentType.value, "image/") {
        urls := urls + [attachments[i].url];
      }
    }
    assert attachments[..|attachments|] == attachments;
  }

  // ---------------------------------------------------------------------
  // Delivery
  // ---------------------------------------------------------------------

  /** The first chunk is a reply, the others plain channel messages. */
  function Delivery(chunks: seq<string>): (effects: seq<Effect>)
    ensures |effects| == |chunks|
    ensures |chunks| > 0 ==> effects[0] == Replied(chunks[0])
    ensures forall i :: 0 < i < |chunks| ==> effects[i] == ChannelSent(chunks[i])
    decreases |chunks|
  {
    if chunks == [] then []
    else
      var last := chunks[|chunks| - 1];
      Delivery(chunks[..|chunks| - 1]) + [if |chunks| == 1 then Replied(last) else ChannelSent(last)]
  }

  /** An answer that fits is sent whole, as the one reply. */
  lemma ShortAnswerOneReply(response: string)
    requires |response| <= MaxMessageLength
    ensures Delivery(Outgoing(response, MaxMessageLength)) == [Replied(response)]
  {
    assert Delivery(Outgoing(response, MaxMessageLength))[0] == Replied(response);
  }

  // ---------------------------------------------------------------------
  // The whole handler
  // ---------------------------------------------------------------------

  /** The text the model is asked and the text the history keeps. */
  function ModelText(content: string): string { if content != "" then content else ImageQuestion }

  function StoredText(content: string): string { if content != "" then content else ImagePlaceholder }

  /** A message the handler answers rather than ignores. */
  predicate Addressed(botUser: Option<int>, m: Message) {
    !m.authorIsBot && MentionCheck(botUser, m) == Returned(true)
  }

  /** A message that goes on to the model: addressed, and with text left
      after stripping or with an attachment. */
  predicate Asks(botUser: Option<int>, m: Message) {
    Addressed(botUser, m) && (CleanContent(m) != "" || m.attachments != [])
  }

  /** The request `on_message` sends for a message that gets that far. */
  function MessageRequest(m: Message, docs: map<string, Document>, fetch: string -> FetchResponse): seq<ChatMessage> {
    Request(ModelText(CleanContent(m)), Some(StoredMessages(docs, DocId(m.channelId, m.authorId))),
            UrlsArgument(ImageUrls(m.attachments)), fetch)
  }

  /** The effects of the part of `on_message` inside its `try`: history
      read, model asked, then what follows the model's reply. */
  function AnswerEffects(id: string, request: seq<ChatMessage>, storedText: string, reply: Outcome<string>): seq<Effect> {
    [HistoryRead(id), ChatRequested(request)] + ReplyEffects(id, storedText, reply)
  }

  /** What follows the reply: the error reply, or the exchange stored and
      the answer delivered. */
  function ReplyEffects(id: string, storedText: string, reply: Outcome<string>): seq<Effect> {
    match reply
    case Raised(e) => [Replied(ErrorNotice(e))]
    case Returned(answer) => [HistoryAppended(id, storedText, answer)] + Delivery(Outgoing(answer, MaxMessageLength))
  }

  /** The store after that part: the exchange is added only once the
      model has answered. */
  function AnswerDocs(docs: map<string, Document>, maxHistory: int, channelId: int, authorId: int,
                      storedText: string, reply: Outcome<string>): map<string, Document>
  {
    match reply
    case Raised(_) => docs
    case Returned(answer) => WithConversation(docs, channelId, authorId, storedText, answer, maxHistory)
  }

  /** The effects of `on_message`. */
  function OnMessageEffects(botUser: Option<int>, docs: map<string, Document>, m: Message,
                            fetch: string -> FetchResponse, complete: seq<ChatMessage> -> Completion): seq<Effect>
  {
    if !Addressed(botUser, m) then []
    else if !Asks(botUser, m) then [Replied(AskPrompt)]
    else
      var request := MessageRequest(m, docs, fetch);
      AnswerEffects(DocId(m.channelId, m.authorId), request, StoredText(CleanContent(m)), ReplyOf(complete(request)))
  }

  /** The history store after `on_message`. */
  function OnMessageDocs(botUser: Option<int>, docs: map<string, Document>, maxHistory: int, m: Message,
                         fetch: string -> FetchResponse, complete: seq<ChatMessage> -> Completion): map<string, Document>
  {
    if !Asks(botUser, m) then docs
    else
      AnswerDocs(docs, maxHistory, m.channelId, m.authorId, StoredText(CleanContent(m)),
                 ReplyOf(complete(MessageRequest(m, docs, fetch))))
  }

  /** Messages from bots are ignored: nothing is sent, asked or stored. */
  lemma BotAuthorIgnored(botUser: Option<int>, docs: map<string, Document>, maxHistory: int, m: Message,
                         fetch: string -> FetchResponse, complete: seq<ChatMessage> -> Completion)
    requires m.authorIsBot
    ensures OnMessageEffects(botUser, docs, m, fetch, complete) == []
    ensures OnMessageDocs(botUser, docs, maxHistory, m, fetch, complete) == docs
  {
  }

  /** A message that does not mention the bot, or whose check raises, is
      ignored in the same way. */
  lemma UnmentionedIgnored(botUser: Option<int>, docs: map<string, Document>, maxHistory: int, m: Message,
                           fetch: string -> FetchResponse, complete: seq<ChatMessage> -> Completion)
    requires botUser.Some? ==> botUser.value !in m.mentions && !RoleMentioned(botUser.value, m)
    ensures OnMessageEffects(botUser, docs, m, fetch, complete) == []
    ensures OnMessageDocs(botUser, docs, maxHistory, m, fetch, complete) == docs
  {
    assert MentionCheck(botUser, m) != Returned(true);
    assert !Addressed(botUser, m);
  }

  /** A mention with nothing left after stripping and no attachment gets
      the prompt reply and nothing else. */
  lemma EmptyMentionPrompted(botUser: int, docs: map<string, Document>, maxHistory: int, m: Message,
                             fetch: string -> FetchResponse, complete: seq<ChatMessage> -> Completion)
    requires !m.authorIsBot && (botUser in m.mentions || RoleMentioned(botUser, m))
    requires CleanContent(m) == "" && m.attachments == []
    ensures OnMessageEffects(Some(botUser), docs, m, fetch, complete) == [Replied(AskPrompt)]
    ensures OnMessageDocs(Some(botUser), docs, maxHistory, m, fetch, complete) == docs
  {
  }

  /** The usual blank mention: the bot's token followed by whitespace only,
      with no attachment, gets the prompt reply and nothing else. */
  lemma BareMentionPrompted(botUser: int, rest: string, docs: map<string, Document>, maxHistory: int, m: Message,
                            fetch: string -> FetchResponse, complete: seq<ChatMessage> -> Completion)
    requires !m.authorIsBot && m.mentions == [botUser] && m.roleMentions == [] && m.attachments == []
    requires m.content == UserToken(botUser) + rest
    requires forall i :: 0 <= i < |rest| ==> IsSpace(rest[i])
    ensures OnMessageEffects(Some(botUser), docs, m, fetch, complete) == [Replied(AskPrompt)]
    ensures OnMessageDocs(Some(botUser), docs, maxHistory, m, fetch, complete) == docs
  {
    assert '<' !in rest by {
      assert forall i :: 0 <= i < |rest| ==> rest[i] != '<';
    }
    MentionTokenStripped(botUser, rest, m);
    StripEmptyIff(rest);
    EmptyMentionPrompted(botUser, docs, maxHistory, m, fetch, complete);
  }

  /** When the model call fails, the error is replied and nothing is stored. */
  lemma FailedChatStoresNothing(botUser: int, docs: map<string, Document>, maxHistory: int, m: Message,
                                fetch: string -> FetchResponse, complete: seq<ChatMessage> -> Completion)
    requires !m.authorIsBot && (botUser in m.mentions || RoleMentioned(botUser, m))
    requires CleanContent(m) != "" || m.attachments != []
    requires complete(MessageRequest(m, docs, fetch)).CompletionFailed?
    ensures var request := MessageRequest(m, docs, fetch);
      OnMessageEffects(Some(botUser), docs, m, fetch, complete)
      == [HistoryRead(DocId(m.channelId, m.authorId)), ChatRequested(request),
          Replied(ErrorNotice(complete(request).exceptionType))]
    ensures OnMessageDocs(Some(botUser), docs, maxHistory, m, fetch, complete) == docs
  {
    var request := MessageRequest(m, docs, fetch);
    var e := complete(request).exceptionType;
    assert ReplyOf(complete(request)) == Raised(e);
    AnswerEffectsOfError(DocId(m.channelId, m.authorId), request, StoredText(CleanContent(m)), e);
  }

  /** The model gets the system prompt, the conversation's stored turns,
      then the cleaned text (or the image question when there is none) with
      the image URLs of the attachments. */
  lemma MessageRequestShape(m: Message, docs: map<string, Document>, fetch: string -> FetchResponse)
    ensures var request := MessageRequest(m, docs, fetch);
      var stored := StoredMessages(docs, DocId(m.channelId, m.authorId));
      |request| == |stored| + 2
      && request[0] == ChatMessage(SystemRole, PlainText(Config.SystemPrompt))
      && (forall i :: 0 <= i < |stored| ==> request[i + 1] == ChatMessage(stored[i].role, PlainText(stored[i].content)))
      && request[|request| - 1]
         == ChatMessage(UserRole, UserContent(ModelText(CleanContent(m)), UrlsArgument(ImageUrls(m.attachments)), fetch))
  {
    RequestShape(ModelText(CleanContent(m)), StoredMessages(docs, DocId(m.channelId, m.authorId)),
                 UrlsArgument(ImageUrls(m.attachments)), fetch);
  }

  /** An answered message: history read, model asked, exchange stored, then
      the answer delivered, in that order. */
  lemma AnsweredEffects(botUser: int, docs: map<string, Document>, m: Message,
                        fetch: string -> FetchResponse, complete: seq<ChatMessage> -> Completion)
    requires !m.authorIsBot && (botUser in m.mentions || RoleMentioned(botUser, m))
    requires CleanContent(m) != "" || m.attachments != []
    requires complete(MessageRequest(m, docs, fetch)).Completed?
    ensures var request := MessageRequest(m, docs, fetch);
      var reply := complete(request).content.GetOr("");
      var id := DocId(m.channelId, m.authorId);
      OnMessageEffects(Some(botUser), docs, m, fetch, complete)
      == [HistoryRead(id), ChatRequested(request), HistoryAppended(id, StoredText(CleanContent(m)), reply)]
         + Delivery(Outgoing(reply, MaxMessageLength))
  {
    var request := MessageRequest(m, docs, fetch);
    var reply := complete(request).content.GetOr("");
    assert ReplyOf(complete(request)) == Returned(reply);
    AnswerEffectsOfReply(DocId(m.channelId, m.authorId), request, StoredText(CleanContent(m)), reply);
  }

  lemma AnswerEffectsOfError(id: string, request: seq<ChatMessage>, storedText: string, e: string)
    ensures AnswerEffects(id, request, storedText, Raised(e))
         == [HistoryRead(id), ChatRequested(request), Replied(ErrorNotice(e))]
  {
  }

  lemma AnswerEffectsOfReply(id: string, request: seq<ChatMessage>, storedText: string, answer: string)
    ensures AnswerEffects(id, request, storedText, Returned(answer))
         == [HistoryRead(id), ChatRequested(request), HistoryAppended(id, storedText, answer)]
            + Delivery(Outgoing(answer, MaxMessageLength))
  {
  }

  /** After an answer the conversation's stored list is the old one with
      the question (or the image placeholder) and the answer added, so by
      `ConversationEndsWithExchange` it ends with that exchange, within the
      bound; every other conversation is as it was. */
  lemma AnswerStored(docs: map<string, Document>, maxHistory: int, m: Message, answer: string,
                     otherChannel: int, otherUser: int)
    ensures var after := AnswerDocs(docs, maxHistory, m.channelId, m.authorId, StoredText(CleanContent(m)), Returned(answer));
      StoredMessages(after, DocId(m.channelId, m.authorId))
      == AfterConversation(StoredMessages(docs, DocId(m.channelId, m.authorId)), StoredText(CleanContent(m)), answer, maxHistory)
    ensures (otherChannel, otherUser) != (m.channelId, m.authorId) ==>
      StoredMessages(AnswerDocs(docs, maxHistory, m.channelId, m.authorId, StoredText(CleanContent(m)), Returned(answer)),
                     DocId(otherChannel, otherUser))
      == StoredMessages(docs, DocId(otherChannel, otherUser))
  {
    ConversationStored(docs, m.channelId, m.authorId, StoredText(CleanContent(m)), answer, maxHistory);
    if (otherChannel, otherUser) != (m.channelId, m.authorId) {
      ConversationLeavesOthers(docs, m.channelId, m.authorId, StoredText(CleanContent(m)), answer, maxHistory,
                               otherChannel, otherUser);
    }
  }

  /** The `MessageHandler` cog. The model and the image fetch are the
      functions it is given; `log` records what it has done. */
  class MessageHandler {
    const botUser: Option<int>
    const history: ConversationHistory
    const fetch: string -> FetchResponse
    const complete: seq<ChatMessage> -> Completion
    var log: seq<Effect>

    constructor(botUser: Option<int>, history: ConversationHistory,
                fetch: string -> FetchResponse, complete: seq<ChatMessage> -> Completion)
      ensures this.botUser == botUser && this.history == history
      ensures this.fetch == fetch && this.complete == complete && log == []
    {
      this.botUser := botUser;
      this.history := history;
      this.fetch := fetch;
      this.complete := complete;
      log := [];
    }

    /** `_send_response`: the whole answer as a reply when it fits, else its
        chunks, the first as a reply and the rest as channel messages. */
    method SendResponse(response: string)
      modifies this
      ensures log == old(log) + Delivery(Outgoing(response, MaxMessageLength))
    {
      if |response| <= MaxMessageLength {
        log := log + [Replied(response)];
        return;
      }
      var chunks := ChunkResponse(response, MaxMessageLength);
      for i := 0 to |chunks|
        invariant log == old(log) + Delivery(chunks[..i])
      {
        assert chunks[..i + 1][..i] == chunks[..i];
        if i == 0 {
          log := log + [Replied(chunks[i])];
        } else {
          log := log + [ChannelSent(chunks[i])];
        }
      }
      assert chunks[..|chunks|] == chunks;
    }

    /** The `try` block of `on_message`, for the stripped text `content`. */
    method Answer(m: Message, content: string)
      requires content == CleanContent(m)
      modifies this, history
      ensures var request := MessageRequest(m, old(history.docs), fetch);
        var reply := ReplyOf(complete(request));
        log == old(log) + AnswerEffects(DocId(m.channelId, m.authorId), request, StoredText(content), reply)
        && history.docs == AnswerDocs(old(history.docs), history.maxHistory, m.channelId, m.authorId, StoredText(content), reply)
    {
      ghost var log0 := log;
      var id := DocId(m.channelId, m.authorId);
      var imageUrls := CollectImageUrls(m.attachments);
      var stored := history.GetHistory(m.channelId, m.authorId);
      log := log + [HistoryRead(id)];
      var request, reply := Chat(if content != "" then content else ImageQuestion, Some(stored),
                                 UrlsArgument(imageUrls), fetch, complete);
      log := log + [ChatRequested(request)];
      assert request == MessageRequest(m, old(history.docs), fetch);
      ghost var head := [HistoryRead(id), ChatRequested(request)];
      assert log == log0 + head;
      Conclude(m.channelId, m.authorId, if content != "" then content else ImagePlaceholder, reply);
      AppendAssociative(log0, head, ReplyEffects(id, StoredText(content), reply));
    }

    /** The rest of that block once the model has replied: the error reply,
        or the exchange stored and the answer sent. */
    method Conclude(channelId: int, authorId: int, storedText: string, reply: Outcome<string>)
      modifies this, history
      ensures log == old(log) + ReplyEffects(DocId(channelId, authorId), storedText, reply)
      ensures history.docs == AnswerDocs(old(history.docs), history.maxHistory, channelId, authorId, storedText, reply)
    {
      match reply
      case Raised(e) =>
        log := log + [Replied(ErrorNotice(e))];
      case Returned(answer) =>
        history.AddConversation(channelId, authorId, storedText, answer);
        log := log + [HistoryAppended(DocId(channelId, authorId), storedText, answer)];
        SendResponse(answer);
        AppendAssociative(old(log), [HistoryAppended(DocId(channelId, authorId), storedText, answer)],
                          Delivery(Outgoing(answer, MaxMessageLength)));
    }

    /** `on_message`. */
    method OnMessage(m: Message)
      modifies this, history
      ensures log == old(log) + OnMessageEffects(botUser, old(history.docs), m, fetch, complete)
      ensures history.docs == OnMessageDocs(botUser, old(history.docs), history.maxHistory, m, fetch, complete)
    {
      if m.authorIsBot {
        return;
      }
      var mentioned := IsBotMentioned(botUser, m);
      if mentioned != Returned(true) {
        return;
      }
      var content := StripMentions(m);
      if content == "" && m.attachments == [] {
        log := log + [Replied(AskPrompt)];
        return;
      }
      Answer(m, content);
    }
  }
}
