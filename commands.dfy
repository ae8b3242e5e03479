/** The slash commands. `/ask` defers the interaction, asks the model the
    question with at most one image, stores the exchange and sends the answer
    as follow-ups, split the same way as in the mention handler. `/clear`
    deletes the conversation's history and says, privately, whether there
    was any. */
module Commands {
  import opened Python
  import opened FirestoreHistory
  import opened OpenAIClient
  import opened ResponseChunker
  import opened Discord
  import Events

  /** An interaction as far as the commands look into it. */
  datatype Interaction = Interaction(channelId: int, userId: int)

  const ClearedNotice := "会話履歴をクリアしました！"
  const NothingToClear := "クリアする履歴がありませんでした。"

  // ---------------------------------------------------------------------
  // /ask
  // ---------------------------------------------------------------------

  /** The image URLs of `/ask`: the optional attachment's URL, when the
      attachment is an image. */
  function AskImageUrls(image: Option<Attachment>): (urls: seq<string>)
    ensures |urls| <= 1
    ensures urls != [] <==> image.Some? && IsImage(image.value)
    ensures urls != [] ==> urls[0] == image.value.url
  {
    if image.Some? && image.value.contentType.Some? && StartsWith(image.value.contentType.value, "image/")
    then [image.value.url]
    else []
  }

  /** So the model is given no image list unless the attachment is an image,
      and then exactly its URL. */
  lemma AskImageArgument(image: Option<Attachment>)
    ensures UrlsArgument(AskImageUrls(image)).Some? <==> image.Some? && IsImage(image.value)
    ensures UrlsArgument(AskImageUrls(image)).Some? ==> UrlsArgument(AskImageUrls(image)).value == [image.value.url]
  {
    var urls := AskImageUrls(image);
    if urls != [] {
      assert urls == [urls[0]];
    }
  }

  /** Every message of the answer as a follow-up, in order. */
  function FollowUps(chunks: seq<string>): (effects: seq<Effect>)
    ensures |effects| == |chunks|
    ensures forall i :: 0 <= i < |chunks| ==> effects[i] == FollowedUp(chunks[i], false)
    decreases |chunks|
  {
    if chunks == [] then []
    else FollowUps(chunks[..|chunks| - 1]) + [FollowedUp(chunks[|chunks| - 1], false)]
  }

  /** `/ask` sends the same texts as the mention handler, in the same order;
      only the way each is sent differs. */
  lemma SameMessagesAsMention(response: string)
    ensures var asked, mentioned := FollowUps(Outgoing(response, MaxMessageLength)), Events.Delivery(Outgoing(response, MaxMessageLength));
      |asked| == |mentioned| && forall i :: 0 <= i < |asked| ==> asked[i].text == mentioned[i].text
  {
    var chunks := Outgoing(response, MaxMessageLength);
    var asked, mentioned := FollowUps(chunks), Events.Delivery(chunks);
    forall i | 0 <= i < |asked|
      ensures asked[i].text == mentioned[i].text
    {
      assert asked[i] == FollowedUp(chunks[i], false);
      if i == 0 {
        assert mentioned[i] == Replied(chunks[i]);
      } else {
        assert mentioned[i] == ChannelSent(chunks[i]);
      }
    }
  }

  /** An answer that fits is sent whole, in one follow-up. */
  lemma ShortAnswerOneFollowUp(response: string)
    requires |response| <= MaxMessageLength
    ensures FollowUps(Outgoing(response, MaxMessageLength)) == [FollowedUp(response, false)]
  {
    assert FollowUps(Outgoing(response, MaxMessageLength))[0] == FollowedUp(response, false);
  }

  /** The request `/ask` sends: the question itself, the conversation's
      stored turns, and the image when there is one. */
  function AskRequest(i: Interaction, question: string, image: Option<Attachment>,
                      docs: map<string, Document>, fetch: string -> FetchResponse): seq<ChatMessage>
  {
    Request(question, Some(StoredMessages(docs, DocId(i.channelId, i.userId))), UrlsArgument(AskImageUrls(image)), fetch)
  }

  /** What follows the model's reply: the error follow-up, or the exchange
      stored and the answer sent. */
  function AskReplyEffects(id: string, question: string, reply: Outcome<string>): seq<Effect> {
    match reply
    case Raised(e) => [FollowedUp(ErrorNotice(e), false)]
    case Returned(answer) => [HistoryAppended(id, question, answer)] + FollowUps(Outgoing(answer, MaxMessageLength))
  }

  /** The effects of `/ask`: deferred with a thinking indicator, history
      read, model asked, then what follows the reply. */
  function AskEffects(i: Interaction, question: string, image: Option<Attachment>, docs: map<string, Document>,
                      fetch: string -> FetchResponse, complete: seq<ChatMessage> -> Completion): seq<Effect>
  {
    var request := AskRequest(i, question, image, docs, fetch);
    [Deferred(true, false), HistoryRead(DocId(i.channelId, i.userId)), ChatRequested(request)]
    + AskReplyEffects(DocId(i.channelId, i.userId), question, ReplyOf(complete(request)))
  }

  /** The history store after `/ask`: the exchange is added only once the
      model has answered. */
  function AskDocs(i: Interaction, question: string, reply: Outcome<string>,
                   docs: map<string, Document>, maxHistory: int): map<string, Document>
  {
    match reply
    case Raised(_) => docs
    case Returned(answer) => WithConversation(docs, i.channelId, i.userId, question, answer, maxHistory)
  }

  /** A failed model call ends `/ask` with the error follow-up. */
  lemma AskEffectsOfError(i: Interaction, question: string, image: Option<Attachment>, docs: map<string, Document>,
                          fetch: string -> FetchResponse, complete: seq<ChatMessage> -> Completion, e: string)
    requires ReplyOf(complete(AskRequest(i, question, image, docs, fetch))) == Raised(e)
    ensures AskEffects(i, question, image, docs, fetch, complete)
         == [Deferred(true, false), HistoryRead(DocId(i.channelId, i.userId)),
             ChatRequested(AskRequest(i, question, image, docs, fetch)), FollowedUp(ErrorNotice(e), false)]
  {
  }

  /** An answered `/ask`: deferred, history read, model asked, exchange
      stored, then the answer sent as follow-ups, in that order. */
  lemma AskEffectsOfAnswer(i: Interaction, question: string, image: Option<Attachment>, docs: map<string, Document>,
                           fetch: string -> FetchResponse, complete: seq<ChatMessage> -> Completion, answer: string)
    requires ReplyOf(complete(AskRequest(i, question, image, docs, fetch))) == Returned(answer)
    ensures AskEffects(i, question, image, docs, fetch, complete)
         == [Deferred(true, false), HistoryRead(DocId(i.channelId, i.userId)),
             ChatRequested(AskRequest(i, question, image, docs, fetch)),
             HistoryAppended(DocId(i.channelId, i.userId), question, answer)]
            + FollowUps(Outgoing(answer, MaxMessageLength))
  {
    var id := DocId(i.channelId, i.userId);
    var head := [Deferred(true, false), HistoryRead(id), ChatRequested(AskRequest(i, question, image, docs, fetch))];
    AppendAssociative(head, [HistoryAppended(id, question, answer)], FollowUps(Outgoing(answer, MaxMessageLength)));
  }

  /** When the model call fails, the error is sent as a follow-up and
      nothing is stored. */
  lemma FailedAskStoresNothing(i: Interaction, question: string, image: Option<Attachment>, docs: map<string, Document>,
                               maxHistory: int, fetch: string -> FetchResponse, complete: seq<ChatMessage> -> Completion)
    requires complete(AskRequest(i, question, image, docs, fetch)).CompletionFailed?
    ensures var request := AskRequest(i, question, image, docs, fetch);
      AskEffects(i, question, image, docs, fetch, complete)
      == [Deferred(true, false), HistoryRead(DocId(i.channelId, i.userId)), ChatRequested(request),
          FollowedUp(ErrorNotice(complete(request).exceptionType), false)]
    ensures AskDocs(i, question, ReplyOf(complete(AskRequest(i, question, image, docs, fetch))), docs, maxHistory) == docs
  {
    var request := AskRequest(i, question, image, docs, fetch);
    AskEffectsOfError(i, question, image, docs, fetch, complete, complete(request).exceptionType);
  }

  /** The model is asked the question exactly as typed, and the history
      keeps it exactly as typed: there is no fallback text. The answer is
      stored after it and every other conversation is left as it was. */
  lemma AskStoresQuestion(i: Interaction, question: string, image: Option<Attachment>, docs: map<string, Document>,
                          maxHistory: int, fetch: string -> FetchResponse, answer: string,
                          otherChannel: int, otherUser: int)
    ensures var request := AskRequest(i, question, image, docs, fetch);
      request[|request| - 1] == ChatMessage(UserRole, UserContent(question, UrlsArgument(AskImageUrls(image)), fetch))
    ensures StoredMessages(AskDocs(i, question, Returned(answer), docs, maxHistory), DocId(i.channelId, i.userId))
         == AfterConversation(StoredMessages(docs, DocId(i.channelId, i.userId)), question, answer, maxHistory)
    ensures (otherChannel, otherUser) != (i.channelId, i.userId) ==>
      StoredMessages(AskDocs(i, question, Returned(answer), docs, maxHistory), DocId(otherChannel, otherUser))
      == StoredMessages(docs, DocId(otherChannel, otherUser))
  {
    RequestShape(question, StoredMessages(docs, DocId(i.channelId, i.userId)), UrlsArgument(AskImageUrls(image)), fetch);
    ConversationStored(docs, i.channelId, i.userId, question, answer, maxHistory);
    if (otherChannel, otherUser) != (i.channelId, i.userId) {
      ConversationLeavesOthers(docs, i.channelId, i.userId, question, answer, maxHistory, otherChannel, otherUser);
    }
  }

  // ---------------------------------------------------------------------
  // /clear
  // ---------------------------------------------------------------------

  /** The effects of `/clear`: deferred privately, the record deleted, then
      a private follow-up saying whether there was one. */
  function ClearEffects(i: Interaction, docs: map<string, Document>): seq<Effect> {
    var id := DocId(i.channelId, i.userId);
    [Deferred(false, true), HistoryCleared(id), FollowedUp(if id in docs then ClearedNotice else NothingToClear, true)]
  }

  /** The confirmation is given exactly when there was a record; clearing
      twice in a row finds nothing the second time. */
  lemma ClearReply(i: Interaction, docs: map<string, Document>)
    ensures ClearEffects(i, docs)[2] == FollowedUp(ClearedNotice, true) <==> DocId(i.channelId, i.userId) in docs
    ensures ClearEffects(i, docs)[2] == FollowedUp(NothingToClear, true) <==> DocId(i.channelId, i.userId) !in docs
    ensures ClearEffects(i, WithoutConversation(docs, i.channelId, i.userId))[2] == FollowedUp(NothingToClear, true)
  {
    assert ClearedNotice != NothingToClear by {
      assert ClearedNotice[0] != NothingToClear[0];
    }
  }

  // ---------------------------------------------------------------------
  // The cog
  // ---------------------------------------------------------------------

  /** The `SlashCommands` cog. The model and the image fetch are the
      functions it is given; `log` records what it has done. */
  class SlashCommands {
    const history: ConversationHistory
    const fetch: string -> FetchResponse
    const complete: seq<ChatMessage> -> Completion
    var log: seq<Effect>

    constructor(history: ConversationHistory, fetch: string -> FetchResponse, complete: seq<ChatMessage> -> Completion)
      ensures this.history == history && this.fetch == fetch && this.complete == complete && log == []
    {
      this.history := history;
      this.fetch := fetch;
      this.complete := complete;
      log := [];
    }

    /** `_send_response`: the whole answer when it fits, else its chunks,
        each as a follow-up. */
    method SendResponse(response: string)
      modifies this
      ensures log == old(log) + FollowUps(Outgoing(response, MaxMessageLength))
    {
      if |response| <= MaxMessageLength {
        log := log + [FollowedUp(response, false)];
        return;
      }
      var chunks := ChunkResponse(response, MaxMessageLength);
      for k := 0 to |chunks|
        invariant log == old(log) + FollowUps(chunks[..k])
      {
        assert chunks[..k + 1][..k] == chunks[..k];
        log := log + [FollowedUp(chunks[k], false)];
      }
      assert chunks[..|chunks|] == chunks;
    }

    /** `ask`. */
    method Ask(i: Interaction, question: string, image: Option<Attachment>)
      modifies this, history
      ensures log == old(log) + AskEffects(i, question, image, old(history.docs), fetch, complete)
      ensures history.docs == AskDocs(i, question, ReplyOf(complete(AskRequest(i, question, image, old(history.docs), fetch))),
                                      old(history.docs), history.maxHistory)
    {
      ghost var log0 := log;
      log := log + [Deferred(true, false)];
      var imageUrls: seq<string> := [];
      if image.Some? && image.value.contentType.Some? && StartsWith(image.value.contentType.value, "image/") {
        imageUrls := imageUrls + [image.value.url];
      }
      assert imageUrls == AskImageUrls(image);
      var id := DocId(i.channelId, i.userId);
      var stored := history.GetHistory(i.channelId, i.userId);
      log := log + [HistoryRead(id)];
      var request, reply := Chat(question, Some(stored), UrlsArgument(imageUrls), fetch, complete);
      log := log + [ChatRequested(request)];
      assert request == AskRequest(i, question, image, old(history.docs), fetch) by {
        assert stored == StoredMessages(old(history.docs), id);
      }
      ghost var head := [Deferred(true, false), HistoryRead(id), ChatRequested(request)];
      assert log == log0 + head;
      Conclude(i, question, reply);
      AppendAssociative(log0, head, AskReplyEffects(id, question, reply));
    }

    /** The rest of the `try` of `ask` once the model has replied. */
    method Conclude(i: Interaction, question: string, reply: Outcome<string>)
      modifies this, history
      ensures log == old(log) + AskReplyEffects(DocId(i.channelId, i.userId), question, reply)
      ensures history.docs == AskDocs(i, question, reply, old(history.docs), history.maxHistory)
    {
      match reply
      case Raised(e) =>
        log := log + [FollowedUp(ErrorNotice(e), false)];
      case Returned(answer) =>
        history.AddConversation(i.channelId, i.userId, question, answer);
        log := log + [HistoryAppended(DocId(i.channelId, i.userId), question, answer)];
        SendResponse(answer);
        AppendAssociative(old(log), [HistoryAppended(DocId(i.channelId, i.userId), question, answer)],
                          FollowUps(Outgoing(answer, MaxMessageLength)));
    }

    /** `clear`. */
    method Clear(i: Interaction)
      modifies this, history
      ensures log == old(log) + ClearEffects(i, old(history.docs))
      ensures history.docs == WithoutConversation(old(history.docs), i.channelId, i.userId)
    {
      log := log + [Deferred(false, true)];
      var cleared := history.ClearHistory(i.channelId, i.userId);
      log := log + [HistoryCleared(DocId(i.channelId, i.userId))];
      if cleared {
        log := log + [FollowedUp(ClearedNotice, true)];
      } else {
        log := log + [FollowedUp(NothingToClear, true)];
      }
    }
  }
}
