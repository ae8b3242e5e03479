/** What the handlers see of Discord and what they do to it. Attachments
    carry their URL and content type. Every outward action (a reply, a
    channel message, a deferred interaction response, a follow-up) and every
    call to the history store or the model is recorded, in order, as an
    `Effect`. */
module Discord {
  import opened Python
  import opened OpenAIClient

  datatype Attachment = Attachment(url: string, contentType: Option<string>)

  /** `attachment.content_type and attachment.content_type.startswith("image/")` */
  predicate IsImage(a: Attachment) {
    a.contentType.Some? && StartsWith(a.contentType.value, "image/")
  }

  datatype Effect =
    | Replied(text: string)                       // message.reply(text)
    | ChannelSent(text: string)                   // message.channel.send(text)
    | Deferred(thinking: bool, ephemeral: bool)   // interaction.response.defer(...)
    | FollowedUp(text: string, ephemeral: bool)   // interaction.followup.send(...)
    | HistoryRead(docId: string)                  // history.get_history(...)
    | ChatRequested(request: seq<ChatMessage>)    // ai_client.chat(...), with the messages it sent
    | HistoryAppended(docId: string, userMessage: string, assistantMessage: string)
    | HistoryCleared(docId: string)               // history.clear_history(...)

  /** The reply sent when a handler catches an exception. */
  function ErrorNotice(exceptionType: string): string {
    "エラーが発生しました: " + exceptionType
  }
}
