/** Assembly of the chat-completion request: the system prompt, the stored
    history, then the user's message, whose content is either the plain
    text or, when images are attached, a list of a text part and one part
    per image that could be fetched, each carried as a `data:` URL
    (RFC 2397) holding the image bytes in base64. The HTTP fetch and the
    completion call are parameters: functions from their input to what
    they answer. */
module OpenAIClient {
  import opened Python
  import opened Base64
  import opened FirestoreHistory
  import Config

  datatype ContentPart = TextPart(text: string) | ImagePart(url: string)

  /** A message's `content`: a string, or a list of parts. */
  datatype Content = PlainText(text: string) | Parts(parts: seq<ContentPart>)

  datatype ChatMessage = ChatMessage(role: string, content: Content)

  /** What the HTTP GET of an image answers: a response with its status,
      its `Content-Type` header if any and its body, or an exception
      (connection failure, timeout, failed read). */
  datatype FetchResponse = Response(status: int, contentType: Option<string>, body: seq<byte>) | FetchFailed

  /** What the completion call answers: the first choice's message
      content, which may be null, or an exception. */
  datatype Completion = Completed(content: Option<string>) | CompletionFailed(exceptionType: string)

  const SystemRole := "system"

  /** The header value used when a response has no `Content-Type`. */
  const DefaultImageType := "image/png"

  /** `f"data:{content_type};base64,{b64}"` */
  function DataUrl(contentType: string, body: seq<byte>): (url: string)
    ensures StartsWith(url, "data:" + contentType + ";base64,")
  {
    "data:" + contentType + ";base64," + Encode(body)
  }

  /** Reads a `data:` URL back into its media type and its bytes. The media
      type ends at the last `;`, since the base64 text never holds one. */
  function ParseDataUrl(url: string): Option<(string, seq<byte>)> {
    if !StartsWith(url, "data:") then None
    else match LastIndexOf(url, ';')
      case None => None
      case Some(k) =>
        if k < 5 || !StartsWith(url[k + 1..], "base64,") then None
        else match Decode(url[k + 8..])
          case None => None
          case Some(body) => Some((url[5..k], body))
  }

  /** The data URL loses nothing: parsing it gives back the media type
      and the body, whatever the media type holds. */
  lemma ParseDataUrlRoundTrip(contentType: string, body: seq<byte>)
    ensures ParseDataUrl(DataUrl(contentType, body)) == Some((contentType, body))
  {
    var url := DataUrl(contentType, body);
    var head, tail := "data:" + contentType, "base64," + Encode(body);
    var k := |head|;
    assert url == head + [';'] + tail;
    assert StartsWith(url, "data:") by {
      assert url[..5] == head[..5] == "data:";
    }
    assert LastIndexOf(url, ';') == Some(k) by {
      NoSeparatorAfterMediaType(body);
      LastIndexOfSeparator(head, ';', tail);
    }
    assert StartsWith(url[k + 1..], "base64,") by {
      assert url[k + 1..] == tail;
    }
    assert Decode(url[k + 8..]) == Some(body) by {
      assert url[k + 8..] == Encode(body);
      DecodeEncode(body);
    }
    assert url[5..k] == contentType;
  }

  /** The text after the media type holds no `;`. */
  lemma NoSeparatorAfterMediaType(body: seq<byte>)
    ensures ';' !in "base64," + Encode(body)
  {
    var tail := "base64," + Encode(body);
    EncodeAlphabet(body);
    forall i | 0 <= i < |tail| ensures tail[i] != ';' {
      if i >= 7 {
        assert tail[i] == Encode(body)[i - 7];
      }
    }
  }

  /** `_fetch_image_as_base64` on what the fetch answered: a data URL for
      a 200 response, `None` for any other status or an exception. */
  function FetchResult(response: FetchResponse): (d: Option<string>)
    ensures d.Some? <==> response.Response? && response.status == 200
  {
    match response
    case FetchFailed => None
    case Response(status, contentType, body) =>
      if status != 200 then None
      else Some(DataUrl(contentType.GetOr(DefaultImageType), body))
  }

  /** A successful fetch gives a data URL that reads back as the response's
      media type, `image/png` when it has none, and its body unchanged. */
  lemma FetchResultParses(response: FetchResponse)
    requires response.Response? && response.status == 200
    ensures ParseDataUrl(FetchResult(response).value) == Some((response.contentType.GetOr(DefaultImageType), response.body))
  {
    ParseDataUrlRoundTrip(response.contentType.GetOr(DefaultImageType), response.body);
  }

  /** One image part per URL whose fetch gave a data URL, in URL order. */
  function ResolvedImages(urls: seq<string>, fetch: string -> FetchResponse): (parts: seq<ContentPart>)
    ensures |parts| <= |urls|
    ensures forall i :: 0 <= i < |parts| ==> parts[i].ImagePart?
    decreases |urls|
  {
    if urls == [] then []
    else
      var last := urls[|urls| - 1];
      ResolvedImages(urls[..|urls| - 1], fetch)
      + match FetchResult(fetch(last))
        case Some(d) => [ImagePart(d)]
        case None => []
  }

  /** One more URL adds its part, if its fetch succeeds, at the end. */
  lemma ResolvedImagesSnoc(urls: seq<string>, url: string, fetch: string -> FetchResponse)
    ensures ResolvedImages(urls + [url], fetch)
         == ResolvedImages(urls, fetch) + match FetchResult(fetch(url)) case Some(d) => [ImagePart(d)] case None => []
  {
    assert (urls + [url])[..|urls|] == urls;
  }

  /** The parts for two runs of URLs are the parts of each, in order. */
  lemma {:induction false} ResolvedImagesConcat(a: seq<string>, b: seq<string>, fetch: string -> FetchResponse)
    ensures ResolvedImages(a + b, fetch) == ResolvedImages(a, fetch) + ResolvedImages(b, fetch)
    decreases |b|
  {
    if b == [] {
      assert a + b == a;
    } else {
      var init := b[..|b| - 1];
      assert (a + b)[..|a + b| - 1] == a + init;
      assert (a + b)[|a + b| - 1] == b[|b| - 1];
      ResolvedImagesConcat(a, init, fetch);
    }
  }

  /** When every fetch succeeds no image is lost: part `i` carries the
      data URL of URL `i`. */
  lemma {:induction false} ResolvedImagesAllFetched(urls: seq<string>, fetch: string -> FetchResponse)
    requires forall u :: u in urls ==> FetchResult(fetch(u)).Some?
    ensures |ResolvedImages(urls, fetch)| == |urls|
    ensures forall i :: 0 <= i < |urls| ==> ResolvedImages(urls, fetch)[i] == ImagePart(FetchResult(fetch(urls[i])).value)
    decreases |urls|
  {
    if urls != [] {
      var init, last := urls[..|urls| - 1], urls[|urls| - 1];
      assert forall u :: u in init ==> u in urls;
      ResolvedImagesAllFetched(init, fetch);
      assert last in urls;
      var d := FetchResult(fetch(last)).value;
      var r, ri := ResolvedImages(urls, fetch), ResolvedImages(init, fetch);
      assert r == ri + [ImagePart(d)];
      forall i | 0 <= i < |urls| ensures r[i] == ImagePart(FetchResult(fetch(urls[i])).value) {
        if i < |init| {
          assert r[i] == ri[i] && urls[i] == init[i];
        }
      }
    }
  }

  /** When every fetch fails no image part appears. */
  lemma {:induction false} ResolvedImagesNoneFetched(urls: seq<string>, fetch: string -> FetchResponse)
    requires forall u :: u in urls ==> FetchResult(fetch(u)).None?
    ensures ResolvedImages(urls, fetch) == []
    decreases |urls|
  {
    if urls != [] {
      var init := urls[..|urls| - 1];
      assert forall u :: u in init ==> u in urls;
      assert urls[|urls| - 1] in urls;
      ResolvedImagesNoneFetched(init, fetch);
    }
  }

  /** `_build_image_content` as a value: the text part first, only when
      the text is non-empty, then the resolved images. */
  function ImageContent(text: string, urls: seq<string>, fetch: string -> FetchResponse): (parts: seq<ContentPart>)
    ensures |parts| <= |urls| + 1
    ensures (|parts| > 0 && parts[0].TextPart?) <==> text != ""
    ensures text != "" ==> parts[0] == TextPart(text)
    ensures forall i :: 0 < i < |parts| ==> parts[i].ImagePart?
  {
    (if text != "" then [TextPart(text)] else []) + ResolvedImages(urls, fetch)
  }

  /** `_build_image_content`: the text part, then a loop over the URLs
      appending a part for each successful fetch. */
  method BuildImageContent(text: string, imageUrls: seq<string>, fetch: string -> FetchResponse) returns (content: seq<ContentPart>)
    ensures content == ImageContent(text, imageUrls, fetch)
  {
    content := [];
    if text != "" {
      content := content + [TextPart(text)];
    }
    ghost var head := content;
    for i := 0 to |imageUrls|
      invariant content == head + ResolvedImages(imageUrls[..i], fetch)
    {
      var imageData := FetchResult(fetch(imageUrls[i]));
      assert imageUrls[..i + 1] == imageUrls[..i] + [imageUrls[i]];
      ResolvedImagesSnoc(imageUrls[..i], imageUrls[i], fetch);
      if imageData.Some? {
        AppendAssociative(head, ResolvedImages(imageUrls[..i], fetch), [ImagePart(imageData.value)]);
        content := content + [ImagePart(imageData.value)];
      }
    }
    assert imageUrls[..|imageUrls|] == imageUrls;
  }

  /** The stored turns as chat messages, unchanged and in order. */
  function HistoryMessages(history: seq<Turn>): seq<ChatMessage> {
    seq(|history|, i requires 0 <= i < |history| => ChatMessage(history[i].role, PlainText(history[i].content)))
  }

  /** The `content` of the user's message: the plain text unless a
      non-empty list of image URLs is given. */
  function UserContent(userMessage: string, imageUrls: Option<seq<string>>, fetch: string -> FetchResponse): (c: Content)
    ensures c.PlainText? <==> imageUrls.None? || imageUrls.value == []
    ensures c.PlainText? ==> c.text == userMessage
    ensures c.Parts? ==> c.parts == ImageContent(userMessage, imageUrls.value, fetch)
  {
    if imageUrls.Some? && imageUrls.value != [] then Parts(ImageContent(userMessage, imageUrls.value, fetch))
    else PlainText(userMessage)
  }

  /** The `image_urls` argument the handlers pass: `image_urls if
      image_urls else None`. */
  function UrlsArgument(urls: seq<string>): Option<seq<string>> { if urls != [] then Some(urls) else None }

  /** The messages handed to the completion call. */
  function Request(userMessage: string, history: Option<seq<Turn>>, imageUrls: Option<seq<string>>,
                   fetch: string -> FetchResponse): seq<ChatMessage>
  {
    [ChatMessage(SystemRole, PlainText(Config.SystemPrompt))]
    + HistoryMessages(history.GetOr([]))
    + [ChatMessage(UserRole, UserContent(userMessage, imageUrls, fetch))]
  }

  /** The request is the system prompt, the history turns unchanged and in
      order, then one user message: `1 + |history| + 1` messages. */
  lemma RequestShape(userMessage: string, history: seq<Turn>, imageUrls: Option<seq<string>>, fetch: string -> FetchResponse)
    ensures var r := Request(userMessage, Some(history), imageUrls, fetch);
      |r| == |history| + 2
      && r[0] == ChatMessage(SystemRole, PlainText(Config.SystemPrompt))
      && (forall i :: 0 <= i < |history| ==> r[i + 1] == ChatMessage(history[i].role, PlainText(history[i].content)))
      && r[|r| - 1].role == UserRole
      && r[|r| - 1].content == UserContent(userMessage, imageUrls, fetch)
  {
    var r := Request(userMessage, Some(history), imageUrls, fetch);
    var system := ChatMessage(SystemRole, PlainText(Config.SystemPrompt));
    var hs := HistoryMessages(history);
    var user := ChatMessage(UserRole, UserContent(userMessage, imageUrls, fetch));
    assert r == [system] + hs + [user];
    forall i | 0 <= i < |history|
      ensures r[i + 1] == ChatMessage(history[i].role, PlainText(history[i].content))
    {
      assert r[i + 1] == ([system] + hs)[i + 1] == hs[i];
    }
  }

  /** No history and an empty history give the same request. */
  lemma NoHistoryIsEmptyHistory(userMessage: string, imageUrls: Option<seq<string>>, fetch: string -> FetchResponse)
    ensures Request(userMessage, None, imageUrls, fetch) == Request(userMessage, Some([]), imageUrls, fetch)
    ensures |Request(userMessage, None, imageUrls, fetch)| == 2
  {
  }

  /** `response.choices[0].message.content or ""`; a failed call raises. */
  function ReplyOf(completion: Completion): (r: Outcome<string>)
    ensures r.Raised? <==> completion.CompletionFailed?
    ensures completion == Completed(None) ==> r == Returned("")
    ensures completion.Completed? && completion.content.Some? ==> r == Returned(completion.content.value)
  {
    match completion
    case CompletionFailed(e) => Raised(e)
    case Completed(content) => Returned(content.GetOr(""))
  }

  /** `OpenAIClient.chat`: build the message list, call the model, return
      its text. */
  method Chat(userMessage: string, history: Option<seq<Turn>>, imageUrls: Option<seq<string>>,
              fetch: string -> FetchResponse, complete: seq<ChatMessage> -> Completion)
    returns (request: seq<ChatMessage>, reply: Outcome<string>)
    ensures request == Request(userMessage, history, imageUrls, fetch)
    ensures reply == ReplyOf(complete(request))
  {
    var messages := [ChatMessage(SystemRole, PlainText(Config.SystemPrompt))];
    if history.Some? && history.value != [] {
      messages := messages + HistoryMessages(history.value);
    }
    if imageUrls.Some? && imageUrls.value != [] {
      var content := BuildImageContent(userMessage, imageUrls.value, fetch);
      messages := messages + [ChatMessage(UserRole, Parts(content))];
    } else {
      messages := messages + [ChatMessage(UserRole, PlainText(userMessage))];
    }
    request := messages;
    reply := ReplyOf(complete(messages));
  }
}
