/**
 * The development server's API proxy: request validation in the order the
 * handlers test it, the rule that puts the camera frame into the last user
 * message, the vision request defaults, and the body reader. Calls to the
 * upstream model service are left as the request the proxy would send.
 */
module Proxy {
  import opened Common
  import opened JsText

  datatype Part = TextPart(text: string) | ImagePart(url: string)

  /** A message's `content`: a string, an array of parts, or any other JSON value. */
  datatype Content = StringContent(s: string) | PartsContent(parts: seq<Part>) | OtherContent

  /** A chat message; `role` is absent when the element has no string role
      (a non-object element behaves the same). */
  datatype Message = Message(role: Option<string>, content: Content)

  /** The fields of a parsed request body the handlers read; absent and JSON
      `null` are both `None`. */
  datatype Payload = Payload(messages: Option<seq<Message>>, base64Image: Option<string>, prompt: Option<string>)

  /** The value of `JSON.parse('{}')`. */
  const EmptyPayload: Payload := Payload(None, None, None)

  /** What `JSON.parse` yields: `null`, or any other value, seen through the
      fields the handlers destructure (a value that is not an object has
      none of them). */
  datatype Json = JsonNull | JsonValue(fields: Payload)

  const DefaultModel: string := "gpt-5-nano"
  const ImageUrlPrefix: string := "data:image/jpeg;base64,"
  const DefaultVisionPrompt: string := "Describe this image."
  const MissingKeyMessage: string := "Missing OPENAI_API_KEY on server."
  const MissingMessagesMessage: string := "Missing messages"
  const MissingImageMessage: string := "Missing base64Image"
  const ChatMaxTokens: nat := 150
  const VisionMaxTokens: nat := 500

  /** JavaScript truthiness of an optional string. */
  predicate Truthy(s: Option<string>) {
    s.Some? && s.value != []
  }

  /** The request the proxy sends upstream. */
  datatype Upstream = Upstream(model: string, messages: seq<Message>, maxTokens: nat, stream: bool)

  /** How a handler ends before (or instead of) calling upstream.
      `NoReply`: destructuring a `null` payload throws inside the async
      handler, the rejection is not caught and no response is written. */
  datatype Reply = NotAllowed | ServerError(message: string) | InvalidJson | NoReply | Forward(request: Upstream)

  /** The status code the proxy itself sets; a forwarded request takes the
      upstream status. */
  function StatusOf(r: Reply): (code: Option<nat>)
    ensures code.None? <==> r.Forward? || r.NoReply?
    ensures r.NotAllowed? ==> code == Some(405)
    ensures r.ServerError? ==> code == Some(500)
    ensures r.InvalidJson? ==> code == Some(400)
  {
    match r
    case NotAllowed => Some(405)
    case ServerError(_) => Some(500)
    case InvalidJson => Some(400)
    case NoReply => None
    case Forward(_) => None
  }

  // ---- The camera frame in the last user message ---------------------------

  /** The last message with the frame attached: a user message whose content
      is a text part (the old content if it was a string, else empty) and an
      image part holding the frame as a JPEG data URL. */
  function WithImage(m: Message, image: string): (r: Message)
    ensures r.role == Some("user")
    ensures r.content.PartsContent? && |r.content.parts| == 2
    ensures r.content.parts[0] == TextPart(if m.content.StringContent? then m.content.s else [])
    ensures r.content.parts[1] == ImagePart(ImageUrlPrefix + image)
  {
    var text := if m.content.StringContent? then m.content.s else [];
    Message(Some("user"), PartsContent([TextPart(text), ImagePart(ImageUrlPrefix + image)]))
  }

  predicate LastIsUser(messages: seq<Message>) {
    |messages| > 0 && messages[|messages| - 1].role == Some("user")
  }

  /** The augmented message list: same length, every message but the last
      unchanged, and the last replaced exactly when a frame is given and the
      last message is a user message. */
  function Augmented(messages: seq<Message>, image: Option<string>): (r: seq<Message>)
    ensures |r| == |messages|
    ensures forall i :: 0 <= i < |messages| - 1 ==> r[i] == messages[i]
    ensures Truthy(image) && LastIsUser(messages) ==>
              r[|r| - 1] == WithImage(messages[|messages| - 1], image.value)
    ensures !(Truthy(image) && LastIsUser(messages)) ==> r == messages
  {
    if Truthy(image) && LastIsUser(messages) then
      messages[|messages| - 1 := WithImage(messages[|messages| - 1], image.value)]
    else messages
  }

  /** The handlers' code: copy the list, then overwrite its last slot. */
  method AugmentInPlace(messages: seq<Message>, image: Option<string>) returns (augmented: seq<Message>)
    ensures augmented == Augmented(messages, image)
  {
    var a := new Message[|messages|](i requires 0 <= i < |messages| => messages[i]);
    assert a[..] == messages;
    if Truthy(image) && a.Length > 0 {
      var last := a[a.Length - 1];
      if last.role == Some("user") {
        a[a.Length - 1] := WithImage(last, image.value);
      }
    }
    augmented := a[..];
  }

  // ---- Request handling ----------------------------------------------------

  /** The two checks every handler makes first: the method, then the key. */
  function Precheck(verb: string, hasKey: bool): (r: Option<Reply>)
    ensures verb != "POST" ==> r == Some(NotAllowed)
    ensures verb == "POST" && !hasKey ==> r == Some(ServerError(MissingKeyMessage))
    ensures r.None? <==> verb == "POST" && hasKey
  {
    if verb != "POST" then Some(NotAllowed)
    else if !hasKey then Some(ServerError(MissingKeyMessage))
    else None
  }

  /** `JSON.parse(raw || '{}')`, the parser given as an oracle that yields
      `None` where `JSON.parse` throws. */
  function ParseBody(raw: string, parse: string -> Option<Json>): (r: Option<Json>)
    ensures raw == [] ==> r == Some(JsonValue(EmptyPayload))
    ensures raw != [] ==> r == parse(raw)
  {
    if raw == [] then Some(JsonValue(EmptyPayload)) else parse(raw)
  }

  /** The shared body of `handleChatStream` and `handleChat`, parameterised
      by the one thing that differs: whether the upstream reply is streamed. */
  function ChatReply(verb: string, hasKey: bool, raw: string, parse: string -> Option<Json>, stream: bool): (r: Reply)
    ensures verb != "POST" ==> r == NotAllowed
    ensures verb == "POST" && !hasKey ==> r == ServerError(MissingKeyMessage)
    ensures verb == "POST" && hasKey && ParseBody(raw, parse).None? ==> r == InvalidJson
    ensures verb == "POST" && hasKey && ParseBody(raw, parse) == Some(JsonNull) ==> r == NoReply
    ensures (verb == "POST" && hasKey && ParseBody(raw, parse).Some? && ParseBody(raw, parse).value.JsonValue?
             && ParseBody(raw, parse).value.fields.messages.None?) ==> r == ServerError(MissingMessagesMessage)
    ensures verb == "POST" && hasKey && raw == [] ==> r == ServerError(MissingMessagesMessage)
    ensures r.Forward? <==> verb == "POST" && hasKey && ParseBody(raw, parse).Some?
                            && ParseBody(raw, parse).value.JsonValue?
                            && ParseBody(raw, parse).value.fields.messages.Some?
    ensures r.Forward? ==>
              var p := ParseBody(raw, parse).value.fields;
              r.request == Upstream(DefaultModel, Augmented(p.messages.value, p.base64Image), ChatMaxTokens, stream)
  {
    match Precheck(verb, hasKey)
    case Some(early) => early
    case None =>
      match ParseBody(raw, parse)
      case None => InvalidJson
      case Some(JsonNull) => NoReply
      case Some(JsonValue(p)) =>
        if p.messages.None? then ServerError(MissingMessagesMessage)
        else Forward(Upstream(DefaultModel, Augmented(p.messages.value, p.base64Image), ChatMaxTokens, stream))
  }

  /** `handleChatStream`. */
  function ChatStreamReply(verb: string, hasKey: bool, raw: string, parse: string -> Option<Json>): (r: Reply)
    ensures r.Forward? ==> r.request.stream
  {
    ChatReply(verb, hasKey, raw, parse, true)
  }

  /** `handleChat`: the same checks and the same augmentation, not streamed. */
  function NonStreamingChatReply(verb: string, hasKey: bool, raw: string, parse: string -> Option<Json>): (r: Reply)
    ensures r.Forward? ==> !r.request.stream
  {
    ChatReply(verb, hasKey, raw, parse, false)
  }

  /** The two chat handlers answer alike and forward the same messages. */
  lemma ChatHandlersAgree(verb: string, hasKey: bool, raw: string, parse: string -> Option<Json>)
    ensures var s, c := ChatStreamReply(verb, hasKey, raw, parse), NonStreamingChatReply(verb, hasKey, raw, parse);
            && s.Forward? == c.Forward?
            && (!s.Forward? ==> s == c)
            && (s.Forward? ==> s.request.(stream := false) == c.request)
  {
  }

  /** `handleVision`: an unparsable body counts as `{}`; a `null` body gets
      no reply; a frame is required; the prompt defaults to a fixed request
      for a description. */
  function VisionReply(verb: string, hasKey: bool, raw: string, parse: string -> Option<Json>): (r: Reply)
    ensures verb != "POST" ==> r == NotAllowed
    ensures verb == "POST" && !hasKey ==> r == ServerError(MissingKeyMessage)
    ensures r != InvalidJson
    ensures verb == "POST" && hasKey && ParseBody(raw, parse).None? ==> r == ServerError(MissingImageMessage)
    ensures verb == "POST" && hasKey && ParseBody(raw, parse) == Some(JsonNull) ==> r == NoReply
    ensures (verb == "POST" && hasKey && ParseBody(raw, parse).GetOr(JsonValue(EmptyPayload)).JsonValue?
             && !Truthy(ParseBody(raw, parse).GetOr(JsonValue(EmptyPayload)).fields.base64Image))
            ==> r == ServerError(MissingImageMessage)
    ensures r.Forward? <==> verb == "POST" && hasKey && ParseBody(raw, parse).GetOr(JsonValue(EmptyPayload)).JsonValue?
                            && Truthy(ParseBody(raw, parse).GetOr(JsonValue(EmptyPayload)).fields.base64Image)
    ensures r.Forward? ==>
              var p := ParseBody(raw, parse).GetOr(JsonValue(EmptyPayload)).fields;
              var prompt := if Truthy(p.prompt) then p.prompt.value else DefaultVisionPrompt;
              && Truthy(p.base64Image)
              && r.request == Upstream(DefaultModel,
                   [Message(Some("user"), PartsContent([TextPart(prompt), ImagePart(ImageUrlPrefix + p.base64Image.value)]))],
                   VisionMaxTokens, false)
  {
    match Precheck(verb, hasKey)
    case Some(early) => early
    case None =>
      match ParseBody(raw, parse).GetOr(JsonValue(EmptyPayload))
      case JsonNull => NoReply
      case JsonValue(p) =>
        if !Truthy(p.base64Image) then ServerError(MissingImageMessage)
        else
          var prompt := if Truthy(p.prompt) then p.prompt.value else DefaultVisionPrompt;
          Forward(Upstream(DefaultModel,
            [Message(Some("user"), PartsContent([TextPart(prompt), ImagePart(ImageUrlPrefix + p.base64Image.value)]))],
            VisionMaxTokens, false))
  }

  /** `readBody`: the request's data chunks accumulated in arrival order. */
  method ReadBody(chunks: seq<string>) returns (body: string)
    ensures body == Concat(chunks)
  {
    body := [];
    for i := 0 to |chunks|
      invariant body == Concat(chunks[..i])
    {
      assert chunks[..i + 1][..i] == chunks[..i];
      body := body + chunks[i];
    }
    assert chunks[..|chunks|] == chunks;
  }
}
