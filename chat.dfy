/**
 * The chat-completion exchange around the network call: the request body
 * built from the system prompt, a copy of the history and the new user
 * message (`buildRequestBody`), and the structure checks that pull the reply
 * text out of the response (`parseAiResponse`). The response is an abstract
 * JSON value; turning text into that value is not modelled.
 */
module Chat {
  import opened Wrappers
  import opened History

  /** Model identifier sent with every chat request. */
  const CHAT_MODEL: string := "Pro/deepseek-ai/DeepSeek-R1"

  /** The request body `{"model": ..., "messages": [...]}`. */
  datatype ChatRequest = ChatRequest(model: string, messages: seq<Message>)

  /** The request for the current user message: system prompt, then the history, then the new message. */
  function RequestFor(context: string, history: seq<Message>, current: Message): ChatRequest
  {
    ChatRequest(CHAT_MODEL, [Message(System, context)] + history + [current])
  }

  /** The request lays out the system prompt, every history message in order, then the current message. */
  lemma RequestLayout(context: string, history: seq<Message>, current: Message)
    ensures var r := RequestFor(context, history, current);
      && |r.messages| == |history| + 2
      && r.messages[0] == Message(System, context)
      && r.messages[1..|history| + 1] == history
      && r.messages[|history| + 1] == current
  {
    var r := RequestFor(context, history, current);
    assert r.messages[1..|history| + 1] == history;
  }

  /**
   * `buildRequestBody`: start with the system message, copy every history
   * message in order (the copies are values, so later changes to the live
   * history cannot reach the request), then add the current message. The
   * live history is only read.
   */
  method BuildRequestBody(context: string, currentUserMessage: Message, messagesHistory: ConversationHistory)
    returns (requestBody: ChatRequest)
    ensures requestBody == RequestFor(context, messagesHistory.messages, currentUserMessage)
  {
    var messages := [Message(System, context)];
    var history := messagesHistory.messages;
    for i := 0 to |history|
      invariant messages == [Message(System, context)] + history[..i]
    {
      messages := messages + [history[i]];
    }
    assert history[..|history|] == history;
    messages := messages + [currentUserMessage];
    requestBody := ChatRequest(CHAT_MODEL, messages);
  }

  /** A JSON value as the response parser sees it; numbers keep their text. */
  datatype Json =
    | JNull
    | JBool(b: bool)
    | JNumber(lexeme: string)
    | JString(s: string)
    | JArray(items: seq<Json>)
    | JObject(members: map<string, Json>)

  /** `JsonElement.getAsString`: primitives give their text, a one-element array its element's; the rest fail. */
  function AsString(j: Json): (r: Option<string>)
    ensures j.JNull? || j.JObject? ==> r.None?
    ensures j.JString? ==> r == Some(j.s)
  {
    match j
    case JString(s) => Some(s)
    case JNumber(lexeme) => Some(lexeme)
    case JBool(b) => Some(if b then "true" else "false")
    case JArray(items) => if |items| == 1 then AsString(items[0]) else None
    case _ => None
  }

  /** Each exception `parseAiResponse` can raise, in the order it checks for them. */
  datatype ParseError =
    | NotAnObject
    | MissingChoices
    | ChoicesNotArray
    | EmptyChoices
    | ChoiceNotObject
    | MissingMessage
    | MessageNotObject
    | MissingContent
    | ReasoningUnreadable
    | ContentUnreadable

  /**
   * `parseAiResponse`: walk `choices[0].message.content`, failing at the
   * first missing member or wrongly typed value. When the reasoning print
   * flag is on, `reasoning_content` must also be present and readable as a
   * string (the source dereferences it unconditionally).
   */
  function ParseAiResponse(root: Json, printReasoning: bool): (r: Result<string, ParseError>)
    ensures r == Err(ReasoningUnreadable) ==> printReasoning
    ensures r.Ok? ==> MessageObject(root).Some?
  {
    if !root.JObject? then Err(NotAnObject)
    else if "choices" !in root.members then Err(MissingChoices)
    else
      var choices := root.members["choices"];
      if !choices.JArray? then Err(ChoicesNotArray)
      else if |choices.items| == 0 then Err(EmptyChoices)
      else
        var firstChoice := choices.items[0];
        if !firstChoice.JObject? then Err(ChoiceNotObject)
        else if "message" !in firstChoice.members then Err(MissingMessage)
        else
          var message := firstChoice.members["message"];
          if !message.JObject? then Err(MessageNotObject)
          else if "content" !in message.members then Err(MissingContent)
          else if printReasoning
                  && ("reasoning_content" !in message.members
                      || AsString(message.members["reasoning_content"]).None?)
          then Err(ReasoningUnreadable)
          else
            match AsString(message.members["content"])
            case Some(text) => Ok(text)
            case None => Err(ContentUnreadable)
  }

  /** The members of the object at `choices[0].message`, found by chaining optional lookups. */
  function MessageObject(root: Json): Option<map<string, Json>>
  {
    var top :- AsObject(Some(root));
    var choices :- Member(top, "choices");
    var first :- FirstItem(choices);
    var choice :- AsObject(Some(first));
    var message :- Member(choice, "message");
    AsObject(Some(message))
  }

  function AsObject(j: Option<Json>): Option<map<string, Json>>
  {
    if j.Some? && j.value.JObject? then Some(j.value.members) else None
  }

  function Member(m: map<string, Json>, key: string): Option<Json>
  {
    if key in m then Some(m[key]) else None
  }

  function FirstItem(j: Json): Option<Json>
  {
    if j.JArray? && |j.items| > 0 then Some(j.items[0]) else None
  }

  /** A readable string member of an object. */
  predicate Readable(m: map<string, Json>, key: string)
  {
    key in m && AsString(m[key]).Some?
  }

  /**
   * Parsing succeeds exactly when `choices[0].message` is an object whose
   * `content` reads as a string (and whose `reasoning_content` does too when
   * the print flag is on); the reply is then that string.
   */
  lemma ParseSucceedsIffContentReadable(root: Json, printReasoning: bool)
    ensures var r := ParseAiResponse(root, printReasoning);
      var m := MessageObject(root);
      && (r.Ok? <==> m.Some? && Readable(m.value, "content")
                     && (printReasoning ==> Readable(m.value, "reasoning_content")))
      && (r.Ok? ==> r.value == AsString(m.value["content"]).value)
  {
  }

  /**
   * Turning the reasoning print on can only add a failure: it never changes
   * a reply, never rescues a failing response, and every outcome other than
   * `ReasoningUnreadable` is the same either way.
   */
  lemma ReasoningFlagOnlyAddsFailure(root: Json)
    ensures ParseAiResponse(root, true).Ok? ==> ParseAiResponse(root, false) == ParseAiResponse(root, true)
    ensures ParseAiResponse(root, false).Err? ==> ParseAiResponse(root, true).Err?
    ensures ParseAiResponse(root, true) != Err(ReasoningUnreadable) ==> ParseAiResponse(root, false) == ParseAiResponse(root, true)
  {
  }

  /** A well-formed completion carrying `content` (and optionally `reasoning_content`). */
  function Completion(content: string, reasoning: Option<string>): Json
  {
    var message := map["content" := JString(content)];
    var message' := if reasoning.Some? then message["reasoning_content" := JString(reasoning.value)] else message;
    JObject(map["choices" := JArray([JObject(map["message" := JObject(message')])])])
  }

  /** The parser reads back the content of a well-formed completion. */
  lemma ParseCompletion(content: string, reasoning: Option<string>, printReasoning: bool)
    ensures printReasoning ==> reasoning.Some? ==> ParseAiResponse(Completion(content, reasoning), printReasoning) == Ok(content)
    ensures !printReasoning ==> ParseAiResponse(Completion(content, reasoning), printReasoning) == Ok(content)
    ensures printReasoning && reasoning.None? ==> ParseAiResponse(Completion(content, reasoning), printReasoning) == Err(ReasoningUnreadable)
  {
  }
}
