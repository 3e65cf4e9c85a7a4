/**
 * The main loop of the voice assistant: record, transcribe, decide whether
 * to stop, skip or converse, ask the chat service, clean the reply, and
 * update the history. Each iteration's outside world (the microphone reads,
 * the transcription text and the chat service's response) is an input; the
 * loop runs over a finite sequence of such turns.
 */
module Turn {
  import opened Wrappers
  import opened History
  import opened Reply
  import opened Chat
  import opened Text
  import Recorder

  /** The two phrases that end the conversation: "bye-bye" and "goodbye". */
  const END_WORD1: string := "\U{62DC}\U{62DC}"
  const END_WORD2: string := "\U{518D}\U{89C1}"

  predicate HasEndWord(userText: string)
  {
    Contains(userText, END_WORD1) || Contains(userText, END_WORD2)
  }

  /** What one iteration of the loop does with a recording and its transcript. */
  datatype TurnAction =
    | NoSpeech                 // the recorder discarded the audio: `continue`
    | EndOfConversation        // an end word was heard: `break`
    | BlankTranscript          // nothing but whitespace was recognised: `continue`
    | Converse(userText: string)

  /** The checks of lines 78-95, in the source's order. */
  function Classify(recorded: bool, userText: string): (a: TurnAction)
    ensures a == NoSpeech <==> !recorded
    ensures a.Converse? ==> a.userText == userText && !IsBlank(userText) && !HasEndWord(userText)
  {
    if !recorded then NoSpeech
    else if HasEndWord(userText) then EndOfConversation
    else if IsBlank(userText) then BlankTranscript
    else Converse(userText)
  }

  /** A blank transcript never holds an end word, so the order of the two checks does not matter. */
  lemma BlankTextHasNoEndWord(userText: string)
    requires IsBlank(userText)
    ensures !HasEndWord(userText)
  {
    ContainsIffOccurs(userText, END_WORD1);
    ContainsIffOccurs(userText, END_WORD2);
    forall i: nat
      ensures !OccursAt(userText, END_WORD1, i) && !OccursAt(userText, END_WORD2, i)
    {
      if i + 2 <= |userText| {
        assert IsJavaWhitespace(userText[i]);
        assert userText[i..i + 2][0] == userText[i];
      }
    }
  }

  /** A turn goes to the chat service exactly when audio was kept and the text is neither blank nor a goodbye. */
  lemma ClassifyConverses(recorded: bool, userText: string)
    ensures Classify(recorded, userText).Converse?
        <==> recorded && !IsBlank(userText) && !HasEndWord(userText)
    ensures Classify(recorded, userText).Converse? ==> Classify(recorded, userText).userText == userText
    ensures Classify(recorded, userText) == EndOfConversation <==> recorded && HasEndWord(userText)
  {
    if IsBlank(userText) {
      BlankTextHasNoEndWord(userText);
    }
  }

  /** A goodbye anywhere in the transcript ends the conversation, whatever surrounds it. */
  lemma GoodbyeEndsConversation(before: string, after: string)
    ensures Classify(true, before + END_WORD2 + after) == EndOfConversation
  {
    var s := before + END_WORD2 + after;
    assert OccursAt(s, END_WORD2, |before|) by {
      assert s[|before|..|before| + 2] == END_WORD2;
    }
    ContainsIffOccurs(s, END_WORD2);
  }

  // ---------------------------------------------------------------------
  // One turn
  // ---------------------------------------------------------------------

  /** The settings the loop reads from its configuration. */
  datatype ChatConfig = ChatConfig(detector: Recorder.DetectorConfig, context: string, printReasoning: bool)

  /** What one turn gets from outside: the microphone reads, the transcription and the chat response. */
  datatype TurnInput = TurnInput(startTime: int, chunks: seq<Recorder.Read>, transcript: string, response: Json)

  /** Whether `audioRecorder` keeps the recording of this turn. */
  predicate Recorded(cfg: ChatConfig, input: TurnInput)
    requires Recorder.AllFit(input.chunks)
  {
    Recorder.Outcome(Recorder.RunFrom(cfg.detector, Recorder.Start(input.startTime), input.chunks, 0)).Saved?
  }

  /** The result of one iteration. */
  datatype TurnResult =
    | Skipped
    | Ended
    | Failed(error: ParseError)
    | Replied(userMessage: Message, request: ChatRequest, reply: string)

  /** One iteration as a function of the history before it. */
  function TurnStep(cfg: ChatConfig, history: seq<Message>, input: TurnInput): (result: TurnResult)
    requires Recorder.AllFit(input.chunks)
    ensures result.Replied? ==> result.userMessage == Message(User, Trim(input.transcript))
  {
    match Classify(Recorded(cfg, input), Trim(input.transcript))
    case NoSpeech => Skipped
    case BlankTranscript => Skipped
    case EndOfConversation => Ended
    case Converse(userText) =>
      var userMessage := Message(User, userText);
      match ParseAiResponse(input.response, cfg.printReasoning)
      case Err(e) => Failed(e)
      case Ok(content) => Replied(userMessage, RequestFor(cfg.context, history, userMessage), CleanReply(content))
  }

  /** The history after an iteration: one more pair when the turn got a reply, unchanged otherwise. */
  function HistoryAfter(history: seq<Message>, result: TurnResult): seq<Message>
  {
    if result.Replied? then AfterTurn(history, result.userMessage, Message(Assistant, result.reply), CHAT_COUNT_MAX)
    else history
  }

  /**
   * `aiTalk`: build the request from the live history and the new message,
   * send it (the response is the input), and parse the reply out of it.
   */
  method AiTalk(cfg: ChatConfig, currentUserMessage: Message, messagesHistory: ConversationHistory, response: Json)
    returns (requestBody: ChatRequest, reply: Result<string, ParseError>)
    ensures requestBody == RequestFor(cfg.context, messagesHistory.messages, currentUserMessage)
    ensures reply == ParseAiResponse(response, cfg.printReasoning)
  {
    requestBody := BuildRequestBody(cfg.context, currentUserMessage, messagesHistory);
    reply := ParseAiResponse(response, cfg.printReasoning);
  }

  /** The body of the main loop, acting on the live history. */
  method TakeTurn(cfg: ChatConfig, input: TurnInput, messagesHistory: ConversationHistory) returns (result: TurnResult)
    requires Recorder.AllFit(input.chunks)
    requires messagesHistory.Valid() && messagesHistory.chatCountMax == CHAT_COUNT_MAX
    modifies messagesHistory
    ensures messagesHistory.Valid()
    ensures result == TurnStep(cfg, old(messagesHistory.messages), input)
    ensures messagesHistory.messages == HistoryAfter(old(messagesHistory.messages), result)
  {
    var recording := Recorder.AudioRecorder(cfg.detector, input.startTime, input.chunks);
    if !recording.Saved? {
      return Skipped;
    }
    var userText := Trim(input.transcript);
    if Contains(userText, END_WORD1) || Contains(userText, END_WORD2) {
      return Ended;
    }
    if IsBlank(userText) {
      return Skipped;
    }
    var userMessage := Message(User, userText);
    var requestBody, parsed := AiTalk(cfg, userMessage, messagesHistory, input.response);
    if parsed.Err? {
      return Failed(parsed.error);
    }
    var aiResponse := CleanReply(parsed.value);
    var assistantMessage := Message(Assistant, aiResponse);
    messagesHistory.AppendTurn(userMessage, assistantMessage);
    result := Replied(userMessage, requestBody, aiResponse);
  }

  // ---------------------------------------------------------------------
  // The loop
  // ---------------------------------------------------------------------

  /** Why the loop ended: an end word at turn `turn`, an exception at turn `turn`, or no more input. */
  datatype LoopEnd = EndWordHeard(turn: nat) | Fatal(turn: nat, error: ParseError) | InputsExhausted

  /** What the loop leaves behind: how it ended, the final history, and every request sent and reply spoken. */
  datatype Transcript = Transcript(end: LoopEnd, history: seq<Message>, requests: seq<ChatRequest>, replies: seq<string>)

  predicate InputsFit(inputs: seq<TurnInput>)
  {
    forall k :: 0 <= k < |inputs| ==> Recorder.AllFit(inputs[k].chunks)
  }

  /** The loop from turn `i` on, given the history and the requests and replies so far. */
  function Conversation(cfg: ChatConfig, inputs: seq<TurnInput>, i: nat,
                        history: seq<Message>, requests: seq<ChatRequest>, replies: seq<string>): Transcript
    requires InputsFit(inputs) && i <= |inputs|
    decreases |inputs| - i
  {
    if i == |inputs| then Transcript(InputsExhausted, history, requests, replies)
    else
      var result := TurnStep(cfg, history, inputs[i]);
      match result
      case Ended => Transcript(EndWordHeard(i), history, requests, replies)
      case Failed(e) => Transcript(Fatal(i, e), history, requests, replies)
      case Skipped => Conversation(cfg, inputs, i + 1, history, requests, replies)
      case Replied(_, request, reply) =>
        Conversation(cfg, inputs, i + 1, HistoryAfter(history, result), requests + [request], replies + [reply])
  }

  /** One unfolding of `Conversation` at a turn that does not end the loop. */
  lemma ConversationStep(cfg: ChatConfig, inputs: seq<TurnInput>, i: nat,
                         history: seq<Message>, requests: seq<ChatRequest>, replies: seq<string>)
    requires InputsFit(inputs) && i < |inputs|
    ensures var result := TurnStep(cfg, history, inputs[i]);
      && (result.Ended? ==> Conversation(cfg, inputs, i, history, requests, replies)
                            == Transcript(EndWordHeard(i), history, requests, replies))
      && (result.Failed? ==> Conversation(cfg, inputs, i, history, requests, replies)
                             == Transcript(Fatal(i, result.error), history, requests, replies))
      && (result.Skipped? ==> Conversation(cfg, inputs, i, history, requests, replies)
                              == Conversation(cfg, inputs, i + 1, history, requests, replies))
      && (result.Replied? ==> Conversation(cfg, inputs, i, history, requests, replies)
                              == Conversation(cfg, inputs, i + 1, HistoryAfter(history, result),
                                              requests + [result.request], replies + [result.reply]))
  {
  }

  /**
   * One pass of the body of `main`'s loop over the live history, with the
   * request sent and the reply spoken added to the record: either the loop
   * ends at this turn, or it goes on from the next input.
   */
  method LoopBody(cfg: ChatConfig, inputs: seq<TurnInput>, i: nat, messagesHistory: ConversationHistory,
                  requests: seq<ChatRequest>, replies: seq<string>)
    returns (end: Option<LoopEnd>, sent: seq<ChatRequest>, spoken: seq<string>)
    requires InputsFit(inputs) && i < |inputs|
    requires messagesHistory.Valid() && messagesHistory.chatCountMax == CHAT_COUNT_MAX
    modifies messagesHistory
    ensures messagesHistory.Valid()
    ensures end.Some? ==> Conversation(cfg, inputs, i, old(messagesHistory.messages), requests, replies)
                          == Transcript(end.value, messagesHistory.messages, sent, spoken)
    ensures end.None? ==> Conversation(cfg, inputs, i, old(messagesHistory.messages), requests, replies)
                          == Conversation(cfg, inputs, i + 1, messagesHistory.messages, sent, spoken)
  {
    ghost var before := messagesHistory.messages;
    var result := TakeTurn(cfg, inputs[i], messagesHistory);
    ConversationStep(cfg, inputs, i, before, requests, replies);
    end, sent, spoken := None, requests, replies;
    match result {
      case Ended =>
        end := Some(EndWordHeard(i));
      case Failed(e) =>
        end := Some(Fatal(i, e));
      case Skipped =>
      case Replied(_, request, reply) =>
        sent := requests + [request];
        spoken := replies + [reply];
    }
  }

  /**
   * `main`: start with an empty history and run turns until an end word is
   * heard or a chat response cannot be parsed (the exception leaves the
   * loop); here also when the inputs run out.
   */
  method RunConversation(cfg: ChatConfig, inputs: seq<TurnInput>) returns (t: Transcript)
    requires InputsFit(inputs)
    ensures t == Conversation(cfg, inputs, 0, [], [], [])
  {
    var messagesHistory := new ConversationHistory(CHAT_COUNT_MAX);
    var requests: seq<ChatRequest> := [];
    var replies: seq<string> := [];
    var i := 0;
    ghost var goal := Conversation(cfg, inputs, 0, [], [], []);
    while i < |inputs|
      invariant 0 <= i <= |inputs|
      invariant messagesHistory.Valid() && messagesHistory.chatCountMax == CHAT_COUNT_MAX
      invariant goal == Conversation(cfg, inputs, i, messagesHistory.messages, requests, replies)
      decreases |inputs| - i
    {
      var end;
      end, requests, replies := LoopBody(cfg, inputs, i, messagesHistory, requests, replies);
      if end.Some? {
        return Transcript(end.value, messagesHistory.messages, requests, replies);
      }
      i := i + 1;
    }
    t := Transcript(InputsExhausted, messagesHistory.messages, requests, replies);
  }

  // ---------------------------------------------------------------------
  // Properties of a turn
  // ---------------------------------------------------------------------

  /** The turn leaves the loop: an end word is heard, or the chat response cannot be parsed. */
  predicate Stops(cfg: ChatConfig, input: TurnInput)
    requires Recorder.AllFit(input.chunks)
  {
    var userText := Trim(input.transcript);
    Recorded(cfg, input)
    && (HasEndWord(userText)
        || (!IsBlank(userText) && ParseAiResponse(input.response, cfg.printReasoning).Err?))
  }

  /**
   * A turn is skipped, gets a reply, ends or fails according to the
   * recording, the transcript and the response alone; the history only
   * shapes the request. A reply is the cleaned content of the response.
   */
  lemma TurnStepCases(cfg: ChatConfig, history: seq<Message>, input: TurnInput)
    requires Recorder.AllFit(input.chunks)
    ensures var result := TurnStep(cfg, history, input);
      var userText := Trim(input.transcript);
      var parsed := ParseAiResponse(input.response, cfg.printReasoning);
      && (result.Ended? || result.Failed? <==> Stops(cfg, input))
      && (result.Ended? <==> Recorded(cfg, input) && HasEndWord(userText))
      && (result.Failed? ==> parsed == Err(result.error) && !IsBlank(userText) && !HasEndWord(userText))
      && (result.Replied? <==> Recorded(cfg, input) && !IsBlank(userText) && !HasEndWord(userText) && parsed.Ok?)
      && (result.Replied? ==>
            && result.userMessage == Message(User, userText)
            && result.request == RequestFor(cfg.context, history, result.userMessage)
            && result.reply == CleanReply(parsed.value))
  {
    ClassifyConverses(Recorded(cfg, input), Trim(input.transcript));
  }

  /**
   * A turn whose microphone reads are all zero bytes is skipped (with a
   * volume threshold that is not negative): silence never reaches the
   * transcription or the chat service.
   */
  lemma SilentTurnIsSkipped(cfg: ChatConfig, history: seq<Message>, input: TurnInput)
    requires Recorder.AllFit(input.chunks) && cfg.detector.volumeThreshold >= 0.0
    requires forall k :: 0 <= k < |input.chunks| ==> Recorder.AllZero(input.chunks[k].data)
    ensures TurnStep(cfg, history, input) == Skipped
  {
    Recorder.SilentRecordingIsDiscarded(cfg.detector, input.startTime, input.chunks);
  }

  // ---------------------------------------------------------------------
  // Properties of the loop
  // ---------------------------------------------------------------------

  /** A reply as spoken: neither clean-up pattern matches anywhere in it. */
  predicate Spoken(reply: string)
  {
    NoMatch(reply, '(', ')') && NoMatch(reply, FULLWIDTH_OPEN, FULLWIDTH_CLOSE)
  }

  /**
   * A request as sent: the chat model, the system prompt first, then an
   * alternating, bounded history, then the user's message, which is a
   * trimmed transcript that is not blank and holds no end word.
   */
  predicate WellFormedRequest(context: string, request: ChatRequest)
  {
    var m := request.messages;
    && request.model == CHAT_MODEL
    && 2 <= |m| <= CHAT_COUNT_MAX + 2
    && m[0] == Message(System, context)
    && Alternating(m[1..|m| - 1])
    && m[|m| - 1].role == User
    && Trim(m[|m| - 1].content) == m[|m| - 1].content
    && !IsBlank(m[|m| - 1].content)
    && !HasEndWord(m[|m| - 1].content)
  }

  /** What holds of the loop's state after any number of turns. */
  predicate Sound(context: string, history: seq<Message>, requests: seq<ChatRequest>, replies: seq<string>)
  {
    && Bounded(history, CHAT_COUNT_MAX)
    && Alternating(history)
    && |requests| == |replies|
    && (forall k :: 0 <= k < |requests| ==> WellFormedRequest(context, requests[k]))
    && (forall k :: 0 <= k < |replies| ==> Spoken(replies[k]))
  }

  /** The request for a non-blank, goodbye-free, trimmed transcript over a sound history is well formed. */
  lemma RequestIsWellFormed(context: string, history: seq<Message>, userText: string)
    requires Bounded(history, CHAT_COUNT_MAX) && Alternating(history)
    requires Trim(userText) == userText && !IsBlank(userText) && !HasEndWord(userText)
    ensures WellFormedRequest(context, RequestFor(context, history, Message(User, userText)))
  {
    var m := RequestFor(context, history, Message(User, userText)).messages;
    RequestLayout(context, history, Message(User, userText));
    assert m[1..|m| - 1] == history;
  }

  /** Adding a reply turn keeps the loop's state sound. */
  lemma SoundAfterReply(context: string, history: seq<Message>, requests: seq<ChatRequest>, replies: seq<string>,
                        userText: string, content: string)
    requires Sound(context, history, requests, replies)
    requires Trim(userText) == userText && !IsBlank(userText) && !HasEndWord(userText)
    ensures var user := Message(User, userText);
      var reply := CleanReply(content);
      Sound(context, AfterTurn(history, user, Message(Assistant, reply), CHAT_COUNT_MAX),
            requests + [RequestFor(context, history, user)], replies + [reply])
  {
    var user := Message(User, userText);
    var assistant := Message(Assistant, CleanReply(content));
    AfterTurnStaysBounded(history, user, assistant, CHAT_COUNT_MAX);
    AfterTurnAlternates(history, user, assistant, CHAT_COUNT_MAX);
    RequestIsWellFormed(context, history, userText);
    CleanReplyIdempotent(content);
  }

  /** A turn that gets a reply keeps the loop's state sound. */
  lemma ReplyKeepsSound(cfg: ChatConfig, history: seq<Message>, requests: seq<ChatRequest>, replies: seq<string>,
                        input: TurnInput)
    requires Recorder.AllFit(input.chunks) && Sound(cfg.context, history, requests, replies)
    requires TurnStep(cfg, history, input).Replied?
    ensures var result := TurnStep(cfg, history, input);
      Sound(cfg.context, HistoryAfter(history, result), requests + [result.request], replies + [result.reply])
  {
    TurnStepCases(cfg, history, input);
    TrimIdempotent(input.transcript);
    var content := ParseAiResponse(input.response, cfg.printReasoning).value;
    SoundAfterReply(cfg.context, history, requests, replies, Trim(input.transcript), content);
  }

  /** The loop keeps its state sound from any turn on. */
  lemma {:induction false} ConversationIsSound(cfg: ChatConfig, inputs: seq<TurnInput>, i: nat,
                                               history: seq<Message>, requests: seq<ChatRequest>, replies: seq<string>)
    requires InputsFit(inputs) && i <= |inputs|
    requires Sound(cfg.context, history, requests, replies)
    ensures var t := Conversation(cfg, inputs, i, history, requests, replies);
      Sound(cfg.context, t.history, t.requests, t.replies)
    decreases |inputs| - i
  {
    if i < |inputs| {
      var result := TurnStep(cfg, history, inputs[i]);
      if result.Replied? {
        ReplyKeepsSound(cfg, history, requests, replies, inputs[i]);
        ConversationIsSound(cfg, inputs, i + 1, HistoryAfter(history, result),
                            requests + [result.request], replies + [result.reply]);
      } else if result.Skipped? {
        ConversationIsSound(cfg, inputs, i + 1, history, requests, replies);
      }
    }
  }

  /** The last message of a request: the user message it carries. */
  function LastMessage(request: ChatRequest): Message
  {
    if request.messages == [] then Message(User, "") else request.messages[|request.messages| - 1]
  }

  /** The (user, assistant) pairs exchanged so far, oldest first. */
  function Exchanged(requests: seq<ChatRequest>, replies: seq<string>): seq<(Message, Message)>
    requires |requests| == |replies|
    decreases |requests|
  {
    if requests == [] then []
    else
      var n := |requests| - 1;
      Exchanged(requests[..n], replies[..n]) + [(LastMessage(requests[n]), Message(Assistant, replies[n]))]
  }

  /**
   * The history is exactly the exchanged pairs replayed through the
   * append-and-evict rule: it keeps the most recent turns, in order, and
   * nothing else.
   */
  lemma {:induction false} ConversationReplaysExchanges(cfg: ChatConfig, inputs: seq<TurnInput>, i: nat,
                                                        history: seq<Message>, requests: seq<ChatRequest>, replies: seq<string>)
    requires InputsFit(inputs) && i <= |inputs|
    requires |requests| == |replies|
    requires history == Replay([], Exchanged(requests, replies), CHAT_COUNT_MAX)
    ensures var t := Conversation(cfg, inputs, i, history, requests, replies);
      |t.requests| == |t.replies| && t.history == Replay([], Exchanged(t.requests, t.replies), CHAT_COUNT_MAX)
    decreases |inputs| - i
  {
    if i < |inputs| {
      var result := TurnStep(cfg, history, inputs[i]);
      if result.Replied? {
        TurnStepCases(cfg, history, inputs[i]);
        RequestLayout(cfg.context, history, result.userMessage);
        var requests', replies' := requests + [result.request], replies + [result.reply];
        assert requests'[..|requests|] == requests && replies'[..|replies|] == replies;
        var pair := (result.userMessage, Message(Assistant, result.reply));
        assert Exchanged(requests', replies') == Exchanged(requests, replies) + [pair];
        ReplaySnoc([], Exchanged(requests, replies), pair, CHAT_COUNT_MAX);
        ConversationReplaysExchanges(cfg, inputs, i + 1, HistoryAfter(history, result), requests', replies');
      } else if result.Skipped? {
        ConversationReplaysExchanges(cfg, inputs, i + 1, history, requests, replies);
      }
    }
  }

  /** The first turn from `i` on that stops the loop, or `|inputs|` when none does. */
  function FirstStop(cfg: ChatConfig, inputs: seq<TurnInput>, i: nat): (j: nat)
    requires InputsFit(inputs) && i <= |inputs|
    ensures i <= j <= |inputs|
    ensures j < |inputs| ==> Stops(cfg, inputs[j])
    ensures forall k :: i <= k < j ==> !Stops(cfg, inputs[k])
    decreases |inputs| - i
  {
    if i == |inputs| || Stops(cfg, inputs[i]) then i else FirstStop(cfg, inputs, i + 1)
  }

  /**
   * The loop ends at the first turn that hears an end word or cannot parse
   * its response, and runs out of input only when no turn does.
   */
  lemma {:induction false} ConversationEndsAtFirstStop(cfg: ChatConfig, inputs: seq<TurnInput>, i: nat,
                                                       history: seq<Message>, requests: seq<ChatRequest>, replies: seq<string>)
    requires InputsFit(inputs) && i <= |inputs|
    ensures var e := Conversation(cfg, inputs, i, history, requests, replies).end;
      var j := FirstStop(cfg, inputs, i);
      && (e.InputsExhausted? <==> j == |inputs|)
      && (!e.InputsExhausted? ==> e.turn == j)
      && (e.EndWordHeard? ==> HasEndWord(Trim(inputs[j].transcript)))
      && (e.Fatal? ==> ParseAiResponse(inputs[j].response, cfg.printReasoning) == Err(e.error))
    decreases |inputs| - i
  {
    if i < |inputs| {
      var result := TurnStep(cfg, history, inputs[i]);
      TurnStepCases(cfg, history, inputs[i]);
      if result.Replied? || result.Skipped? {
        var history' := HistoryAfter(history, result);
        var requests' := if result.Replied? then requests + [result.request] else requests;
        var replies' := if result.Replied? then replies + [result.reply] else replies;
        assert Conversation(cfg, inputs, i, history, requests, replies)
            == Conversation(cfg, inputs, i + 1, history', requests', replies');
        assert FirstStop(cfg, inputs, i) == FirstStop(cfg, inputs, i + 1);
        ConversationEndsAtFirstStop(cfg, inputs, i + 1, history', requests', replies');
      }
    }
  }

  /**
   * What `main` guarantees from an empty history: the history stays bounded
   * and alternating and is the replay of the exchanged turns, every request
   * is well formed, every spoken reply is clean, and the loop stops at the
   * first end word or unparsable response.
   */
  lemma MainLoopGuarantees(cfg: ChatConfig, inputs: seq<TurnInput>)
    requires InputsFit(inputs)
    ensures var t := Conversation(cfg, inputs, 0, [], [], []);
      && Sound(cfg.context, t.history, t.requests, t.replies)
      && t.history == Replay([], Exchanged(t.requests, t.replies), CHAT_COUNT_MAX)
      && (t.end.InputsExhausted? <==> forall k :: 0 <= k < |inputs| ==> !Stops(cfg, inputs[k]))
      && (!t.end.InputsExhausted? ==> t.end.turn < |inputs| && Stops(cfg, inputs[t.end.turn])
                                      && forall k :: 0 <= k < t.end.turn ==> !Stops(cfg, inputs[k]))
  {
    ConversationIsSound(cfg, inputs, 0, [], [], []);
    ConversationReplaysExchanges(cfg, inputs, 0, [], [], []);
    ConversationEndsAtFirstStop(cfg, inputs, 0, [], [], []);
  }
}
