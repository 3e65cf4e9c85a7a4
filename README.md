# Voice chat loop — a Dafny model

This project models the decision logic of a single-file voice assistant
(`VoiceCustomization.java`). The assistant loops forever:

1. It records from the microphone until the speaker goes quiet.
2. It sends the recording to a transcription service.
3. It stops when it hears "拜拜" or "再见", and skips turns with no speech or a blank transcript.
4. It sends a system prompt, the recent history and the new message to a chat service.
5. It removes parenthesised asides from the reply, then speaks the reply and remembers the exchange.

What is modelled, module by module:

- `Volume` (`volume.dfy`): `calculateVolume`, the loudness estimator. It reads one sample every 8 bytes of 16-bit little-endian PCM in a strided loop. The method keeps the Java `byte[]` as an `array` of signed bytes and is proved equal to a specification function. The result is an exact `real`.
- `Recorder` (`recorder.dfy`): the read loop of `audioRecorder` and its ending.
  - The microphone and the clock are a finite sequence of reads. Each read carries the delivered bytes and the clock value.
  - The loop keeps the 8192-byte device buffer as an array. Stale bytes past the last read stay in it, as in the source.
  - The loop is proved equal to a recursive specification.
  - Lemmas cover the following:
    - the break rules;
    - the speech flag, which only ever turns on;
    - the recording, which is the concatenation of the reads;
    - silent input, which never counts as speech.
- `History` (`history.dfy`): the in-place `messagesHistory` list. Each turn appends a pair and evicts the oldest pair once the list exceeds `CHAT_COUNT_MAX = 20`. The list is a class whose methods mirror `add` and `remove(0)`.
- `Chat` (`chat.dfy`):
  - `buildRequestBody` is a loop that copies the history into the request.
  - `parseAiResponse` walks `choices[0].message.content` over an abstract JSON value, with each exception as an error value.
- `Reply` (`reply.dfy`): the two `replaceAll` calls that strip `(…)` and then `（…）`. Each is a left-to-right scan with Java regex semantics: a non-greedy `.*?` match that does not cross a line terminator.
- `Text` (`text.dfy`): Java's `String.trim`, `String.contains` and `String.isBlank`.
- `Turn` (`turn.dfy`): the body of `main`.
  - Turn classification follows the source's order of checks.
  - One turn acts on the live history.
  - The whole loop runs over a finite sequence of turn inputs. Each input holds the microphone reads, the transcription text and the chat service's JSON response.
  - The loop is proved equal to a recursive specification, and these lemmas are proved about it:
    - the history stays bounded and alternating;
    - the history is exactly the replay of the exchanged turns;
    - every request is well formed;
    - every spoken reply is free of asides;
    - the loop stops at the first end word or unparsable response.
- `Wrappers` (`wrappers.dfy`): `Option` and `Result`.

Three points where the code does something other than its comments or its
names suggest:

- Loudness. The comments on lines 208 and 217 call the value the mean absolute value (MAV) of the inspected samples. The code divides the sum by `length / 8.0`, not by the number of inspected samples, `(length + 7) / 8`.
  - The two agree when `length` is a multiple of 8 (`Volume.MavIsMeanWhenAligned`) or when the inspected sum is 0.
  - For any other window the code's value is strictly larger (`Volume.MavExceedsMeanWhenUnaligned`).
  - Such a window can even read above 32768, the largest sample magnitude. A two-byte window holding -32768 reads as 131072 (`Volume.MavCanExceedShortRange`).
- `reasoning_content`. With the print flag on, the code dereferences it unconditionally. A response without it therefore fails, and the failure leaves the loop (`Chat.ParseCompletion`).
- Trimming and blankness. The transcript is trimmed with `String.trim` and then tested with `isBlank`, and the two treat different characters as blank. `trim` drops every character up to U+0020. `isBlank` uses `Character.isWhitespace`. A NUL character is not blank but trims to the empty string, which is (`Text.TrimAndBlankDiffer`).

## Model

All source paths are `src/main/java/test/voice/VoiceCustomization.java`.

| member | source | states |
|---|---|---|
| Volume.ToShort | src/main/java/test/voice/VoiceCustomization.java:215 | the `(short)` cast lands in [-32768, 32768) and is the identity inside the short range |
| Volume.ToShortWraps | src/main/java/test/voice/VoiceCustomization.java:215 | the cast differs from its argument by a multiple of 65536, i.e. it keeps the low 16 bits |
| Volume.Unsigned | src/main/java/test/voice/VoiceCustomization.java:213 | `b & 0xFF` lies in [0, 256) |
| Volume.UnsignedIsLowByte | src/main/java/test/voice/VoiceCustomization.java:213 | `b & 0xFF` agrees with the signed byte modulo 256 |
| Volume.Sample | src/main/java/test/voice/VoiceCustomization.java:213-215 | the rebuilt sample (high byte shifted left by 8, joined with the unsigned low byte, cast to `short`) is a 16-bit value; `SampleOfEncode` and `EncodeOfSample` show it is the little-endian reading of the byte pair |
| Volume.Magnitude | src/main/java/test/voice/VoiceCustomization.java:213-215 | the absolute value of a rebuilt sample is at most 32768 |
| Volume.SampleOfEncode | src/main/java/test/voice/VoiceCustomization.java:213-215 | rebuilding a sample from its little-endian byte pair gives the sample back |
| Volume.EncodeOfSample | src/main/java/test/voice/VoiceCustomization.java:213-215 | every byte pair is the little-endian encoding of the sample rebuilt from it, so rebuilding is a bijection between byte pairs and shorts |
| Volume.InspectedPairInBounds | src/main/java/test/voice/VoiceCustomization.java:212-214 | when `length <= n`, and `length < n` if `length % 8 == 1`, every inspected offset `i` has `i + 1` inside the array |
| Volume.JavaQuotient | src/main/java/test/voice/VoiceCustomization.java:217 | the source's `sum / (length / 8.0)` is exactly `8 * sum / length` |
| Volume.RatioFacts | src/main/java/test/voice/VoiceCustomization.java:217 | the quotient is never negative, times `length` it is `8 * sum`, and it is 0 for a zero sum |
| Volume.RatioAligned | src/main/java/test/voice/VoiceCustomization.java:217 | for a length that is a whole number of strides the quotient is `sum / (length / 8)` |
| Volume.MavNonNegative | src/main/java/test/voice/VoiceCustomization.java:209-218 | the volume of any window is never negative |
| Volume.StrideSumStep | src/main/java/test/voice/VoiceCustomization.java:212-216 | proof helper: one unfolding of the strided sum (the magnitude at an inspected offset plus the sum from eight bytes on), used by `CalculateVolume` |
| Volume.StrideSumBound | src/main/java/test/voice/VoiceCustomization.java:212-216 | the sum over offsets `i, i+8, ...` below `length` is at most 32768 times the number inspected, `(length - i + 7) / 8` |
| Volume.StrideSumOfSilence | src/main/java/test/voice/VoiceCustomization.java:212-216 | an all-zero buffer sums to 0 |
| Volume.MavOfSilence | src/main/java/test/voice/VoiceCustomization.java:209-218 | the volume is exactly 0 when every byte of the buffer is zero (the hypothesis covers the whole buffer, not only the bytes read) |
| Volume.MavIsMeanWhenAligned | src/main/java/test/voice/VoiceCustomization.java:209-218 | for a window of whole strides the volume is the arithmetic mean of the inspected magnitudes and is at most 32768 |
| Volume.MavOfShortWindow | src/main/java/test/voice/VoiceCustomization.java:217 | for a two-byte window holding sample 100 the one inspected sample gives volume 400, not its mean 100 |
| Volume.RatioExceedsMean | src/main/java/test/voice/VoiceCustomization.java:217 | for a length that is not a multiple of 8 and a positive sum, the quotient exceeds the sum divided by the number of inspected samples |
| Volume.MavExceedsMeanWhenUnaligned | src/main/java/test/voice/VoiceCustomization.java:208-218 | for a window that is not a whole number of strides the volume is at least the mean of the inspected magnitudes, and equals it exactly when their sum is 0 |
| Volume.MavCanExceedShortRange | src/main/java/test/voice/VoiceCustomization.java:217 | a two-byte window holding -32768 reads as volume 131072, above any sample's magnitude |
| Volume.CalculateVolume | src/main/java/test/voice/VoiceCustomization.java:209-218 | the strided loop over the array returns the volume of the first `length` bytes, for every window whose reads stay in bounds |
| Recorder.BufferKeepsVolumeInBounds | src/main/java/test/voice/VoiceCustomization.java:145-157 | any read of at most 8192 bytes keeps every byte `calculateVolume` reads inside the 8192-byte buffer |
| Recorder.AudioConfig.FrameSize | src/main/java/test/voice/VoiceCustomization.java:445 | the declared frame size `(sampleSize / 8) * channels` is the bytes per frame when the sample size is a whole number of bytes |
| Recorder.Advance | src/main/java/test/voice/VoiceCustomization.java:154-165 | handling one read keeps the 8192-byte buffer, appends exactly the read bytes to the recording, keeps the start time, never turns the speech flag off, and sets the last loud time to the read's clock exactly when the read is loud; `EmptyReadIsIgnored`, `FoldValidIffHeard` and `FoldLastSoundIsLastHeard` carry the rest |
| Recorder.Decide | src/main/java/test/voice/VoiceCustomization.java:167-179 | a stop needs a positive read; the cap fires only before speech and the silence rule only after it |
| Recorder.RecordLoop | src/main/java/test/voice/VoiceCustomization.java:144-181 | the read loop returns the recording, the speech flag, the last loud time and the read it stopped at (or that input ran out), as the recursive specification from the start state gives them |
| Recorder.AudioRecorder | src/main/java/test/voice/VoiceCustomization.java:136-206 | the recorder discards the audio when no speech was heard, else saves it with `size / 2` frames (16-bit mono frame size) |
| Recorder.Outcome | src/main/java/test/voice/VoiceCustomization.java:186-201 | the recorder is still reading exactly when input ran out; it discards only speechless audio; a saved recording is the captured bytes, only with speech heard, with `size / 2` whole 16-bit frames |
| Recorder.RunIsFirstFiring | src/main/java/test/voice/VoiceCustomization.java:152-181 | the loop stops at the first read on which a break rule fires, in the state reached by handling every read up to it; when input runs out no rule fired |
| Recorder.EmptyReadIsIgnored | src/main/java/test/voice/VoiceCustomization.java:153-154 | a read that delivered no bytes changes nothing and triggers no clock check |
| Recorder.RunAudioIsConcat | src/main/java/test/voice/VoiceCustomization.java:155 | the recording is exactly the in-order concatenation of every consumed read, loud or quiet |
| Recorder.RunKeepsValid | src/main/java/test/voice/VoiceCustomization.java:160-165 | once the speech flag is on it stays on, and the start time never changes |
| Recorder.FoldValidIffHeard | src/main/java/test/voice/VoiceCustomization.java:160-165 | the speech flag is on exactly when it started on or some handled read was louder than the threshold |
| Recorder.FoldSnoc | src/main/java/test/voice/VoiceCustomization.java:153-165 | proof helper for `FoldLastSoundIsLastHeard`: handling reads `i` to `j` is handling reads `i` to `j - 1`, then read `j` |
| Recorder.FoldLastSoundIsLastHeard | src/main/java/test/voice/VoiceCustomization.java:160-162 | the last loud time is the clock of the last handled read that was louder than the threshold, or the start value when no handled read was |
| Recorder.FoldKeepsLastSoundAfterStart | src/main/java/test/voice/VoiceCustomization.java:148-149 | with clock values between the start time and a bound, the last loud time stays between them too |
| Recorder.StopReasonMatchesFlag | src/main/java/test/voice/VoiceCustomization.java:167-191 | the cap stops the loop only before speech and silence only after it; the recorder reports no speech exactly when the cap stopped it |
| Recorder.SilenceStopsAfterLastLoudRead | src/main/java/test/voice/VoiceCustomization.java:160-179 | a silence stop comes after some loud read, with no loud read after it, and the stopping read's clock is more than the silence duration past that read's clock |
| Recorder.LastLoudRead | src/main/java/test/voice/VoiceCustomization.java:160-165 | proof helper for `SilenceStopsAfterLastLoudRead`: when the speech flag started off and is on after some reads, one of them was the last loud read and the last loud time is its clock |
| Recorder.SilentChunkIsQuiet | src/main/java/test/voice/VoiceCustomization.java:154-165 | a zero chunk over a zeroed buffer is not loud, keeps the buffer zeroed and the flag unchanged |
| Recorder.SilenceNeverCountsAsSpeech | src/main/java/test/voice/VoiceCustomization.java:152-181 | all-zero input never turns the speech flag on; the loop stops on the cap at the first non-empty read past it, or keeps reading |
| Recorder.SilentRecordingIsDiscarded | src/main/java/test/voice/VoiceCustomization.java:186-191 | all-zero input is reported as no speech once a read passes the cap, and is never saved |
| History.AfterTurn | src/main/java/test/voice/VoiceCustomization.java:112-119 | one turn adds at most two messages, and a full history keeps its length (one pair in, the oldest pair out); `AfterTurnIsFifo` says which messages remain |
| History.AfterTurnStaysBounded | src/main/java/test/voice/VoiceCustomization.java:112-119 | appending a pair keeps the history of even length and at most the bound |
| History.AfterTurnIsFifo | src/main/java/test/voice/VoiceCustomization.java:112-119 | the new user and assistant messages end the history; before them is the old history, less exactly its two oldest entries when it was full |
| History.AfterTurnWithTinyBound | src/main/java/test/voice/VoiceCustomization.java:116-119 | with a bound below 2 the history is emptied after every turn |
| History.AfterTurnAlternates | src/main/java/test/voice/VoiceCustomization.java:112-119 | roles keep alternating user, assistant after an append and eviction |
| History.ReplayStaysBounded | src/main/java/test/voice/VoiceCustomization.java:112-119 | any number of turns keeps the history even and within the bound |
| History.ReplaySnoc | src/main/java/test/voice/VoiceCustomization.java:112-119 | replaying one more turn is one more append-and-evict on the replayed history |
| History.ThreeTurnsKeepLastTwo | src/main/java/test/voice/VoiceCustomization.java:112-119 | with room for two pairs, three turns leave only the second and third pairs, in order |
| History.ConversationHistory.constructor | src/main/java/test/voice/VoiceCustomization.java:73 | the history starts empty and valid |
| History.ConversationHistory.Add | src/main/java/test/voice/VoiceCustomization.java:112-113 | `add` puts the message at the end |
| History.ConversationHistory.RemoveFirst | src/main/java/test/voice/VoiceCustomization.java:117-118 | `remove(0)` returns the first message and keeps the rest in order |
| History.ConversationHistory.AppendTurn | src/main/java/test/voice/VoiceCustomization.java:112-119 | the live list after the two adds and the eviction is the append-and-evict of the old list, and stays even and bounded |
| Chat.RequestLayout | src/main/java/test/voice/VoiceCustomization.java:352-375 | a request has `|history| + 2` messages: the system prompt, the history in order, then the current message |
| Chat.BuildRequestBody | src/main/java/test/voice/VoiceCustomization.java:352-375 | the copy loop yields the fixed model and the system message, every history message, then the current message; the live history is not modified |
| Chat.AsString | src/main/java/test/voice/VoiceCustomization.java:426-428 | `getAsString` reads a JSON string as itself and never reads null or an object |
| Chat.ParseAiResponse | src/main/java/test/voice/VoiceCustomization.java:402-428 | the walk to `choices[0].message.content`: the reasoning failure arises only with the print flag on, and success needs `choices[0].message` to be an object; `ParseSucceedsIffContentReadable` gives both directions |
| Chat.ParseSucceedsIffContentReadable | src/main/java/test/voice/VoiceCustomization.java:402-428 | parsing succeeds exactly when `choices[0].message` is an object whose `content` reads as a string (and `reasoning_content` too with the print flag on), and returns that string |
| Chat.ReasoningFlagOnlyAddsFailure | src/main/java/test/voice/VoiceCustomization.java:425-427 | the reasoning print flag never changes a reply and never rescues a failure; it only adds the unreadable-reasoning failure |
| Chat.ParseCompletion | src/main/java/test/voice/VoiceCustomization.java:402-428 | a well-formed completion parses back to its content, except that with the flag on and no reasoning it fails |
| Reply.FindCloser | src/main/java/test/voice/VoiceCustomization.java:104-105 | the closer found is the first one on the current line; none is found exactly when the line holds no closer |
| Reply.Strip | src/main/java/test/voice/VoiceCustomization.java:104 | one `replaceAll` pass never lengthens the text |
| Reply.StripLeavesNoMatch | src/main/java/test/voice/VoiceCustomization.java:104 | after one pass the pattern matches nowhere in the result |
| Reply.NoMatchIsFixed | src/main/java/test/voice/VoiceCustomization.java:104 | text the pattern matches nowhere is left unchanged |
| Reply.StripKeepsNoMatch | src/main/java/test/voice/VoiceCustomization.java:104-105 | the full-width pass cannot create a new ASCII match |
| Reply.NoOpenerUnchanged | src/main/java/test/voice/VoiceCustomization.java:104 | text without an opener passes through unchanged |
| Reply.UnclosedOpenerKept | src/main/java/test/voice/VoiceCustomization.java:104 | an opener with no closer later on its line is kept, and the scan goes on after it |
| Reply.MatchIsOnLine | src/main/java/test/voice/VoiceCustomization.java:104 | proof helper for `StripKeepsNoCloser`: a match at the front of the text spans no line terminator |
| Reply.SpanRemoved | src/main/java/test/voice/VoiceCustomization.java:104 | an opener, closer-free single-line text and the nearest closer are removed together |
| Reply.CleanReply | src/main/java/test/voice/VoiceCustomization.java:104-105 | the two passes, ASCII then full-width, never lengthen the reply; `CleanReplyIdempotent` shows neither pattern matches afterwards |
| Reply.CleanReplyIdempotent | src/main/java/test/voice/VoiceCustomization.java:104-105 | after the clean-up neither pattern matches, and cleaning again changes nothing |
| Reply.AsciiPassExample | src/main/java/test/voice/VoiceCustomization.java:104 | for any ordinary characters a to e, `a(b)c（d）e` loses only its ASCII aside in the first pass |
| Reply.FullWidthPassExample | src/main/java/test/voice/VoiceCustomization.java:105 | for any ordinary characters, the second pass turns `ac（d）e` into `ace` |
| Reply.CleanReplyExample | src/main/java/test/voice/VoiceCustomization.java:104-105 | for any ordinary characters a to e, `a(b)c（d）e` cleans to `ace` |
| Text.TrimStart | src/main/java/test/voice/VoiceCustomization.java:239 | the kept part starts at the first character above U+0020 |
| Text.TrimEnd | src/main/java/test/voice/VoiceCustomization.java:239 | the kept part ends after the last character above U+0020 |
| Text.Trim | src/main/java/test/voice/VoiceCustomization.java:239 | the trimmed text is empty exactly when every character is at most U+0020, and otherwise starts and ends above it |
| Text.TrimIsUniqueSlice | src/main/java/test/voice/VoiceCustomization.java:239 | the trimmed text is the unique slice bordered by characters up to U+0020 that starts and ends above it |
| Text.TrimIdempotent | src/main/java/test/voice/VoiceCustomization.java:239 | trimming twice is trimming once |
| Text.Contains | src/main/java/test/voice/VoiceCustomization.java:87 | `contains` is false when the word is longer than the text and true for the empty word; `ContainsIffOccurs` characterises it fully |
| Text.ContainsIffOccurs | src/main/java/test/voice/VoiceCustomization.java:87 | `contains` holds exactly when the word occurs at some index |
| Text.IndexOfNonWhitespace | src/main/java/test/voice/VoiceCustomization.java:92 | the index `isBlank` scans to: every character before it is Java whitespace and the one at it is not |
| Text.IsBlank | src/main/java/test/voice/VoiceCustomization.java:92 | `isBlank` (the scan reaches the end) holds exactly when every character is Java whitespace |
| Text.TrimAndBlankDiffer | src/main/java/test/voice/VoiceCustomization.java:92 | a NUL character is not blank but trims to the empty string |
| Turn.Classify | src/main/java/test/voice/VoiceCustomization.java:78-95 | a turn is dropped for no speech exactly when nothing was recorded, and goes to the chat service only with non-blank text free of end words; `ClassifyConverses` gives the iff |
| Turn.BlankTextHasNoEndWord | src/main/java/test/voice/VoiceCustomization.java:87-95 | a blank transcript holds no end word, so the end-word check running first never hides a blank turn |
| Turn.ClassifyConverses | src/main/java/test/voice/VoiceCustomization.java:78-95 | a turn reaches the chat service exactly when audio was kept and the text is neither blank nor contains an end word; it ends the loop exactly when audio was kept and an end word occurs |
| Turn.GoodbyeEndsConversation | src/main/java/test/voice/VoiceCustomization.java:87-90 | "再见" anywhere in the transcript ends the conversation |
| Turn.AiTalk | src/main/java/test/voice/VoiceCustomization.java:246-255 | the request is built from the live history and the new message, and the reply is the parse of the response |
| Turn.TurnStep | src/main/java/test/voice/VoiceCustomization.java:76-119 | one iteration as a function of the history before it; a reply carries the trimmed transcript as its user message; `TurnStepCases` gives the full case split |
| Turn.TakeTurn | src/main/java/test/voice/VoiceCustomization.java:76-119 | one iteration yields the one-turn specification's result, and the live history gains the pair (with eviction) only when a reply came back |
| Turn.TurnStepCases | src/main/java/test/voice/VoiceCustomization.java:78-105 | a turn ends, fails, is skipped or replies according to the recording, transcript and response alone; a reply is the cleaned content, sent with a request built before the history changes |
| Turn.SilentTurnIsSkipped | src/main/java/test/voice/VoiceCustomization.java:78-80 | a turn of all-zero microphone reads is skipped before transcription |
| Turn.RequestIsWellFormed | src/main/java/test/voice/VoiceCustomization.java:99-104 | the request for a trimmed, non-blank, goodbye-free transcript over a bounded alternating history is well formed |
| Turn.SoundAfterReply | src/main/java/test/voice/VoiceCustomization.java:104-119 | a reply turn keeps the history bounded and alternating, every request well formed and every reply clean |
| Turn.ReplyKeepsSound | src/main/java/test/voice/VoiceCustomization.java:99-119 | a turn that gets a reply keeps the loop's state sound |
| Turn.ConversationIsSound | src/main/java/test/voice/VoiceCustomization.java:75-126 | from any sound state the loop keeps the history bounded and alternating, sends only well-formed requests and speaks only clean replies |
| Turn.ConversationReplaysExchanges | src/main/java/test/voice/VoiceCustomization.java:108-119 | the history is exactly the exchanged user/assistant pairs replayed through append-and-evict |
| Turn.FirstStop | src/main/java/test/voice/VoiceCustomization.java:87-104 | the first turn that hears an end word or fails to parse, with no such turn before it |
| Turn.ConversationEndsAtFirstStop | src/main/java/test/voice/VoiceCustomization.java:75-133 | the loop ends at that first turn (an end word or the parse error it reports) and runs out of input only when there is none |
| Turn.MainLoopGuarantees | src/main/java/test/voice/VoiceCustomization.java:69-133 | from an empty history: bounded alternating history equal to the replay of the exchanges, well-formed requests, clean replies, and a stop at the first end word or unparsable response |
| Turn.LoopBody | src/main/java/test/voice/VoiceCustomization.java:76-119 | one pass of the loop body over the live history either ends the loop with exactly the outcome the loop's specification gives from this turn, or leaves the specification from the next turn, with the updated history and record, equal to it |
| Turn.RunConversation | src/main/java/test/voice/VoiceCustomization.java:69-133 | `main` over the live history computes the loop's specification: how it ended, the final history, and every request and reply |

## Left out

- HTTP calls (`audioToText`, `executeAiRequest`, `textToSpeech`) are left out because they are network I/O. The transcription text and the chat service's JSON response are inputs to each turn. Only the `trim` of the transcript is modelled. Transport failures and non-success status codes are not modelled.
- Gson is not part of this model. The response is an abstract JSON value, and turning text into it is left out. `getAsString` is modelled over that value.
- Audio devices and files are left out as device and OS I/O: opening the line, writing the WAV file, and the whole of `playAudio`. `Recorder.AudioRecorder` returns the bytes it would save.
- Configuration loading is left out because it reads a properties resource. The threshold, silence duration, pre-speech cap, system prompt and reasoning print flag are parameters.
- The clock is an input. The source reads it separately on lines 161, 168 and 175. The model takes one value per read and uses it for all three.
- IEEE doubles are not modelled. Volume and threshold are exact reals, so rounding in the comparison is not captured.
- Termination of the real loops is not captured. Both loops are modelled over finite inputs:
  - A recording whose reads run out before a break rule fires is `StillRecording`. The main loop skips such a turn; the real program would keep reading.
  - The main loop also ends when its inputs run out.
- Console output, the reasoning printout and the elapsed-time report are left out because they are output only.
- Recorder.AudioRecorder: line and file exceptions (`LineUnavailableException`, `IOException`) are not modelled, because they come from the device.
- Strings are sequences of Unicode scalar values. A Java `String` is UTF-16 and can hold lone surrogates, for example from a `\ud800` escape in the chat response or the transcript, which the model cannot represent. `trim`, `contains` and the two `replaceAll` calls behave the same on well-formed text.
- History.ConversationHistory: aliasing is not captured. Messages are values. The source shares the user `JsonObject` between the request and the history, but it never mutates it afterwards.
