# Jia voice assistant: the conversation core in Dafny

Jia is a browser voice companion for visually impaired people. It listens through the
browser's speech recognition and sends what it heard, with a camera frame, to a chat
model behind a small development proxy. It speaks the reply sentence by sentence as the
reply streams in. Every 25 seconds it also looks at the scene on its own and speaks up only
when something changed. The orb on screen shows which phase the conversation is in.

This project models that core and proves properties of the model:

- **`Conversation`** (`conversation.dfy`) models the `useConversation` hook. It is a class
  `Controller` whose fields are the hook's refs, grouped as session, voice, ear, chat and
  display. It has one method per browser callback:
  - start and stop;
  - the phases of `sendToChat`: `Submit` up to the `fetch`, `ResponseOk` or `ResponseFail`,
    one `StreamLine` per line of the reply stream, and `StreamEnd`;
  - `speakSentence`, the utterance callback and `stopAllAudio`;
  - `startListeningCycle` and the recognition's `onstart`, `onresult` and `onend`;
  - the speech-pause timer and the shrink animation frames;
  - `triggerSend`, the orb tap, the proactive interval tick, the idle effect and the
    unmount cleanup.

  Timers are explicit "fires" events. Each recognition carries a generation number, so
  the source's `recognitionRef.current === recognition` checks become equality of
  generations. Each `sendToChat` that reaches `fetch` is a `Turn`, named by its index.
  A user turn and a proactive turn can be in flight at the same time.
- **`Stream`** (`stream.dfy`) models the read loop of one turn as values. `LineDelta` gives what
  one line contributes, and `Feed` gives the loop's locals `fullText`/`buffer`/`hasSentences`
  after a delta. `Completed` and `Tail` give what `flushSentence` speaks and what it keeps.
- **`Sentences`** (`sentences.dfy`) models `text.split(/(?<=[.!?])\s+/)` by the algorithm that
  `String.prototype.split` runs for a regular expression.
- **`JsText`** (`text.dfy`) holds JavaScript's `trim` and white space, ASCII lower-casing,
  `\w` and string concatenation.
- **`Commands`** (`commands.dfy`) models `parseCommand` and `shouldTreatAsQuestion`. Each
  pattern `/\b…\b/i` is the finite set of phrases its alternatives spell out.
- **`SpeechHook`** (`speech.dfy`) models the recognizer handlers installed by `useSpeech`'s
  `startListening`.
- **`Proxy`** (`proxy.dfy`) models the development server's API proxy:
  - the validation order (405, 500, 400, 500);
  - the rule that puts the camera frame into the last user message, as a function
    and as the in-place array update the handlers perform;
  - the `handleVision` defaults;
  - a body that parses to `null`, which makes the handler throw while destructuring it, so that no reply is sent;
  - `readBody`.
- **`Orb`** (`orb.dfy`) models `App`'s projection of the four flags onto the five-way orb
  phase, its label and the visibility conditions. `Controller.Phase` is defined through it.
- **`Scenarios`** (`scenarios.dfy`) holds short event sequences on the controller, with the state each one ends in proved.

Points where the code may surprise a reader:

- `startConversation` has no guard against an active conversation. It always clears the
  messages, the screen and the error, and restarts the interval.
- A proactive turn appends its prompt as a user message, because the prompt text is not empty.
- `stopConversation` keeps the message history.
- Several requests can be outstanding at once. The proactive tick checks active, speaking
  and thinking, but not sending.
- "speaking exactly when utterances are pending" is not an invariant. The stream end sets
  speaking whenever the turn spoke, even after every utterance has finished
  (`Scenarios.StreamEndAfterSpeech`). What does hold, and is part of `Controller.Valid`,
  is weaker:
  - the counter is never negative;
  - it never exceeds the callbacks still to come;
  - a positive counter means speaking.
- The spoken segments do not concatenate to the reply, because the split drops the white
  space after each sentence and every piece is trimmed. The law that does hold is
  `Sentences.SplitReconstructs`: the pieces interleaved with the consumed white-space
  runs give back the text.
- A failed request does not restart listening itself. It clears thinking and sending,
  and the idle effect resumes listening.

## Model

| member | source | states |
|---|---|---|
| JsText.Trim | src/hooks/useSpeech.js:12 | `trim` removes the leading and trailing white space and nothing else: what is left is a contiguous slice of the input that neither starts nor ends with white space, and everything cut away is white space |
| JsText.TrimStart | src/hooks/useSpeech.js:12 | the leading white-space run is removed: the result is a suffix, what precedes it is all white space, and it does not start with white space |
| JsText.TrimEnd | src/hooks/useSpeech.js:12 | the trailing white-space run is removed: the result is a prefix, what follows it is all white space, and it does not end with white space |
| JsText.TrimOffset | src/hooks/useSpeech.js:12 | the start of the trimmed text lies after white space only |
| JsText.TrimEmptyIff | src/hooks/useSpeech.js:12-13 | a transcript trims to empty exactly when it is all white space, both directions |
| JsText.TrimKeepsLast | src/hooks/useConversation.js:250-252 | a text that does not end in white space keeps its last character under `trim` |
| JsText.TrimIdempotent | src/hooks/useConversation.js:279-281 | trimming twice is trimming once, so `speakSentence` sees the leftover exactly as the stream end checked it |
| JsText.TrimUnchanged | src/hooks/useSpeech.js:12 | a non-empty text with no white space at either end is its own trim |
| JsText.LowerChar | src/hooks/useSpeech.js:19 | `toLowerCase` on one ASCII character: `A`-`Z` move to `a`-`z`, everything else is kept |
| JsText.Lower | src/hooks/useSpeech.js:19 | the lower-cased text has the same length and is lower-cased character by character |
| JsText.ConcatAppend | vite.config.js:25 | concatenating two runs of chunks is concatenating their concatenations |
| JsText.ConcatSingle | src/hooks/useConversation.js:410-412 | a single piece concatenates to itself |
| Sentences.RunEnd | src/hooks/useConversation.js:15 | the greedy `\s+` ends at the string end or at the first character that is not white space, and every character it covers is white space |
| Sentences.SplitFrom | src/hooks/useConversation.js:248 | the split always yields at least one piece |
| Sentences.Split | src/hooks/useConversation.js:248 | `buffer.split(SENTENCE_SPLIT)` is the scan from the start; what it promises is stated by `SplitReconstructs` (nothing is lost, every separator is a white-space run) and `SplitPiecesUnbroken` (every boundary is cut) |
| Sentences.SplitFromReconstructs | src/hooks/useConversation.js:248 | from any scan position, the pieces from there interleaved with the consumed separators give back the text from that piece's start, and each separator is a non-empty white-space run |
| Sentences.SplitReconstructs | src/hooks/useConversation.js:248 | the split loses nothing: the pieces interleaved with the separators are the text, and every separator is a non-empty white-space run |
| Sentences.AfterSeparator | src/hooks/useConversation.js:15 | after a white-space run the scan restarts at a piece that follows white space, with no boundary passed |
| Sentences.CompletedCons | src/hooks/useConversation.js:248 | putting a finished sentence in front of a list whose non-last pieces are finished keeps every piece but the last finished |
| Sentences.SplitFromCompleted | src/hooks/useConversation.js:248-252 | every piece but the last is non-empty and ends in `.`, `!` or `?` |
| Sentences.SplitFromFollowers | src/hooks/useConversation.js:248 | every piece after the first is empty or does not start with white space, because the greedy run took it all |
| Sentences.SplitFromFirst | src/hooks/useConversation.js:248 | the first piece is the text from the scan's start onward, up to some length |
| Sentences.SplitFromTail | src/hooks/useConversation.js:255 | the last piece is a suffix of the text and holds no sentence boundary |
| Sentences.SplitFromSingle | src/hooks/useConversation.js:248 | the split from a scan position is one piece exactly when no boundary lies ahead, and then that piece is the rest of the text |
| Sentences.SplitSingleIff | src/hooks/useConversation.js:248 | a text is one piece, itself, exactly when it has no sentence boundary |
| Sentences.SliceUnbroken | src/hooks/useConversation.js:248 | a slice with no boundary strictly inside it holds no sentence boundary |
| Sentences.SplitFromPiecesUnbroken | src/hooks/useConversation.js:248 | from any scan position, no piece holds a sentence boundary: the split cuts at every boundary, not only some |
| Sentences.SplitPiecesUnbroken | src/hooks/useConversation.js:248 | no piece of the split holds a sentence boundary |
| Sentences.SplitFromCount | src/hooks/useConversation.js:248 | the split yields exactly one piece more than the separators it consumes |
| Sentences.SeparatorsFromRuns | src/hooks/useConversation.js:248 | every consumed separator is a non-empty white-space run |
| Stream.StripDataPrefix | src/hooks/useConversation.js:264 | one leading `data: ` is removed when present, and the line is unchanged otherwise |
| Stream.LineDelta | src/hooks/useConversation.js:263-269 | a line yields a delta exactly when its trimmed payload is not blank, not `[DONE]`, parses and has non-empty content; the delta is that content and never empty |
| Stream.Tail | src/hooks/useConversation.js:255 | the tail `flushSentence` keeps is a suffix of its input and holds no boundary |
| Stream.Completed | src/hooks/useConversation.js:249-253 | the sentences spoken are, in order, the trims of all split pieces but the last |
| Stream.Utterable | src/hooks/useConversation.js:150 | the `speakSentence` guard: a sentence is spoken exactly when its trim is non-blank and it is not `[SILENT]`; `CompletedUtterable` proves every completed piece passes it |
| Stream.CompletedUtterable | src/hooks/useConversation.js:250-252 | every completed piece trims to a non-blank text other than `[SILENT]`, so the `if (parts[i].trim())` guard always passes and `speakSentence` accepts each one |
| Stream.FlushWithoutBoundary | src/hooks/useConversation.js:247-256 | a buffer with no boundary speaks nothing and is returned unchanged |
| Stream.FlushWithBoundary | src/hooks/useConversation.js:247-256 | a buffer with a boundary speaks at least one sentence |
| Stream.BoundaryInPrefix | src/hooks/useConversation.js:271 | appending text after a boundary keeps the boundary |
| Stream.BoundaryInSuffix | src/hooks/useConversation.js:270-271 | a boundary of the end of a text is a boundary of the whole text |
| Stream.SilentChars | src/hooks/useConversation.js:279 | `[SILENT]` contains no `.`, `!` or `?` |
| Stream.SilentHasNoTerminator | src/hooks/useConversation.js:279 | no character of a text whose trim is `[SILENT]` is `.`, `!` or `?` |
| Stream.SilentHasNoBoundary | src/hooks/useConversation.js:279 | a text whose trim is `[SILENT]` has no sentence boundary, so a silent reply speaks nothing while streaming |
| Stream.FreshCoherent | src/hooks/useConversation.js:243-245 | the read loop starts with coherent locals |
| Stream.SuffixOfSuffix | src/hooks/useConversation.js:273 | an end of an end of a text is an end of the text |
| Stream.SuffixExtends | src/hooks/useConversation.js:270-271 | appending the same delta to `fullText` and `buffer` keeps the buffer an end of `fullText` |
| Stream.BoundarySpreads | src/hooks/useConversation.js:270-273 | a text with a boundary passes it on to every text that ends with it and to every extension of it |
| Stream.FlushCoherent | src/hooks/useConversation.js:270-273 | after a delta and a flush, the buffer is again an end of `fullText` with no boundary; it is all of `fullText` until a sentence has been spoken; and once one has, `fullText` holds a boundary |
| Stream.Feed | src/hooks/useConversation.js:269-274 | a delta grows `fullText` by exactly the delta and keeps the loop's locals coherent (buffer an end of `fullText`) |
| Stream.FeedLine | src/hooks/useConversation.js:263-276 | one pass of the line handling: the line's delta, if any, is fed to the locals; `FeedLineEffect` states that a line without a delta changes nothing and one with a delta grows `fullText` by exactly it, keeping coherence |
| Stream.FeedLineEffect | src/hooks/useConversation.js:263-276 | a line without a delta leaves the locals unchanged; a line with one grows `fullText` by exactly that delta; both keep coherence |
| Stream.FeedWithoutBoundary | src/hooks/useConversation.js:269-274 | a delta that completes no sentence only extends the buffer and `fullText`, and `hasSentences` is unchanged |
| Stream.Leftover | src/hooks/useConversation.js:279-281 | the leftover is spoken exactly when its trim is non-blank and not `[SILENT]`; what is spoken is that trim, and `speakSentence` accepts it |
| Stream.Reply | src/hooks/useConversation.js:292-296 | an assistant message is recorded exactly when the trimmed reply is non-blank and not `[SILENT]`, and it is that trimmed reply |
| Stream.SilentReplyIsQuiet | src/hooks/useConversation.js:279-296 | a reply that is `[SILENT]` up to white space is neither recorded nor spoken, and no sentence was spoken while it streamed |
| Conversation.ImageOf | src/hooks/useConversation.js:332 | `frame?.base64 \|\| null`: a frame counts exactly when its base64 is present and non-empty |
| Conversation.FrameHash | src/hooks/useConversation.js:478 | the hash is the first 200 characters of the frame, or all of it when shorter |
| Conversation.PiecesSnoc | src/hooks/useConversation.js:407-413 | one more result adds its transcript to the pieces of its own kind only |
| Conversation.PiecesPartition | src/hooks/useConversation.js:409-413 | every result is counted as final or as interim, never both |
| Conversation.FinalsComeFirst | src/hooks/useConversation.js:415 | a final result that comes after an interim one still comes first in the merged transcript |
| Conversation.Merged | src/hooks/useConversation.js:415 | the transcript `onresult` records: the final pieces, then the interim pieces, trimmed; `MergeTranscript` proves the loop computes it and `FinalsComeFirst` that a later final precedes an earlier interim |
| Conversation.MergeTranscript | src/hooks/useConversation.js:405-415 | the loop yields all final pieces in index order, then all interim pieces, the whole trimmed |
| Conversation.HistoryFor | src/hooks/useConversation.js:217-218 | the history is the messages so far, plus a user message when the text is non-empty |
| Conversation.Queue | src/hooks/useConversation.js:168-170 | queuing sentences appends them to what was spoken, grows the counter and the outstanding callbacks by their number, and sets speaking when any was queued |
| Conversation.Spoke | src/hooks/useConversation.js:149-170 | `speakSentence` ignores blank and `[SILENT]` text and queues anything else |
| Conversation.QueueStep | src/hooks/useConversation.js:249-253 | speaking the next sentence of a list extends the queue by that sentence |
| Conversation.Silenced | src/hooks/useConversation.js:142-147 | `stopAllAudio` resets the counter to 0 and clears speaking; the cancelled utterances' callbacks are still to come |
| Conversation.Ended | src/hooks/useConversation.js:172-184 | a callback decrements the counter, clamps it at 0, and clears speaking when it reaches 0; otherwise speaking is kept |
| Conversation.VoiceEventsKeepOk | src/hooks/useConversation.js:172-175 | every speech event keeps the counter between 0 and the callbacks still to come, and positive only while speaking |
| Conversation.EndAfterSilence | src/hooks/useConversation.js:173-175 | the callback of an utterance cancelled by `stopAllAudio` finds the counter at 0 and leaves it there instead of going negative |
| Conversation.SilenceWhenQuiet | src/hooks/useConversation.js:320-322 | skipping `stopAllAudio` while not speaking changes nothing |
| Conversation.FlushStep | src/hooks/useConversation.js:249-253 | each loop step of `flushSentence` finds a non-blank piece and queues the next completed sentence |
| Conversation.FlushDone | src/hooks/useConversation.js:249 | when the loop ends, every completed sentence has been queued |
| Conversation.Deafened | src/hooks/useConversation.js:106-113 | recognition is aborted and both timers are cleared, and nothing else of speech input changes |
| Conversation.Cycle | src/hooks/useConversation.js:340-362 | `startListeningCycle` does nothing unless active and neither thinking nor sending; without recognition support it sets the error; otherwise any prior recognition is replaced by one of a fresh generation, with an empty transcript, no speech heard and no timers |
| Conversation.CycleReplaces | src/hooks/useConversation.js:348-351 | a replacing recognition has a newer generation than the one it replaces and than the owner of any pending timer, so the older one's callbacks are recognisably stale |
| Conversation.Opened | src/hooks/useConversation.js:210-219 | a user turn sets sending and a proactive one leaves it; the messages become the history; and a new turn, awaiting its response, records that history |
| Conversation.ProactiveOpened | src/hooks/useConversation.js:217-219 | a proactive turn appends its prompt as a user message and leaves sending as it was |
| Conversation.Finished | src/hooks/useConversation.js:279-288 | at stream end the leftover is spoken when not blank or `[SILENT]`, and speaking is set when anything was spoken during the turn, even if every utterance has already finished |
| Conversation.Recorded | src/hooks/useConversation.js:289-296 | at stream end thinking is cleared; only the turn that ended closes; the reply is appended as an assistant message, or the shown reply is cleared when the reply is blank or `[SILENT]` |
| Conversation.SilentTurnEnd | src/hooks/useConversation.js:279-296 | a `[SILENT]` reply changes nothing of speech output, records no message and clears the shown reply |
| Conversation.Controller.Phase | src/App.jsx:26-30 | the orb phase `App` derives from the hook's sending, thinking, speaking and listening flags; the constructor and `StopConversation` ensure it is idle, and `Scenarios.StreamEndAfterSpeech` shows it stuck at speaking |
| Conversation.Controller.constructor | src/hooks/useConversation.js:59-91 | every ref starts empty or false, and the orb is idle |
| Conversation.Controller.StartConversation | src/hooks/useConversation.js:491-509 | no guard: active is set, the interval runs, the messages, screen and error are cleared and a listening cycle is scheduled |
| Conversation.Controller.StopConversation | src/hooks/useConversation.js:511-530 | every flag is down, the counter is 0, there is no recognition, no timer and no interval, the messages are kept, and the orb is idle |
| Conversation.Controller.StopAllAudio | src/hooks/useConversation.js:142-147 | the voice becomes `Silenced` of what it was |
| Conversation.Controller.SpeakSentence | src/hooks/useConversation.js:149-190 | the voice becomes `Spoke` of what it was |
| Conversation.Controller.UtteranceDone | src/hooks/useConversation.js:172-187 | the voice becomes `Ended`; at zero the reply text is cleared, and listening is rescheduled when active and not thinking |
| Conversation.Controller.FlushSentence | src/hooks/useConversation.js:247-256 | the loop queues exactly the completed sentences, in order, returns the tail and reports whether any was spoken |
| Conversation.Controller.Submit | src/hooks/useConversation.js:193-219 | a user turn while thinking or sending is refused with nothing changed; a proactive one never is; otherwise recognition stops, the screen and error clear, and a new turn opens |
| Conversation.Controller.ResponseOk | src/hooks/useConversation.js:231-245 | an ok response ends sending for a user turn, sets thinking, and starts that turn's read loop with fresh locals |
| Conversation.Controller.ResponseFail | src/hooks/useConversation.js:298-307 | a failure clears thinking and sending even for a proactive turn, closes the turn and clears the reply; only a user turn shows the error, or the fallback text when the message is empty |
| Conversation.Controller.StreamLine | src/hooks/useConversation.js:263-276 | a line without a delta changes nothing; a delta is shown, grows the reply and speaks the sentences it completes |
| Conversation.Controller.TakeDelta | src/hooks/useConversation.js:269-274 | a delta is shown as the reply so far, the completed sentences are queued, and the turn's locals become `Feed` of the old ones |
| Conversation.Controller.StreamEnd | src/hooks/useConversation.js:279-296 | the voice becomes `Finished` and the chat and screen become `Recorded` of what they were |
| Conversation.Controller.SpeakLeftover | src/hooks/useConversation.js:279-288 | the voice becomes `Finished` of what it was |
| Conversation.Controller.RecordReply | src/hooks/useConversation.js:289-296 | the chat and screen become `Recorded` of what they were |
| Conversation.Controller.StartListeningCycle | src/hooks/useConversation.js:340-362 | speech input and the screen become `Cycle` of what they were |
| Conversation.Controller.ListenTimerFires | src/hooks/useConversation.js:181 | a scheduled call fires `startListeningCycle`; the calls are the timeouts at useConversation.js:181 (`UtteranceDone`), 334 (`TriggerSend`), 443 (`RecognitionEnd`), 460 (`OrbTap`), 508 (`StartConversation`) and 536 (`IdleEffect`), each of which raises `scheduledListens` by one, and this event lowers it by one |
| Conversation.Controller.RecognitionStart | src/hooks/useConversation.js:402 | `onstart` sets listening, with no staleness check |
| Conversation.Controller.OnResult | src/hooks/useConversation.js:404-419 | the merged transcript is recorded and shown, speech is marked as heard, the ring expands, the shrink is cancelled and the pause timer is re-armed |
| Conversation.Controller.PauseTimerFires | src/hooks/useConversation.js:393-396 | after speech was heard, the pause starts the shrink loop of the recognition that armed it with the ring at rest; otherwise nothing starts |
| Conversation.Controller.TriggerSend | src/hooks/useConversation.js:311-336 | what was heard is taken, speech is silenced and recognition is stopped; the text is offered as a user turn when active, else listening is rescheduled when active |
| Conversation.Controller.ShrinkTick | src/hooks/useConversation.js:369-385 | a frame of a superseded recognition, or one arriving while inactive, thinking or sending, only ends the loop; otherwise the ring shrinks, and after 2000 ms the turn is sent |
| Conversation.Controller.RecognitionEnd | src/hooks/useConversation.js:427-446 | `onend` of a superseded recognition changes nothing; the current one is released, and its text is sent when the assistant is idle, else listening is rescheduled when idle |
| Conversation.Controller.OrbTap | src/hooks/useConversation.js:455-466 | a tap while speaking silences and reschedules listening unless thinking; a tap after speech was heard sends it; any other tap changes nothing |
| Conversation.Controller.ProactiveTick | src/hooks/useConversation.js:472-487 | a tick sends only when active, not speaking, not thinking, a frame exists and its hash differs from the last one; the hash is recorded only then, and the turn is proactive |
| Conversation.Controller.IdleEffect | src/hooks/useConversation.js:533-538 | when idle and not listening, the ring is at rest and listening is scheduled; otherwise nothing changes |
| Conversation.Controller.Unmount | src/hooks/useConversation.js:541-551 | the cleanup deactivates, stops the interval and clears both timers; the recognition is aborted but stays referenced |
| Commands.MatchesAt | src/hooks/useSpeech.js:4-8 | a `\b<phrase>\b` match at a position fits in the text, ignores case and has a word boundary on both sides |
| Commands.OccursFrom | src/hooks/useSpeech.js:14 | the scan finds a match exactly when one exists at some position from the start |
| Commands.PatternMatches | src/hooks/useSpeech.js:14 | `item.match.test(text)` for the pattern at an index: its phrases tested by `TestAny`; `FirstMatch` and `ParseCommandIsEarliest` state which pattern `find` returns |
| Commands.TestAny | src/hooks/useSpeech.js:14 | a pattern's test succeeds exactly when one of its phrases occurs |
| Commands.FirstMatch | src/hooks/useSpeech.js:14 | `find` returns the first pattern in list order that accepts the text, or none when no pattern does |
| Commands.NamesListed | src/hooks/useSpeech.js:3-9 | every pattern's name is one of the five command names |
| Commands.ParseCommand | src/hooks/useSpeech.js:11-16 | a blank transcript gives none; the result is none exactly when no pattern accepts the trimmed text; any result is one of `capture`, `read_this`, `describe`, `stop`, `repeat` |
| Commands.ParseCommandIsEarliest | src/hooks/useSpeech.js:14-15 | pattern `j` is the answer exactly when it accepts the trimmed transcript and no earlier pattern does (both directions) |
| Commands.NamesDistinct | src/hooks/useSpeech.js:3-9 | no two patterns share a name |
| Commands.LeadFrom | src/hooks/useSpeech.js:22 | the text opens with a lead word exactly when some listed lead word matches at position 0 |
| Commands.ShouldTreatAsQuestion | src/hooks/useSpeech.js:18-25 | blank text is no question; a text ending in `?` is one; otherwise the answer is whether the lower-cased trimmed text opens with a lead word as a whole word |
| Commands.LastCommand | src/hooks/useSpeech.js:112-113 | the last command is the command, else `question` for a question, and empty exactly when there is neither |
| Commands.CallbackCommand | src/hooks/useSpeech.js:115 | the callback receives the command, or `question` whenever no command matched |
| Commands.FirstLetterDiffers | src/hooks/useSpeech.js:4-8 | a phrase cannot match where its first letter is not, ignoring case |
| Commands.CaptureIgnoresCase | src/hooks/useSpeech.js:4 | "Capture" is the capture command |
| Commands.ReadyIsNotRead | src/hooks/useSpeech.js:5 | "ready" does not match the read pattern |
| Commands.ReadStopIsNotCapture | src/hooks/useSpeech.js:4 | "read stop" does not match the capture pattern |
| Commands.ReadStopMatchesRead | src/hooks/useSpeech.js:5 | "read stop" matches the read pattern |
| Commands.ReadStopMatchesStop | src/hooks/useSpeech.js:7 | "read stop" matches the stop pattern |
| Commands.ReadBeatsStop | src/hooks/useSpeech.js:14 | when both read and stop match, the earlier pattern wins: `read_this` |
| Commands.LowerIsIt | src/hooks/useSpeech.js:19 | "Is it" lower-cases to "is it" |
| Commands.IsItIsQuestion | src/hooks/useSpeech.js:22 | "Is it" is a question |
| Commands.LeadInitials | src/hooks/useSpeech.js:22 | only the lead word "is" starts with `i` |
| Commands.IslandHasNoLead | src/hooks/useSpeech.js:22 | no lead word opens "island" as a whole word |
| Commands.IslandIsNotQuestion | src/hooks/useSpeech.js:22 | "island" is not a question |
| Commands.QuestionMarkAndBlank | src/hooks/useSpeech.js:19-21 | a text ending in `?` is a question and blank text is not |
| SpeechHook.Recognizer.constructor | src/hooks/useSpeech.js:28-44 | no recognition, not listening, no handler, and empty texts |
| SpeechHook.Recognizer.SetOnCommand | src/hooks/useSpeech.js:134-136 | the command callback is registered or cleared |
| SpeechHook.Recognizer.StartListening | src/hooks/useSpeech.js:80-91 | nothing happens when unsupported or already listening; otherwise the error clears and an instance is held |
| SpeechHook.Recognizer.OnStart | src/hooks/useSpeech.js:91 | `onstart` sets listening |
| SpeechHook.Recognizer.OnEnd | src/hooks/useSpeech.js:92-100 | the instance is released, listening is cleared, and a restart is asked for exactly in continuous mode while not speaking |
| SpeechHook.Recognizer.OnError | src/hooks/useSpeech.js:101-107 | the instance is released; every error but `no-speech` is reported with its code, and `no-speech` keeps the old error |
| SpeechHook.Recognizer.OnResult | src/hooks/useSpeech.js:109-117 | the trimmed first alternative (empty when absent) is recorded; the last command is empty exactly when there is neither a command nor a question; a registered callback gets the command, or `question` when none matched |
| SpeechHook.Recognizer.StopListening | src/hooks/useSpeech.js:123-127 | the instance is released and listening is cleared |
| Proxy.StatusOf | vite.config.js:12-21 | a refused method answers 405, a server error 500 and a bad body 400; no status is set exactly when the request is forwarded or no reply is sent |
| Proxy.WithImage | vite.config.js:55-62 | the replacement is a user message whose content is a text part (the old content when it was a string, else empty) and an image part holding the JPEG data URL of the frame |
| Proxy.Augmented | vite.config.js:50-64 | the augmented list has the input's length and every element but the last is unchanged; the last is replaced exactly when the frame is truthy and the last message is a user message, and an empty list is unchanged |
| Proxy.AugmentInPlace | vite.config.js:51-64 | copying the list and overwriting its last slot yields `Augmented` |
| Proxy.Precheck | vite.config.js:39-40 | a non-POST request gets 405 before any other check, and a missing key gets 500 before the body is read |
| Proxy.ParseBody | vite.config.js:44 | an empty body parses as `{}`; any other body is parsed as given, and may yield `null` |
| Proxy.ChatReply | vite.config.js:38-79 | the checks come in order 405, 500, 400, 500: a body that parses to an object without messages fails with "Missing messages", an empty body included; a body that parses to `null` gets no reply; a request is forwarded exactly when the body parses to an object with messages, with the augmented messages, the default model and 150 tokens |
| Proxy.ChatStreamReply | vite.config.js:38-79 | `handleChatStream` forwards a streamed request |
| Proxy.NonStreamingChatReply | vite.config.js:111-143 | `handleChat` forwards a request that is not streamed |
| Proxy.ChatHandlersAgree | vite.config.js:123-136 | both chat handlers answer alike and forward the same messages; only streaming differs |
| Proxy.VisionReply | vite.config.js:206-218 | `handleVision` never answers 400, because an unparsable body counts as `{}`; a body that parses to `null` gets no reply; an object without a truthy frame gives 500 "Missing base64Image"; the request is forwarded exactly when the frame is truthy, with the prompt defaulting to "Describe this image." and 500 tokens |
| Proxy.ReadBody | vite.config.js:22-28 | the body is the data chunks concatenated in arrival order |
| Orb.OrbStateOf | src/App.jsx:26-30 | the phase is sending whenever sending; otherwise the first of thinking, speaking and listening that holds; idle exactly when all four flags are false |
| Orb.LabelOf | src/App.jsx:58-62 | the caption of each phase; `OrbLabel` proves `App`'s chain picks it and `LabelOfInjective` that it identifies the phase |
| Orb.LabelOfInjective | src/App.jsx:58-62 | distinct phases have distinct labels |
| Orb.StateName | src/App.jsx:26-30 | the `orbState` string of each phase; `OrbClass` proves `App`'s chain picks it and `StateNameInjective` that it identifies the phase |
| Orb.StateNameInjective | src/App.jsx:26-30 | distinct phases have distinct `orbState` strings, so the orb's class identifies its phase |
| Orb.OrbLabel | src/App.jsx:57-63 | the label chain picks the label of the phase `OrbStateOf` picks, so label and phase always correspond |
| Orb.OrbClass | src/App.jsx:26-30 | the class `orb orb--${orbState}` built from `App`'s chain is `orb orb--` followed by the modifier of the phase `OrbStateOf` picks |
| Orb.RingStyle | src/App.jsx:51 | the ring-scale style is applied exactly while listening |
| Orb.TranscriptShown | src/App.jsx:67-71 | the user transcript is shown exactly when it is non-empty, active and listening |
| Orb.ReplyShown | src/App.jsx:73-77 | the reply is shown exactly when it is non-empty and active |
| Orb.ActionButtonOf | src/App.jsx:79-89 | while inactive the start button is shown, enabled and captioned "Start" exactly when the camera is ready; while active the end button is shown |
| Orb.OrbShown | src/App.jsx:47-65 | the orb is shown exactly while active; its phase is `OrbStateOf` of the four flags, its class is `orb orb--` and that phase's modifier, its ring is `RingStyle` and its caption is the label of its phase |
| Scenarios.StopTwice | src/hooks/useConversation.js:511-530 | a second stop leaves the state of the first: every flag down, no recognition, no timer and the orb idle |
| Scenarios.HelloCompletes | src/hooks/useConversation.js:247-256 | `"Hello. "` speaks `"Hello."` and keeps an empty tail |
| Scenarios.HelloFeeds | src/hooks/useConversation.js:269-274 | a first delta `"Hello. "` leaves a turn that has spoken, with an empty buffer |
| Scenarios.StreamEndAfterSpeech | src/hooks/useConversation.js:284-288 | when every utterance has already finished, the stream end of a turn that spoke (with a blank leftover) sets speaking with nothing pending and no callback left to clear it, so the orb shows speaking |

## Left out

- The thinking chime, voice selection, and utterance rate, pitch and volume are not modelled. They are Web Audio and speech-synthesis settings with no effect on the state.
- `fetch`, `TextDecoder` and the stream reader are not modelled. The reply arrives as a sequence of lines, and `StreamLine` takes one line at a time.
- A JSON line split across two chunks is dropped by the source. The model makes no claim about reconstruction across chunks.
- `JSON.parse` is an oracle `contentOf` from the trimmed line to the optional `choices[0].delta.content`. A content that is present but not a string is outside the model.
- The ring's float values are not modelled: 1.4 while speech is heard, `1 - progress` while shrinking. The ring is `Rest`, `Expanded` or `Shrinking(elapsedMs)`, in integer milliseconds against the 2000 ms threshold.
- The `setTimeout` delays (100, 200, 300 ms before listening again, 500 ms of pause, 25 s between proactive ticks) are not modelled as time. A scheduled listen is a counter that `ListenTimerFires` decrements, and the pause timer and interval are events.
- React state/ref mirroring and render scheduling are left out. Each ref is the authoritative field, and `IdleEffect` reads the refs where the source reads the mirrored state.
- Each utterance reports its end or its error once. A browser that fires both would deliver `UtteranceDone` twice.
- The recognition's own `onerror` is not modelled: it only logs a warning, and the `onend` that follows is modelled.
- The cancelled warmup utterance of `startConversation` is not counted by the source, so it is not modelled.
- Conversation.Controller.ResponseFail: the error text (`Chat failed: <status>` or the thrown message) is a parameter, because the model has no HTTP status or exceptions.
- Conversation.Controller.ShrinkTick: a stale frame leaves the source's frame handle set. The model drops it (`shrink := None`), which is indistinguishable because no later frame comes.
- The system prompt text is left out. It is a constant the model never inspects.
- The `system` message prepended to the history when sending is left out.
- The read loop's coherence is not carried in `Controller.Valid`. It is proved at the level of the functions: `Stream.FreshCoherent` and `Stream.Feed`. `Controller.Valid` stays free of quantifiers so that every event verifies within the resource limit.
- `toLowerCase` of non-ASCII characters is not modelled. Only ASCII letters are folded. No pattern holds a non-ASCII character, and the non-unicode `i` flag folds no such character onto an ASCII one. `toLowerCase` itself does, though: it maps U+212A KELVIN SIGN to `k`, a word character. A transcript such as `is` followed by that sign therefore has no lead word in the source, but has one in the model, where the sign stays a non-word character.
- Proxy.ChatReply: a `messages` value that is present but not an array, or a falsy non-null value such as `0`, is outside the model. A payload's messages are either absent or a list.
- Proxy.ReadBody: each chunk is decoded on its own before concatenation, so a multi-byte UTF-8 character split across two chunks is garbled in the source. The model's chunks are already strings, so it does not capture that.
- The upstream OpenAI calls are not modelled: the proxy's result is the request it would send. Also not modelled: the upstream status passthrough, streaming relay, the whisper and TTS handlers (the TTS float speed included), the binary body reader, the PWA configuration and the middleware routing.
- The `useSpeech` effects, the continuous-mode restart loop, `speak`, `replay` and `stopSpeaking` are effect-driven browser wiring. `OnEnd` reports only whether a restart is asked for.
- `useCamera`, `useVision` and the UI components are not part of this model. A captured frame is an input that may be absent.
