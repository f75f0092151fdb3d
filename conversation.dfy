/**
 * The `useConversation` controller: a single-threaded event machine over the
 * hook's refs. Every browser callback that the hook installs is a method of
 * `Controller`; the replies of `fetch`, the lines of the reply stream, the
 * recognition events, the speech-synthesis callbacks and the timers are the
 * events a caller delivers, in any order the browser could deliver them.
 *
 * Each method's `modifies` clause names exactly the refs the handler may
 * write; its `ensures` clauses give their new values.
 */
module Conversation {
  import opened Common
  import opened JsText
  import opened Sentences
  import opened Stream
  import Orb

  /** How long the ring takes to shrink onto the orb before the turn is sent. */
  const ShrinkDurationMs := 2000

  /** How many leading characters of a frame's base64 decide that the scene changed. */
  const FrameHashLength := 200

  /** The request a proactive turn sends with the current frame. */
  const ProactivePrompt := "Observe the current scene. If there is anything important, dangerous, or notably different, mention it naturally. Otherwise respond with [SILENT]."

  const UnsupportedMessage := "Speech recognition not supported in this browser."

  /** The error shown when a failed request carries no message. */
  const FallbackError := "Something went wrong."

  datatype Role = User | Assistant

  datatype ChatMessage = ChatMessage(role: Role, content: string)

  /** The ring around the orb: at rest, expanded by speech, or shrinking for
      `elapsedMs` since the pause was detected. */
  datatype Ring = Rest | Expanded | Shrinking(elapsedMs: int)

  /** A pending animation frame of the shrink loop, owned by one recognition. */
  datatype ShrinkLoop = ShrinkLoop(generation: nat, startMs: int)

  /** Where a chat request stands: waiting for the response, reading it, or
      finished (answered or failed). */
  datatype Stage = Awaiting | Streaming(progress: Progress) | Closed

  /** One `sendToChat` in flight: what it sent and where it stands. */
  datatype Turn = Turn(proactive: bool, history: seq<ChatMessage>, image: Option<string>, stage: Stage)

  /** One entry of a recognition result list: its first alternative. */
  datatype RecognitionResult = RecognitionResult(isFinal: bool, transcript: string)

  /** `frame?.base64 || null`: a frame counts only when its base64 is non-empty. */
  function ImageOf(frame: Option<string>): (image: Option<string>)
    ensures image.Some? <==> frame.Some? && frame.value != []
    ensures image.Some? ==> image == frame
  {
    if frame.Some? && frame.value != [] then frame else None
  }

  /** `base64.slice(0, 200)`. */
  function FrameHash(base64: string): (hash: string)
    ensures |hash| == if |base64| < FrameHashLength then |base64| else FrameHashLength
    ensures hash == base64[..|hash|]
  {
    if |base64| < FrameHashLength then base64 else base64[..FrameHashLength]
  }

  /** The transcripts of the results whose `isFinal` is `final`, in index order. */
  function Pieces(results: seq<RecognitionResult>, final: bool): seq<string> {
    if results == [] then []
    else
      var last := results[|results| - 1];
      Pieces(results[..|results| - 1], final) + (if last.isFinal == final then [last.transcript] else [])
  }

  /** One more result adds its transcript to the pieces of its kind only. */
  lemma PiecesSnoc(results: seq<RecognitionResult>, r: RecognitionResult, final: bool)
    ensures Pieces(results + [r], final) == Pieces(results, final) + (if r.isFinal == final then [r.transcript] else [])
  {
    assert (results + [r])[..|results|] == results;
  }

  /** Every result is either final or interim. */
  lemma {:induction false} PiecesPartition(results: seq<RecognitionResult>)
    ensures |Pieces(results, true)| + |Pieces(results, false)| == |results|
  {
    if results != [] {
      PiecesPartition(results[..|results| - 1]);
    }
  }

  /** The transcript `onresult` records: all final pieces, then all interim
      pieces, the whole trimmed. */
  function Merged(results: seq<RecognitionResult>): string {
    Trim(Concat(Pieces(results, true)) + Concat(Pieces(results, false)))
  }

  /** A later final result still comes before an earlier interim one. */
  lemma FinalsComeFirst(interim: RecognitionResult, final: RecognitionResult)
    requires !interim.isFinal && final.isFinal
    ensures Merged([interim, final]) == Trim(final.transcript + interim.transcript)
  {
    assert [interim] == [] + [interim];
    PiecesSnoc([], interim, true);
    PiecesSnoc([], interim, false);
    assert [interim, final] == [interim] + [final];
    PiecesSnoc([interim], final, true);
    PiecesSnoc([interim], final, false);
    ConcatSingle(final.transcript);
    ConcatSingle(interim.transcript);
  }

  /** The transcript merge of `onresult`. */
  method MergeTranscript(results: seq<RecognitionResult>) returns (t: string)
    ensures t == Merged(results)
  {
    var final, interim := [], [];
    for i := 0 to |results|
      invariant final == Concat(Pieces(results[..i], true))
      invariant interim == Concat(Pieces(results[..i], false))
    {
      var r, done := results[i], results[..i];
      assert results[..i + 1] == done + [r];
      PiecesSnoc(done, r, true);
      PiecesSnoc(done, r, false);
      ConcatAppend(Pieces(done, r.isFinal), [r.transcript]);
      ConcatSingle(r.transcript);
      if r.isFinal {
        assert Pieces(done + [r], true) == Pieces(done, true) + [r.transcript];
        assert Pieces(done + [r], false) == Pieces(done, false);
        final := final + r.transcript;
      } else {
        assert Pieces(done + [r], false) == Pieces(done, false) + [r.transcript];
        assert Pieces(done + [r], true) == Pieces(done, true);
        interim := interim + r.transcript;
      }
    }
    assert results[..|results|] == results;
    t := Trim(final + interim);
  }

  /** The history a turn sends: the messages so far, plus the user's text
      when there is any. */
  function HistoryFor(messages: seq<ChatMessage>, userText: string): (history: seq<ChatMessage>)
    ensures userText == [] ==> history == messages
    ensures userText != [] ==> |history| == |messages| + 1 && history[..|messages|] == messages
    ensures userText != [] ==> history[|messages|] == ChatMessage(User, userText)
  {
    if userText != [] then messages + [ChatMessage(User, userText)] else messages
  }

  // ── The hook's refs, grouped by the part of the hook that owns them ──

  /** Start/stop and the proactive monitor: `activeRef`, whether
      `proactiveTimerRef` holds an interval, `lastFrameHashRef`. */
  datatype Session = Session(active: bool, proactiveTimer: bool, lastFrameHash: string)

  /** Speech output: `speakingRef`, `pendingUtterancesRef`, the utterances
      whose end or error callback is still to come, and every sentence
      handed to speech synthesis, in order. */
  datatype Voice = Voice(speaking: bool, pending: int, outstanding: nat, spoken: seq<string>)

  /** Speech input: `isListening`, the generation of the recognition in
      `recognitionRef`, the next generation to hand out, `transcriptRef`,
      `hadSpeechRef`, the armed speech-pause timer (with the generation of
      the recognition whose result armed it), the requested shrink frame,
      and the scheduled `startListeningCycle` calls not yet fired. */
  datatype Ear = Ear(listening: bool, recognition: Option<nat>, nextGeneration: nat,
                     transcript: string, hadSpeech: bool,
                     pause: Option<nat>, shrink: Option<ShrinkLoop>, scheduledListens: nat)

  /** The chat: `thinkingRef`, `sendingRef`, `messagesRef`, and every
      `sendToChat` call that got as far as `fetch`, its index serving as its
      request id. */
  datatype Chat = Chat(thinking: bool, sending: bool, messages: seq<ChatMessage>, turns: seq<Turn>)

  /** What is on screen: `currentJiaText`, `currentUserText`, the ring and
      the error. */
  datatype Display = Display(replyText: string, userText: string, ring: Ring, error: string)

  const Blank := Display([], [], Rest, [])

  // ── Speech output ─────────────────────────────────────────────────

  /** The counter never goes below zero, never counts more than the
      callbacks still to come, and a positive count means speaking. */
  predicate VoiceOk(v: Voice) {
    0 <= v.pending <= v.outstanding && (v.pending > 0 ==> v.speaking)
  }

  /** Sentences that all pass `speakSentence`'s guard, queued in order. */
  function Queue(v: Voice, sentences: seq<string>): (w: Voice)
    ensures w.spoken == v.spoken + sentences
    ensures w.pending == v.pending + |sentences| && w.outstanding == v.outstanding + |sentences|
    ensures w.speaking <==> v.speaking || sentences != []
  {
    v.(spoken := v.spoken + sentences, pending := v.pending + |sentences|,
       outstanding := v.outstanding + |sentences|, speaking := v.speaking || sentences != [])
  }

  /** `speakSentence`: blank text and `[SILENT]` are ignored; anything else
      is queued. */
  function Spoke(v: Voice, sentence: string): (w: Voice)
    ensures !Utterable(sentence) ==> w == v
    ensures Utterable(sentence) ==> w == Queue(v, [sentence])
  {
    if Utterable(sentence) then Queue(v, [sentence]) else v
  }

  /** Speaking the next sentence of a list extends the queue by it. */
  lemma QueueStep(v: Voice, sentences: seq<string>, i: nat)
    requires i < |sentences| && Utterable(sentences[i])
    ensures Spoke(Queue(v, sentences[..i]), sentences[i]) == Queue(v, sentences[..i + 1])
  {
    assert sentences[..i + 1] == sentences[..i] + [sentences[i]];
    assert v.spoken + sentences[..i] + [sentences[i]] == v.spoken + sentences[..i + 1];
  }

  /** `stopAllAudio`: the queue is cancelled and the counter reset; the
      cancelled utterances still report their end. */
  function Silenced(v: Voice): (w: Voice)
    ensures w.pending == 0 && !w.speaking
    ensures w.outstanding == v.outstanding && w.spoken == v.spoken
  {
    v.(pending := 0, speaking := false)
  }

  /** An utterance's end or error callback: one callback fewer to come,
      the counter decremented and clamped at zero, and speaking cleared when
      it reaches zero. */
  function Ended(v: Voice): (w: Voice)
    requires v.outstanding > 0
    ensures w.outstanding == v.outstanding - 1 && w.spoken == v.spoken
    ensures v.pending > 1 ==> w.pending == v.pending - 1 && w.speaking == v.speaking
    ensures v.pending <= 1 ==> w.pending == 0 && !w.speaking
  {
    if v.pending - 1 <= 0 then v.(outstanding := v.outstanding - 1, pending := 0, speaking := false)
    else v.(outstanding := v.outstanding - 1, pending := v.pending - 1)
  }

  /** Every speech event keeps the counter sound. */
  lemma VoiceEventsKeepOk(v: Voice, sentences: seq<string>, sentence: string)
    requires VoiceOk(v)
    ensures VoiceOk(Queue(v, sentences)) && VoiceOk(Spoke(v, sentence)) && VoiceOk(Silenced(v))
    ensures v.outstanding > 0 ==> VoiceOk(Ended(v))
  {
  }

  /** A callback of an utterance cancelled by `stopAllAudio` finds the
      counter at zero and leaves it there instead of going negative. */
  lemma EndAfterSilence(v: Voice)
    requires v.outstanding > 0
    ensures Ended(Silenced(v)).pending == 0 && !Ended(Silenced(v)).speaking
  {
  }

  /** While not speaking, silencing changes nothing. */
  lemma SilenceWhenQuiet(v: Voice)
    requires VoiceOk(v) && !v.speaking
    ensures Silenced(v) == v
  {
  }

  /** One step of `flushSentence`'s loop: the next piece's trim is never
      blank, and speaking it queues the next completed sentence. */
  lemma FlushStep(v: Voice, text: string, i: nat)
    requires i < |Split(text)| - 1
    ensures Trim(Split(text)[i]) != []
    ensures Spoke(Queue(v, Completed(text)[..i]), Trim(Split(text)[i])) == Queue(v, Completed(text)[..i + 1])
  {
    CompletedUtterable(text);
    QueueStep(v, Completed(text), i);
  }

  /** After the loop every completed sentence is queued. */
  lemma FlushDone(text: string)
    ensures Completed(text)[..|Split(text)| - 1] == Completed(text)
  {
  }

  // ── Speech input ──────────────────────────────────────────────────

  /** Generations are handed out in order. */
  predicate EarOk(e: Ear) {
    && (e.recognition.Some? ==> e.recognition.value < e.nextGeneration)
    && (e.pause.Some? ==> e.pause.value < e.nextGeneration)
    && (e.shrink.Some? ==> e.shrink.value.generation < e.nextGeneration)
  }

  /** Recognition aborted and its timers cleared (`killRecognition`, and
      the same steps inside `sendToChat` and `triggerSend`). */
  function Deafened(e: Ear): (f: Ear)
    ensures f.recognition.None? && !f.listening && f.pause.None? && f.shrink.None?
    ensures f.transcript == e.transcript && f.hadSpeech == e.hadSpeech
    ensures f.nextGeneration == e.nextGeneration && f.scheduledListens == e.scheduledListens
  {
    e.(recognition := None, listening := false, pause := None, shrink := None)
  }

  /** `startListeningCycle` as a function of the refs it reads and writes:
      nothing unless active and neither thinking nor sending; an error when
      recognition is unsupported; otherwise any prior recognition is
      replaced by one of a fresh generation, with an empty transcript, no
      timers and the ring at rest. */
  function Cycle(active: bool, c: Chat, supported: bool, e: Ear, d: Display): (r: (Ear, Display))
    ensures !active || c.thinking || c.sending ==> r == (e, d)
    ensures active && !c.thinking && !c.sending && !supported ==> r == (e, d.(error := UnsupportedMessage))
    ensures active && !c.thinking && !c.sending && supported ==>
              && r.0.recognition == Some(e.nextGeneration) && r.0.nextGeneration == e.nextGeneration + 1
              && r.0.transcript == [] && !r.0.hadSpeech && r.0.pause.None? && r.0.shrink.None?
              && r.0.listening == e.listening && r.0.scheduledListens == e.scheduledListens
              && r.1 == d.(ring := Rest)
  {
    if !active || c.thinking || c.sending then (e, d)
    else if !supported then (e, d.(error := UnsupportedMessage))
    else
      (e.(recognition := Some(e.nextGeneration), nextGeneration := e.nextGeneration + 1,
          pause := None, shrink := None, transcript := [], hadSpeech := false),
       d.(ring := Rest))
  }

  /** A new recognition can never be mistaken for the one it replaces, nor
      for the owner of any earlier timer. */
  lemma CycleReplaces(active: bool, c: Chat, supported: bool, e: Ear, d: Display)
    requires EarOk(e)
    ensures EarOk(Cycle(active, c, supported, e, d).0)
    ensures var f := Cycle(active, c, supported, e, d).0;
            f.recognition != e.recognition ==>
              f.recognition.Some? && (e.recognition.Some? ==> e.recognition.value < f.recognition.value)
    ensures var f := Cycle(active, c, supported, e, d).0;
            f.recognition != e.recognition && e.pause.Some? ==> f.recognition != Some(e.pause.value)
  {
  }

  // ── Chat ──────────────────────────────────────────────────────────

  /** The chat part of `sendToChat` once it proceeds: a user turn is marked
      as being sent, the user's text joins the messages, and a new turn,
      awaiting its response, records the history it sends. */
  function Opened(c: Chat, text: string, image: Option<string>, proactive: bool): (o: Chat)
    ensures o.thinking == c.thinking
    ensures o.sending == (c.sending || !proactive)
    ensures o.messages == HistoryFor(c.messages, text)
    ensures o.turns == c.turns + [Turn(proactive, o.messages, image, Awaiting)]
  {
    var history := HistoryFor(c.messages, text);
    c.(sending := c.sending || !proactive, messages := history,
       turns := c.turns + [Turn(proactive, history, image, Awaiting)])
  }

  /** A proactive turn leaves sending as it was and records its prompt as a
      user message. */
  lemma ProactiveOpened(c: Chat, image: Option<string>)
    ensures Opened(c, ProactivePrompt, image, true).sending == c.sending
    ensures Opened(c, ProactivePrompt, image, true).messages == c.messages + [ChatMessage(User, ProactivePrompt)]
    ensures Opened(c, ProactivePrompt, image, true).turns[|c.turns|].history == c.messages + [ChatMessage(User, ProactivePrompt)]
  {
  }

  /** The speech effect of a stream's end: the leftover is spoken when it
      is neither blank nor `[SILENT]`, and speaking is set if anything was
      spoken during the turn, even when every utterance has already
      finished. */
  function Finished(v: Voice, p: Progress): (w: Voice)
    ensures Leftover(p).None? ==> w == v.(speaking := v.speaking || p.hasSentences)
    ensures Leftover(p).Some? ==> w == Queue(v, [Leftover(p).value]).(speaking := true)
  {
    var leftover := Leftover(p);
    var spoke := if leftover.Some? then Spoke(v, leftover.value) else v;
    spoke.(speaking := spoke.speaking || p.hasSentences || leftover.Some?)
  }

  /** The chat and screen effect of a stream's end: thinking ends, the turn
      closes, and the reply is recorded unless it is blank or `[SILENT]`, in
      which case the shown reply is cleared. */
  function Recorded(c: Chat, d: Display, id: nat, p: Progress): (r: (Chat, Display))
    requires id < |c.turns|
    ensures !r.0.thinking && r.0.sending == c.sending && |r.0.turns| == |c.turns| && r.0.turns[id].stage.Closed?
    ensures forall k :: 0 <= k < |c.turns| && k != id ==> r.0.turns[k] == c.turns[k]
    ensures Reply(p).Some? ==> r.0.messages == c.messages + [ChatMessage(Assistant, Reply(p).value)] && r.1 == d
    ensures Reply(p).None? ==> r.0.messages == c.messages && r.1 == d.(replyText := [])
  {
    var reply := Reply(p);
    (c.(thinking := false, turns := c.turns[id := c.turns[id].(stage := Closed)],
        messages := if reply.Some? then c.messages + [ChatMessage(Assistant, reply.value)] else c.messages),
     if reply.Some? then d else d.(replyText := []))
  }

  /** A `[SILENT]` reply of a coherent stream is neither spoken nor
      recorded, and what is shown is cleared. */
  lemma SilentTurnEnd(v: Voice, c: Chat, d: Display, id: nat, p: Progress)
    requires Coherent(p) && Trim(p.fullText) == Silent && id < |c.turns|
    ensures Finished(v, p) == v
    ensures Recorded(c, d, id, p).0.messages == c.messages && Recorded(c, d, id, p).1 == d.(replyText := [])
  {
    SilentReplyIsQuiet(p);
  }

  // ── The controller ────────────────────────────────────────────────

  class Controller {
    /** Whether the browser offers speech recognition. */
    const recognitionSupported: bool

    var session: Session
    var voice: Voice
    var ear: Ear
    var chat: Chat
    var display: Display

    /** What every event preserves. */
    predicate Valid()
      reads this
    {
      && VoiceOk(voice)
      && EarOk(ear)
      // The proactive interval runs exactly while the conversation is active.
      && session.proactiveTimer == session.active
      // A request being sent has stopped recognition.
      && (chat.sending ==> ear.recognition.None?)
    }

    /** The orb phase the application shows. */
    function Phase(): Orb.OrbState
      reads this
    {
      Orb.OrbStateOf(chat.sending, chat.thinking, voice.speaking, ear.listening)
    }

    constructor (recognitionSupported: bool)
      ensures this.recognitionSupported == recognitionSupported
      ensures Valid() && Phase() == Orb.Idle
      ensures session == Session(false, false, [])
      ensures voice == Voice(false, 0, 0, [])
      ensures ear == Ear(false, None, 0, [], false, None, None, 0)
      ensures chat == Chat(false, false, [], [])
      ensures display == Blank
    {
      this.recognitionSupported := recognitionSupported;
      session := Session(false, false, []);
      voice := Voice(false, 0, 0, []);
      ear := Ear(false, None, 0, [], false, None, None, 0);
      chat := Chat(false, false, [], []);
      display := Blank;
    }

    /** `startConversation`: no guard against an active conversation; the
        messages and the screen are cleared, the proactive interval
        (re)started and the first listening cycle scheduled. */
    method StartConversation()
      requires Valid()
      modifies this`session, this`chat, this`display, this`ear
      ensures Valid()
      ensures session == old(session).(active := true, proactiveTimer := true)
      ensures chat == old(chat).(messages := [])
      ensures display == Blank
      ensures ear == old(ear).(scheduledListens := old(ear).scheduledListens + 1)
    {
      session := session.(active := true, proactiveTimer := true);
      chat := chat.(messages := []);
      display := Blank;
      ear := ear.(scheduledListens := ear.scheduledListens + 1);
    }

    /** `stopConversation`: every flag down, no recognition, no timer, no
        interval. The error and the messages are kept, and requests in
        flight go on. */
    method StopConversation()
      requires Valid()
      modifies this`session, this`ear, this`voice, this`chat, this`display
      ensures Valid()
      ensures session == old(session).(active := false, proactiveTimer := false)
      ensures ear == Deafened(old(ear))
      ensures voice == Silenced(old(voice))
      ensures chat == old(chat).(thinking := false, sending := false)
      ensures display == old(display).(replyText := [], userText := [], ring := Rest)
      ensures Phase() == Orb.Idle
    {
      session := session.(active := false, proactiveTimer := false);
      ear := Deafened(ear);
      StopAllAudio();
      chat := chat.(thinking := false, sending := false);
      display := display.(replyText := [], userText := [], ring := Rest);
    }

    /** `stopAllAudio`. */
    method StopAllAudio()
      requires Valid()
      modifies this`voice
      ensures Valid()
      ensures voice == Silenced(old(voice))
    {
      voice := Silenced(voice);
    }

    /** `speakSentence`. */
    method SpeakSentence(sentence: string)
      requires Valid()
      modifies this`voice
      ensures Valid()
      ensures voice == Spoke(old(voice), sentence)
    {
      if Trim(sentence) == [] || sentence == Silent {
        return;
      }
      voice := voice.(spoken := voice.spoken + [sentence], pending := voice.pending + 1,
                      outstanding := voice.outstanding + 1, speaking := true);
    }

    /** The `onend`/`onerror` callback of a spoken utterance. When the
        counter reaches zero the reply text is cleared and, unless a reply
        is being read, listening is rescheduled. */
    method UtteranceDone()
      requires Valid() && voice.outstanding > 0
      modifies this`voice, this`display, this`ear
      ensures Valid()
      ensures voice == Ended(old(voice))
      ensures old(voice).pending > 1 ==> unchanged(this`display, this`ear)
      ensures old(voice).pending <= 1 ==>
                && display == old(display).(replyText := [])
                && ear == old(ear).(scheduledListens :=
                     if session.active && !chat.thinking then old(ear).scheduledListens + 1 else old(ear).scheduledListens)
    {
      var rest := voice.pending - 1;
      if rest <= 0 {
        voice := voice.(outstanding := voice.outstanding - 1, pending := 0, speaking := false);
        display := display.(replyText := []);
        if session.active && !chat.thinking {
          ear := ear.(scheduledListens := ear.scheduledListens + 1);
        }
      } else {
        voice := voice.(outstanding := voice.outstanding - 1, pending := rest);
      }
    }

    /** `flushSentence`: speaks the trim of every split piece before the
        tail, in order, and returns the tail. */
    method FlushSentence(text: string) returns (tail: string, spokeAny: bool)
      requires Valid()
      modifies this`voice
      ensures Valid()
      ensures tail == Tail(text)
      ensures spokeAny <==> Completed(text) != []
      ensures voice == Queue(old(voice), Completed(text))
    {
      var parts := Split(text);
      spokeAny := false;
      for i := 0 to |parts| - 1
        invariant Valid()
        invariant voice == Queue(old(voice), Completed(text)[..i])
        invariant spokeAny <==> i > 0
      {
        FlushStep(old(voice), text, i);
        var sentence := Trim(parts[i]);
        if sentence != [] {
          spokeAny := true;
          SpeakSentence(sentence);
        }
      }
      FlushDone(text);
      tail := parts[|parts| - 1];
    }

    /** `sendToChat` up to the `fetch`. A user turn is refused, with
        nothing changed, while one is being sent or answered; a proactive
        one never is. */
    method Submit(text: string, image: Option<string>, proactive: bool) returns (id: Option<nat>)
      requires Valid()
      modifies this`ear, this`display, this`chat
      ensures Valid()
      ensures id.None? <==> !proactive && (old(chat).thinking || old(chat).sending)
      ensures id.None? ==> unchanged(this)
      ensures id.Some? ==> && id.value == |old(chat).turns|
                           && ear == Deafened(old(ear))
                           && display == Blank
                           && chat == Opened(old(chat), text, image, proactive)
    {
      if !proactive && (chat.thinking || chat.sending) {
        return None;
      }
      ear := Deafened(ear);
      display := Blank;
      id := Some(|chat.turns|);
      chat := Opened(chat, text, image, proactive);
    }

    /** The response of turn `id` arrived with an ok status: a user turn
        stops sending, and the assistant is thinking while the stream is
        read. */
    method ResponseOk(id: nat)
      requires Valid() && id < |chat.turns| && chat.turns[id].stage.Awaiting?
      modifies this`chat
      ensures Valid()
      ensures chat == old(chat).(sending := old(chat).sending && old(chat).turns[id].proactive,
                thinking := true,
                turns := old(chat).turns[id := old(chat).turns[id].(stage := Streaming(Fresh))])
    {
      FreshCoherent();
      var turn := chat.turns[id];
      chat := chat.(sending := chat.sending && turn.proactive, thinking := true,
                    turns := chat.turns[id := turn.(stage := Streaming(Fresh))]);
    }

    /** Turn `id` failed (a bad status, or the request or the stream threw):
        thinking and sending are cleared even for a proactive turn; only a
        user turn shows the error. */
    method ResponseFail(id: nat, message: string)
      requires Valid() && id < |chat.turns| && !chat.turns[id].stage.Closed?
      modifies this`chat, this`display
      ensures Valid()
      ensures chat == old(chat).(thinking := false, sending := false,
                turns := old(chat).turns[id := old(chat).turns[id].(stage := Closed)])
      ensures display == old(display).(replyText := [],
                error := if old(chat).turns[id].proactive then old(display).error
                         else if message != [] then message else FallbackError)
    {
      var proactive := chat.turns[id].proactive;
      chat := chat.(thinking := false, sending := false, turns := chat.turns[id := chat.turns[id].(stage := Closed)]);
      display := display.(replyText := [],
                          error := if proactive then display.error
                                   else if message != [] then message else FallbackError);
    }

    /** One line of turn `id`'s stream: a line without a delta changes
        nothing, and a delta is taken in. */
    method StreamLine(id: nat, line: string, contentOf: string -> Option<string>)
      requires Valid() && id < |chat.turns| && chat.turns[id].stage.Streaming?
      modifies this`voice, this`display, this`chat
      ensures Valid()
      ensures LineDelta(line, contentOf).None? ==> unchanged(this)
      ensures LineDelta(line, contentOf).Some? ==> Delivered(id, LineDelta(line, contentOf).value)
    {
      var delta := LineDelta(line, contentOf);
      if delta.Some? {
        TakeDelta(id, delta.value);
      }
    }

    /** The effect of a delta on turn `id`: the reply grows by it and is
        shown, the buffer is flushed, speaking the sentences it completes,
        and the read loop's locals become `Feed` of the old ones. */
    twostate predicate Delivered(id: nat, delta: string)
      reads this
    {
      && id < |old(chat).turns| && old(chat).turns[id].stage.Streaming?
      && var p := old(chat).turns[id].stage.progress;
         && voice == Queue(old(voice), Completed(p.buffer + delta))
         && display == old(display).(replyText := p.fullText + delta)
         && chat == old(chat).(turns := old(chat).turns[id := old(chat).turns[id].(stage := Streaming(Feed(p, delta)))])
    }

    /** The body of the `if (delta)` branch of the read loop. */
    method TakeDelta(id: nat, delta: string)
      requires Valid() && id < |chat.turns| && chat.turns[id].stage.Streaming?
      modifies this`voice, this`display, this`chat
      ensures Valid()
      ensures Delivered(id, delta)
    {
      var turn := chat.turns[id];
      var p := turn.stage.progress;
      var full := p.fullText + delta;
      display := display.(replyText := full);
      var tail, spokeAny := FlushSentence(p.buffer + delta);
      chat := chat.(turns := chat.turns[id := turn.(stage := Streaming(Progress(full, tail, p.hasSentences || spokeAny)))]);
    }

    /** The end of turn `id`'s stream: the leftover is spoken when it is
        neither blank nor `[SILENT]`; speaking is set if anything was spoken
        during the turn, even when every utterance has already finished;
        thinking ends; the reply is recorded unless it is blank or
        `[SILENT]`, in which case the shown reply is cleared. */
    method StreamEnd(id: nat)
      requires Valid() && id < |chat.turns| && chat.turns[id].stage.Streaming?
      modifies this`voice, this`display, this`chat
      ensures Valid()
      ensures voice == Finished(old(voice), old(chat).turns[id].stage.progress)
      ensures (chat, display) == Recorded(old(chat), old(display), id, old(chat).turns[id].stage.progress)
    {
      var p := chat.turns[id].stage.progress;
      SpeakLeftover(p);
      RecordReply(id, p);
    }

    /** The speech part of the stream end. */
    method SpeakLeftover(p: Progress)
      requires Valid()
      modifies this`voice
      ensures Valid()
      ensures voice == Finished(old(voice), p)
    {
      var leftover := Leftover(p);
      if leftover.Some? {
        SpeakSentence(leftover.value);
      }
      if p.hasSentences || leftover.Some? {
        voice := voice.(speaking := true);
      }
    }

    /** The chat and screen part of the stream end. */
    method RecordReply(id: nat, p: Progress)
      requires Valid() && id < |chat.turns|
      modifies this`display, this`chat
      ensures Valid()
      ensures (chat, display) == Recorded(old(chat), old(display), id, p)
    {
      var reply := Reply(p);
      chat := chat.(thinking := false, turns := chat.turns[id := chat.turns[id].(stage := Closed)],
                    messages := if reply.Some? then chat.messages + [ChatMessage(Assistant, reply.value)]
                                else chat.messages);
      if reply.None? {
        display := display.(replyText := []);
      }
    }

    /** `startListeningCycle`. */
    method StartListeningCycle()
      requires Valid()
      modifies this`ear, this`display
      ensures Valid()
      ensures (ear, display) == Cycle(session.active, chat, recognitionSupported, old(ear), old(display))
    {
      CycleReplaces(session.active, chat, recognitionSupported, ear, display);
      if !session.active || chat.thinking || chat.sending {
        return;
      }
      if !recognitionSupported {
        display := display.(error := UnsupportedMessage);
        return;
      }
      ear := ear.(recognition := Some(ear.nextGeneration), nextGeneration := ear.nextGeneration + 1,
                  pause := None, shrink := None, transcript := [], hadSpeech := false);
      display := display.(ring := Rest);
    }

    /** One scheduled `startListeningCycle` call fires. */
    method ListenTimerFires()
      requires Valid() && ear.scheduledListens > 0
      modifies this`ear, this`display
      ensures Valid()
      ensures (ear, display) == Cycle(session.active, chat, recognitionSupported,
                                      old(ear).(scheduledListens := old(ear).scheduledListens - 1), old(display))
    {
      ear := ear.(scheduledListens := ear.scheduledListens - 1);
      StartListeningCycle();
    }

    /** A recognition's `onstart`. The source installs it without a
        staleness check. */
    method RecognitionStart()
      requires Valid()
      modifies this`ear
      ensures Valid()
      ensures ear == old(ear).(listening := true)
    {
      ear := ear.(listening := true);
    }

    /** `onresult` of the recognition of generation `generation`: the merged
        transcript is recorded and shown, the ring expands, and the pause
        timer is re-armed for that recognition. The source checks no
        staleness here. */
    method OnResult(generation: nat, results: seq<RecognitionResult>)
      requires Valid() && generation < ear.nextGeneration
      modifies this`ear, this`display
      ensures Valid()
      ensures ear == old(ear).(transcript := Merged(results), hadSpeech := true, shrink := None, pause := Some(generation))
      ensures display == old(display).(userText := Merged(results), ring := Expanded)
    {
      var t := MergeTranscript(results);
      ear := ear.(transcript := t, hadSpeech := true, shrink := None, pause := Some(generation));
      display := display.(userText := t, ring := Expanded);
    }

    /** The speech-pause timer fires at `nowMs`: once speech was heard, the
        shrink loop of the recognition that armed it starts from rest. */
    method PauseTimerFires(nowMs: int)
      requires Valid() && ear.pause.Some?
      modifies this`ear, this`display
      ensures Valid()
      ensures !old(ear).hadSpeech ==> ear == old(ear).(pause := None) && display == old(display)
      ensures old(ear).hadSpeech ==>
                && ear == old(ear).(pause := None, shrink := Some(ShrinkLoop(old(ear).pause.value, nowMs)))
                && display == old(display).(ring := Rest)
    {
      var owner := ear.pause.value;
      if !ear.hadSpeech {
        ear := ear.(pause := None);
        return;
      }
      ear := ear.(pause := None, shrink := Some(ShrinkLoop(owner, nowMs)));
      display := display.(ring := Rest);
    }

    /** The effect of `triggerSend` with the frame the camera yields: what
        was heard is taken, speech is interrupted and recognition stopped;
        the text is offered as a user turn when there is any and the
        conversation is active, else listening is rescheduled when active. */
    twostate predicate Triggered(frame: Option<string>)
      reads this
    {
      var text := old(ear).transcript;
      var sends := text != [] && old(session).active;
      var accepted := sends && !old(chat).thinking && !old(chat).sending;
      var taken := Deafened(old(ear)).(transcript := [], hadSpeech := false);
      && voice == Silenced(old(voice))
      && ear == taken.(scheduledListens :=
           if !sends && old(session).active then taken.scheduledListens + 1 else taken.scheduledListens)
      && (accepted ==> display == Blank && chat == Opened(old(chat), text, ImageOf(frame), false))
      && (!accepted ==> display == old(display).(userText := [], ring := Rest) && chat == old(chat))
    }

    /** `triggerSend`, with the frame the camera yields at that moment. */
    method TriggerSend(frame: Option<string>)
      requires Valid()
      modifies this`ear, this`voice, this`display, this`chat
      ensures Valid()
      ensures Triggered(frame)
    {
      var text := ear.transcript;
      ear := Deafened(ear).(transcript := [], hadSpeech := false);
      display := display.(userText := [], ring := Rest);
      if voice.speaking {
        StopAllAudio();
      }
      SilenceWhenQuiet(voice);
      if text != [] && session.active {
        var id := Submit(text, ImageOf(frame), false);
      } else if session.active {
        ear := ear.(scheduledListens := ear.scheduledListens + 1);
      }
    }

    /** An animation frame of the shrink loop at `nowMs`. A frame of a
        superseded recognition, or one arriving while inactive, thinking or
        sending, ends the loop with nothing else changed. Otherwise the ring
        shrinks; after the full duration the turn is sent, else the next
        frame is requested. */
    method ShrinkTick(nowMs: int, frame: Option<string>)
      requires Valid() && ear.shrink.Some?
      modifies this`ear, this`voice, this`display, this`chat
      ensures Valid()
      ensures var loop := old(ear).shrink.value;
              var current := old(session).active && !old(chat).thinking && !old(chat).sending
                             && old(ear).recognition == Some(loop.generation);
              var elapsed := nowMs - loop.startMs;
              && (!current ==> ear == old(ear).(shrink := None) && unchanged(this`voice, this`display, this`chat))
              && (current && elapsed < ShrinkDurationMs ==>
                    display == old(display).(ring := Shrinking(elapsed)) && unchanged(this`ear, this`voice, this`chat))
              && (current && elapsed >= ShrinkDurationMs ==> Triggered(frame))
    {
      var loop := ear.shrink.value;
      if !session.active || chat.thinking || chat.sending || ear.recognition != Some(loop.generation) {
        ear := ear.(shrink := None);
        return;
      }
      var elapsed := nowMs - loop.startMs;
      if elapsed >= ShrinkDurationMs {
        TriggerSend(frame);
        return;
      }
      display := display.(ring := Shrinking(elapsed));
    }

    /** `onend` of the recognition of generation `generation`. Only the
        current recognition is handled: it is released, and what it heard
        is sent when the assistant is idle, else listening is rescheduled
        when idle. */
    method RecognitionEnd(generation: nat, frame: Option<string>)
      requires Valid()
      modifies this`ear, this`display, this`chat
      ensures Valid()
      ensures old(ear).recognition != Some(generation) ==> unchanged(this)
      ensures old(ear).recognition == Some(generation) ==>
                var idle := old(session).active && !old(voice).speaking && !old(chat).thinking && !old(chat).sending;
                var text := old(ear).transcript;
                var released := Deafened(old(ear)).(transcript := []);
                && (text != [] && idle ==>
                      ear == released && display == Blank && chat == Opened(old(chat), text, ImageOf(frame), false))
                && (text == [] && idle ==>
                      ear == released.(scheduledListens := released.scheduledListens + 1) && unchanged(this`display, this`chat))
                && (!idle ==> ear == released && unchanged(this`display, this`chat))
    {
      if ear.recognition != Some(generation) {
        return;
      }
      var text := ear.transcript;
      ear := Deafened(ear).(transcript := []);
      var idle := session.active && !voice.speaking && !chat.thinking && !chat.sending;
      if text != [] && idle {
        display := display.(userText := [], ring := Rest);
        var id := Submit(text, ImageOf(frame), false);
      } else if idle {
        ear := ear.(scheduledListens := ear.scheduledListens + 1);
      }
    }

    /** `onOrbTap`: a tap while speaking silences the assistant and, unless
        a reply is being read, schedules listening; a tap while a
        recognition has heard speech sends it; any other tap does nothing. */
    method OrbTap(frame: Option<string>)
      requires Valid()
      modifies this`ear, this`voice, this`display, this`chat
      ensures Valid()
      ensures old(voice).speaking ==>
                && voice == Silenced(old(voice))
                && ear == old(ear).(scheduledListens :=
                     if old(session).active && !old(chat).thinking then old(ear).scheduledListens + 1
                     else old(ear).scheduledListens)
                && unchanged(this`display, this`chat)
      ensures !old(voice).speaking && old(ear).recognition.Some? && old(ear).hadSpeech ==> Triggered(frame)
      ensures !old(voice).speaking && !(old(ear).recognition.Some? && old(ear).hadSpeech) ==> unchanged(this)
    {
      if voice.speaking {
        StopAllAudio();
        if session.active && !chat.thinking {
          ear := ear.(scheduledListens := ear.scheduledListens + 1);
        }
      } else if ear.recognition.Some? && ear.hadSpeech {
        TriggerSend(frame);
      }
    }

    /** A tick of the proactive interval with the frame the camera yields.
        It sends a proactive turn only when active, neither speaking nor
        thinking (sending is not checked), a frame exists and its hash
        differs from the last one sent; the hash is recorded only then. */
    method ProactiveTick(frame: Option<string>) returns (id: Option<nat>)
      requires Valid() && session.proactiveTimer
      modifies this`session, this`ear, this`display, this`chat
      ensures Valid()
      ensures var proceeds := old(session).active && !old(voice).speaking && !old(chat).thinking
                              && ImageOf(frame).Some? && FrameHash(frame.value) != old(session).lastFrameHash;
              && (!proceeds ==> id.None? && unchanged(this))
              && (proceeds ==> && id == Some(|old(chat).turns|)
                               && session == old(session).(lastFrameHash := FrameHash(frame.value))
                               && ear == Deafened(old(ear)) && display == Blank
                               && chat == Opened(old(chat), ProactivePrompt, frame, true))
    {
      if !session.active || voice.speaking || chat.thinking {
        return None;
      }
      if ImageOf(frame).None? {
        return None;
      }
      var hash := FrameHash(frame.value);
      if hash == session.lastFrameHash {
        return None;
      }
      session := session.(lastFrameHash := hash);
      id := Submit(ProactivePrompt, frame, true);
    }

    /** The effect that resumes listening whenever the assistant is idle. */
    method IdleEffect()
      requires Valid()
      modifies this`ear, this`display
      ensures Valid()
      ensures var idle := !chat.thinking && !chat.sending && session.active && !voice.speaking && !old(ear).listening;
              && (idle ==> display == old(display).(ring := Rest)
                           && ear == old(ear).(scheduledListens := old(ear).scheduledListens + 1))
              && (!idle ==> unchanged(this))
    {
      if !chat.thinking && !chat.sending && session.active && !voice.speaking && !ear.listening {
        display := display.(ring := Rest);
        ear := ear.(scheduledListens := ear.scheduledListens + 1);
      }
    }

    /** The unmount cleanup: deactivates and stops the timers and the
        interval. The recognition is aborted but stays referenced, and
        speech is cancelled without resetting the counter. */
    method Unmount()
      requires Valid()
      modifies this`session, this`ear
      ensures Valid()
      ensures session == old(session).(active := false, proactiveTimer := false)
      ensures ear == old(ear).(pause := None, shrink := None)
    {
      session := session.(active := false, proactiveTimer := false);
      ear := ear.(pause := None, shrink := None);
    }
  }
}
