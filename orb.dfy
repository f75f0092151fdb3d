/**
 * The screen as `App` derives it from the conversation flags: the five-way
 * orb phase, its label, and which parts of the view are shown.
 */
module Orb {
  import opened Common

  /** The orb's phase; `sending` and the others are the CSS modifiers
      `orb--sending`, `orb--thinking`, ... */
  datatype OrbState = Sending | Thinking | Speaking | Listening | Idle

  /** The phase `App` computes from the four flags: a priority chain in which
      sending beats thinking, thinking beats speaking and speaking beats
      listening. */
  function OrbStateOf(isSending: bool, isThinking: bool, isSpeaking: bool, isListening: bool): (r: OrbState)
    ensures isSending ==> r == Sending
    ensures r == Thinking <==> !isSending && isThinking
    ensures r == Speaking <==> !isSending && !isThinking && isSpeaking
    ensures r == Listening <==> !isSending && !isThinking && !isSpeaking && isListening
    ensures r == Idle <==> !isSending && !isThinking && !isSpeaking && !isListening
  {
    if isSending then Sending
    else if isThinking then Thinking
    else if isSpeaking then Speaking
    else if isListening then Listening
    else Idle
  }

  /** The CSS modifier name of a phase. */
  function StateName(s: OrbState): string {
    match s
    case Sending => "sending"
    case Thinking => "thinking"
    case Speaking => "speaking"
    case Listening => "listening"
    case Idle => "idle"
  }

  /** The label shown under the orb for each phase. */
  function LabelOf(s: OrbState): string {
    match s
    case Sending => "Sending…"
    case Thinking => "Thinking…"
    case Speaking => "Speaking…"
    case Listening => "Listening…"
    case Idle => "Ready"
  }

  /** Distinct phases have distinct labels, so the label identifies the phase. */
  lemma LabelOfInjective(s: OrbState, t: OrbState)
    ensures LabelOf(s) == LabelOf(t) ==> s == t
  {
    if s != t {
      var a, b := LabelOf(s), LabelOf(t);
      assert a[0] != b[0] || a[1] != b[1];
    }
  }

  /** Distinct phases have distinct modifiers, so the orb's class identifies
      the phase. */
  lemma StateNameInjective(s: OrbState, t: OrbState)
    ensures StateName(s) == StateName(t) ==> s == t
  {
    if s != t {
      var a, b := StateName(s), StateName(t);
      assert a[0] != b[0] || a[1] != b[1];
    }
  }

  /** The orb's class `orb orb--${orbState}`, with `orbState` computed by
      `App`'s own conditional chain over the flags; it is the modifier of
      the phase `OrbStateOf` picks. */
  function OrbClass(isSending: bool, isThinking: bool, isSpeaking: bool, isListening: bool): (r: string)
    ensures r == "orb orb--" + StateName(OrbStateOf(isSending, isThinking, isSpeaking, isListening))
  {
    var orbState :=
      if isSending then "sending"
      else if isThinking then "thinking"
      else if isSpeaking then "speaking"
      else if isListening then "listening"
      else "idle";
    "orb orb--" + orbState
  }

  /** The label `App` renders: its own conditional chain over the flags,
      which picks the label of the phase `OrbStateOf` picks. */
  function OrbLabel(isSending: bool, isThinking: bool, isSpeaking: bool, isListening: bool): (r: string)
    ensures r == LabelOf(OrbStateOf(isSending, isThinking, isSpeaking, isListening))
  {
    if isSending then "Sending…"
    else if isThinking then "Thinking…"
    else if isSpeaking then "Speaking…"
    else if isListening then "Listening…"
    else "Ready"
  }

  /** The `--ring-scale` style of the orb: only while listening. */
  function RingStyle<R>(isListening: bool, ringScale: R): (r: Option<R>)
    ensures r.Some? <==> isListening
    ensures r.Some? ==> r.value == ringScale
  {
    if isListening then Some(ringScale) else None
  }

  /** The user's transcript is shown when it is non-empty, the conversation
      is active and the microphone is listening. */
  function TranscriptShown(currentUserText: string, isActive: bool, isListening: bool): (r: Option<string>)
    ensures r.Some? <==> currentUserText != "" && isActive && isListening
    ensures r.Some? ==> r.value == currentUserText
  {
    if currentUserText != "" && isActive && isListening then Some(currentUserText) else None
  }

  /** The reply text is shown when it is non-empty and the conversation is active. */
  function ReplyShown(currentJiaText: string, isActive: bool): (r: Option<string>)
    ensures r.Some? <==> currentJiaText != "" && isActive
    ensures r.Some? ==> r.value == currentJiaText
  {
    if currentJiaText != "" && isActive then Some(currentJiaText) else None
  }

  /** The action button: start (enabled once the camera is ready) while
      inactive, end while active. */
  datatype ActionButton = Start(enabled: bool, caption: string) | End

  function ActionButtonOf(isActive: bool, isReady: bool): (b: ActionButton)
    ensures b.End? <==> isActive
    ensures b.Start? ==> b.enabled == isReady
    ensures b.Start? ==> (b.caption == "Start" <==> isReady)
  {
    if isActive then End
    else Start(isReady, if isReady then "Start" else "Waiting for camera…")
  }

  /** The orb, with its phase, class, label and ring style; absent while inactive. */
  datatype OrbView<R> = OrbView(state: OrbState, className: string, caption: string, ringScale: Option<R>)

  function OrbShown<R>(isActive: bool, isSending: bool, isThinking: bool, isSpeaking: bool,
                       isListening: bool, ringScale: R): (r: Option<OrbView<R>>)
    ensures r.Some? <==> isActive
    ensures r.Some? ==> r.value.state == OrbStateOf(isSending, isThinking, isSpeaking, isListening)
    ensures r.Some? ==> r.value.className == "orb orb--" + StateName(r.value.state)
    ensures r.Some? ==> LabelOf(r.value.state) == r.value.caption
    ensures r.Some? ==> r.value.ringScale == RingStyle(isListening, ringScale)
  {
    if isActive then
      Some(OrbView(OrbStateOf(isSending, isThinking, isSpeaking, isListening),
                   OrbClass(isSending, isThinking, isSpeaking, isListening),
                   OrbLabel(isSending, isThinking, isSpeaking, isListening),
                   RingStyle(isListening, ringScale)))
    else None
  }
}
