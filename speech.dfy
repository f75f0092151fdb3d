/**
 * The recognizer wiring of the `useSpeech` hook: the handlers installed on a
 * recognition instance by `startListening`, and the state they update.
 */
module SpeechHook {
  import opened Common
  import opened JsText
  import opened Commands

  /** One call of the registered command callback. */
  datatype CommandCall = CommandCall(command: string, transcript: string)

  const NoSpeech: string := "no-speech"

  class Recognizer {
    /** Whether the platform offers speech recognition at all. */
    const supported: bool
    /** A recognition instance is held. */
    var hasRecognition: bool
    var isListening: bool
    var error: string
    var lastHeard: string
    var lastCommand: string
    /** A command callback is registered. */
    var hasHandler: bool

    constructor (supported: bool)
      ensures this.supported == supported
      ensures !hasRecognition && !isListening && !hasHandler
      ensures error == [] && lastHeard == [] && lastCommand == []
    {
      this.supported := supported;
      hasRecognition, isListening, hasHandler := false, false, false;
      error, lastHeard, lastCommand := [], [], [];
    }

    method SetOnCommand(present: bool)
      modifies this`hasHandler
      ensures hasHandler == present
    {
      hasHandler := present;
    }

    /** `startListening`: nothing when unsupported or already listening;
        otherwise clears the error and installs a fresh instance. */
    method StartListening()
      modifies this`error, this`hasRecognition
      ensures !supported || old(isListening) ==> unchanged(this)
      ensures supported && !old(isListening) ==> error == [] && hasRecognition
    {
      if !supported || isListening {
        return;
      }
      error := [];
      hasRecognition := true;
    }

    method OnStart()
      modifies this`isListening
      ensures isListening
    {
      isListening := true;
    }

    /** `onend`: releases the instance; reports whether continuous mode asks
        for a restart (the restart itself is the hook's effect loop). */
    method OnEnd(continuous: bool, speaking: bool) returns (restart: bool)
      modifies this`hasRecognition, this`isListening
      ensures !hasRecognition && !isListening
      ensures restart == (continuous && !speaking)
    {
      hasRecognition := false;
      isListening := false;
      restart := continuous && !speaking;
    }

    /** `onerror`: releases the instance and reports every error except
        `no-speech`. */
    method OnError(code: string)
      modifies this`hasRecognition, this`isListening, this`error
      ensures !hasRecognition && !isListening
      ensures code == NoSpeech ==> error == old(error)
      ensures code != NoSpeech ==> error == "Speech recognition error: " + code
    {
      hasRecognition := false;
      isListening := false;
      if code != NoSpeech {
        error := "Speech recognition error: " + code;
      }
    }

    /** `onresult`: the first alternative of the first result, trimmed (empty
        when absent), is recorded as heard; the last command is the command,
        else `question` for a question, else empty; the callback, when one is
        registered, gets the command or `question`. */
    method OnResult(first: Option<string>) returns (call: Option<CommandCall>)
      modifies this`lastHeard, this`lastCommand
      ensures lastHeard == (if first.Some? then Trim(first.value) else [])
      ensures lastCommand == LastCommand(lastHeard)
      ensures lastCommand == [] <==> ParseCommand(lastHeard).None? && !ShouldTreatAsQuestion(lastHeard)
      ensures call.Some? <==> hasHandler
      ensures call.Some? ==> call.value == CommandCall(CallbackCommand(lastHeard), lastHeard)
      ensures call.Some? && ParseCommand(lastHeard).None? ==> call.value.command == "question"
    {
      var transcript := if first.Some? then Trim(first.value) else [];
      lastHeard := transcript;
      lastCommand := LastCommand(transcript);
      call := if hasHandler then Some(CommandCall(CallbackCommand(transcript), transcript)) else None;
    }

    /** `stopListening`. */
    method StopListening()
      modifies this`hasRecognition, this`isListening
      ensures !hasRecognition && !isListening
    {
      hasRecognition := false;
      isListening := false;
    }
  }
}
