/**
 * Event sequences on the controller, each stating the state the
 * hook ends in.
 */
module Scenarios {
  import opened Common
  import opened JsText
  import opened Sentences
  import opened Stream
  import opened Conversation
  import Orb

  /** What a stopped controller holds. */
  datatype Snapshot = Snapshot(session: Session, voice: Voice, ear: Ear, chat: Chat, display: Display)

  /** Stopping twice leaves the state of stopping once: every flag down,
      no recognition, no timer and no interval. */
  method StopTwice(c: Controller) returns (once: Snapshot)
    requires c.Valid()
    modifies c
    ensures c.Valid() && c.Phase() == Orb.Idle
    ensures once == Snapshot(c.session, c.voice, c.ear, c.chat, c.display)
    ensures !c.session.active && !c.session.proactiveTimer
    ensures c.voice.pending == 0 && !c.voice.speaking && !c.chat.thinking && !c.chat.sending
    ensures c.ear.recognition.None? && !c.ear.listening && c.ear.pause.None? && c.ear.shrink.None?
  {
    c.StopConversation();
    once := Snapshot(c.session, c.voice, c.ear, c.chat, c.display);
    c.StopConversation();
  }

  /** "Hello. " completes one sentence and leaves an empty tail. */
  lemma HelloCompletes()
    ensures Completed("Hello. ") == ["Hello."] && Tail("Hello. ") == []
  {
    var s := "Hello. ";
    assert !BoundaryAt(s, 0) && !BoundaryAt(s, 1) && !BoundaryAt(s, 2) && !BoundaryAt(s, 3)
        && !BoundaryAt(s, 4) && !BoundaryAt(s, 5) && BoundaryAt(s, 6);
    assert RunEnd(s, 6) == 7;
    assert |s| == 7 && s[7..] == [];
    assert SplitFrom(s, 7, 7) == [s[7..]];
    assert SplitFrom(s, 0, 6) == [s[0..6]] + SplitFrom(s, 7, 7);
    assert SplitFrom(s, 0, 0) == SplitFrom(s, 0, 1) == SplitFrom(s, 0, 2) == SplitFrom(s, 0, 3)
        == SplitFrom(s, 0, 4) == SplitFrom(s, 0, 5) == SplitFrom(s, 0, 6);
    assert s[0..6] == "Hello.";
    TrimUnchanged("Hello.");
  }

  /** A first delta "Hello. " speaks "Hello." and leaves the locals of a
      turn that has spoken with an empty buffer. */
  lemma HelloFeeds()
    ensures Feed(Fresh, "Hello. ") == Progress("Hello. ", [], true)
  {
    HelloCompletes();
    assert Fresh.buffer + "Hello. " == "Hello. " && Fresh.fullText + "Hello. " == "Hello. ";
    assert Completed("Hello. ") != [];
  }

  /** The stream end of a turn that spoke, when speech has already finished
      and the leftover is blank: speaking is set, nothing is pending and no
      callback is left to clear it, so the orb shows speaking until a tap or
      a stop. */
  method StreamEndAfterSpeech(c: Controller, id: nat)
    requires c.Valid() && id < |c.chat.turns| && c.chat.turns[id].stage.Streaming?
    requires c.chat.turns[id].stage.progress.hasSentences && AllSpace(c.chat.turns[id].stage.progress.buffer)
    requires c.voice.outstanding == 0 && !c.chat.sending
    modifies c
    ensures c.Valid()
    ensures c.voice.speaking && c.voice.pending == 0 && c.voice.outstanding == 0
    ensures c.Phase() == Orb.Speaking
  {
    TrimEmptyIff(c.chat.turns[id].stage.progress.buffer);
    c.StreamEnd(id);
  }
}
