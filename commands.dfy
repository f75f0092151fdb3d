/**
 * The static classifiers applied to a finished transcript: the command
 * patterns (`capture`, `read_this`, `describe`, `stop`, `repeat`), tried in
 * list order, and the question heuristic. Every pattern is a
 * case-insensitive, word-bounded alternation of fixed phrases, so it is
 * modelled as the set of phrases it accepts.
 */
module Commands {
  import opened Common
  import opened JsText

  /** Case-insensitive equality as the non-unicode `i` flag sees it for ASCII
      pattern text: ASCII letters fold; no other character equals a pattern
      character but itself. */
  predicate EqualsIgnoringCase(a: string, b: string) {
    |a| == |b| && forall i :: 0 <= i < |a| ==> LowerChar(a[i]) == LowerChar(b[i])
  }

  /** `\b` at position `i` of `s`: a word character on exactly one side, the
      ends of the string counting as non-word. */
  predicate WordBoundary(s: string, i: int)
    requires 0 <= i <= |s|
  {
    (i > 0 && IsWordChar(s[i - 1])) != (i < |s| && IsWordChar(s[i]))
  }

  /** `\b<phrase>\b` matches `s` starting at position `i`. */
  predicate MatchesAt(s: string, phrase: string, i: nat) {
    && i + |phrase| <= |s|
    && WordBoundary(s, i)
    && EqualsIgnoringCase(s[i..i + |phrase|], phrase)
    && WordBoundary(s, i + |phrase|)
  }

  /** Whether the phrase matches anywhere in `s`. */
  ghost predicate Occurs(s: string, phrase: string) {
    exists i: nat :: i <= |s| && MatchesAt(s, phrase, i)
  }

  /** The regular-expression engine's scan for a match at `i`, `i + 1`, ... */
  function OccursFrom(s: string, phrase: string, i: nat): (b: bool)
    decreases |s| + 1 - i
    ensures b <==> exists j: nat :: i <= j <= |s| && MatchesAt(s, phrase, j)
  {
    if i > |s| then false
    else if MatchesAt(s, phrase, i) then true
    else
      var rest := OccursFrom(s, phrase, i + 1);
      assert forall j: nat :: i <= j <= |s| && MatchesAt(s, phrase, j) ==> j == i || i + 1 <= j;
      rest
  }

  /** `pattern.test(s)` for a pattern that is an alternation of phrases:
      true exactly when one of the phrases occurs. */
  function TestAny(s: string, phrases: seq<string>): (b: bool)
    ensures b <==> exists k :: 0 <= k < |phrases| && Occurs(s, phrases[k])
  {
    if phrases == [] then false
    else
      var here := OccursFrom(s, phrases[0], 0);
      var rest := TestAny(s, phrases[1..]);
      assert forall k :: 1 <= k < |phrases| ==> phrases[k] == phrases[1..][k - 1];
      here || rest
  }

  datatype Pattern = Pattern(name: string, phrases: seq<string>)

  /** The command patterns in precedence order. Each regular expression of
      the source is listed as the phrases its alternatives spell out:
      `take (a )?(photo|picture)`, `read( this)?`, `what('?s| is) (this|here|in front)`. */
  const CommandPatterns: seq<Pattern> := [
    Pattern("capture", ["capture", "take a photo", "take a picture", "take photo", "take picture"]),
    Pattern("read_this", ["read", "read this", "scan text"]),
    Pattern("describe", ["describe",
                         "what's this", "whats this", "what is this",
                         "what's here", "whats here", "what is here",
                         "what's in front", "whats in front", "what is in front"]),
    Pattern("stop", ["stop", "pause", "quiet"]),
    Pattern("repeat", ["repeat", "say that again", "again"])
  ]

  const CommandNames: set<string> := {"capture", "read_this", "describe", "stop", "repeat"}

  /** Command pattern `k` accepts `text`. */
  predicate PatternMatches(text: string, k: nat)
    requires k < |CommandPatterns|
  {
    TestAny(text, CommandPatterns[k].phrases)
  }

  /** `COMMAND_PATTERNS.find(...)` started at index `k`: the index of the
      first pattern from `k` on that accepts `text`. */
  function FirstMatch(text: string, k: nat): (r: Option<nat>)
    requires k <= |CommandPatterns|
    decreases |CommandPatterns| - k
    ensures r.Some? ==> k <= r.value < |CommandPatterns| && PatternMatches(text, r.value)
    ensures r.Some? ==> forall j :: k <= j < r.value ==> !PatternMatches(text, j)
    ensures r.None? ==> forall j :: k <= j < |CommandPatterns| ==> !PatternMatches(text, j)
  {
    if k == |CommandPatterns| then None
    else if PatternMatches(text, k) then Some(k)
    else FirstMatch(text, k + 1)
  }

  /** Every pattern's name is a command name, and none is empty. */
  lemma NamesListed()
    ensures forall k :: 0 <= k < |CommandPatterns| ==> CommandPatterns[k].name in CommandNames && CommandPatterns[k].name != []
  {
  }

  /** `parseCommand`: the name of the earliest pattern that accepts the
      trimmed transcript; none for a blank transcript or when no pattern
      accepts it. */
  function ParseCommand(transcript: string): (r: Option<string>)
    ensures Trim(transcript) == [] ==> r == None
    ensures r.None? <==> Trim(transcript) == [] || forall j :: 0 <= j < |CommandPatterns| ==> !PatternMatches(Trim(transcript), j)
    ensures r.Some? ==> r.value in CommandNames && r.value != []
  {
    NamesListed();
    var text := Trim(transcript);
    if text == [] then None
    else
      match FirstMatch(text, 0)
      case None => None
      case Some(k) => Some(CommandPatterns[k].name)
  }

  /** Precedence, both ways: pattern `j` is the answer exactly when it accepts
      the trimmed transcript and no earlier pattern does. */
  lemma ParseCommandIsEarliest(transcript: string, j: nat)
    requires j < |CommandPatterns|
    ensures ParseCommand(transcript) == Some(CommandPatterns[j].name)
        <==> Trim(transcript) != [] && PatternMatches(Trim(transcript), j)
             && forall i :: 0 <= i < j ==> !PatternMatches(Trim(transcript), i)
  {
    var text := Trim(transcript);
    if text != [] {
      var r := FirstMatch(text, 0);
      if r.Some? {
        NamesDistinct(r.value, j);
      }
    }
  }

  /** Every pattern has its own name. */
  lemma NamesDistinct(a: nat, b: nat)
    requires a < |CommandPatterns| && b < |CommandPatterns|
    ensures CommandPatterns[a].name == CommandPatterns[b].name <==> a == b
  {
  }

  /** The words that open a question, matched at the start and followed by
      a word boundary. */
  const QuestionLeads: seq<string> := [
    "what", "where", "who", "when", "why", "how", "is", "are", "can", "could",
    "should", "do", "does", "did", "tell me", "which", "would"]

  /** Some word of `words` from index `k` on opens `text`. */
  function LeadFrom(text: string, words: seq<string>, k: nat): (b: bool)
    requires k <= |words|
    decreases |words| - k
    ensures b <==> exists j :: k <= j < |words| && MatchesAt(text, words[j], 0)
  {
    if k == |words| then false
    else MatchesAt(text, words[k], 0) || LeadFrom(text, words, k + 1)
  }

  /** `shouldTreatAsQuestion`: the trimmed, lower-cased transcript is a
      question when it ends in `?` or opens with one of the lead words. */
  function ShouldTreatAsQuestion(transcript: string): (r: bool)
    ensures Trim(transcript) == [] ==> !r
    ensures Trim(transcript) != [] && Trim(transcript)[|Trim(transcript)| - 1] == '?' ==> r
    ensures Trim(transcript) != [] && Trim(transcript)[|Trim(transcript)| - 1] != '?' ==>
              (r <==> exists j :: 0 <= j < |QuestionLeads| && MatchesAt(Lower(Trim(transcript)), QuestionLeads[j], 0))
  {
    var text := Lower(Trim(transcript));
    if text == [] then false
    else if text[|text| - 1] == '?' then true
    else LeadFrom(text, QuestionLeads, 0)
  }

  /** What the recognizer's result handler records as the last command:
      the command, else `question` for a question, else the empty string. */
  function LastCommand(transcript: string): (r: string)
    ensures r == [] <==> ParseCommand(transcript).None? && !ShouldTreatAsQuestion(transcript)
    ensures ParseCommand(transcript).Some? ==> r == ParseCommand(transcript).value
    ensures ParseCommand(transcript).None? && ShouldTreatAsQuestion(transcript) ==> r == "question"
  {
    match ParseCommand(transcript)
    case Some(name) => name
    case None => if ShouldTreatAsQuestion(transcript) then "question" else ""
  }

  /** What the result handler passes to its callback: the command, or
      `question` whenever no command matched, question or not. */
  function CallbackCommand(transcript: string): (r: string)
    ensures r != []
    ensures r == "question" || r in CommandNames
    ensures ParseCommand(transcript).Some? ==> r == ParseCommand(transcript).value
    ensures ParseCommand(transcript).None? ==> r == "question"
  {
    match ParseCommand(transcript)
    case Some(name) => name
    case None => "question"
  }

  // ---- Worked examples ----------------------------------------------------

  /** A phrase cannot match where its first letter is not. */
  lemma FirstLetterDiffers(s: string, phrase: string, i: nat)
    requires |phrase| > 0 && i < |s| && LowerChar(s[i]) != LowerChar(phrase[0])
    ensures !MatchesAt(s, phrase, i)
  {
    if i + |phrase| <= |s| {
      assert s[i..i + |phrase|][0] == s[i];
    }
  }

  /** Matching ignores case: "Capture" is the capture command. */
  lemma CaptureIgnoresCase()
    ensures ParseCommand("Capture") == Some("capture")
  {
    var s := "Capture";
    TrimUnchanged(s);
    assert MatchesAt(s, CommandPatterns[0].phrases[0], 0);
    assert PatternMatches(s, 0);
  }

  /** Matching is whole-word: "read" does not match inside "ready". */
  lemma ReadyIsNotRead()
    ensures !PatternMatches("ready", 1)
  {
    var s := "ready";
    assert !WordBoundary(s, 4);
    FirstLetterDiffers(s, "read", 1);
    assert !Occurs(s, "read");
  }

  lemma ReadStopIsNotCapture()
    ensures !PatternMatches("read stop", 0)
  {
    var s := "read stop";
    FirstLetterDiffers(s, "capture", 0);
    FirstLetterDiffers(s, "capture", 1);
    FirstLetterDiffers(s, "capture", 2);
    assert !Occurs(s, "capture");
  }

  lemma ReadStopMatchesRead()
    ensures PatternMatches("read stop", 1)
  {
    assert MatchesAt("read stop", CommandPatterns[1].phrases[0], 0);
  }

  lemma ReadStopMatchesStop()
    ensures PatternMatches("read stop", 3)
  {
    assert MatchesAt("read stop", CommandPatterns[3].phrases[0], 5);
  }

  /** The earliest pattern wins: "read stop" matches both read_this and
      stop, and is read_this. */
  lemma ReadBeatsStop()
    ensures ParseCommand("read stop") == Some("read_this")
  {
    TrimUnchanged("read stop");
    ReadStopIsNotCapture();
    ReadStopMatchesRead();
    ParseCommandIsEarliest("read stop", 1);
  }

  /** "Is it" opens with the lead word "is". */
  lemma IsItIsQuestion()
    ensures ShouldTreatAsQuestion("Is it")
  {
    TrimUnchanged("Is it");
    LowerIsIt();
    assert MatchesAt("is it", QuestionLeads[6], 0);
  }

  lemma LowerIsIt()
    ensures Lower("Is it") == "is it"
  {
    var l := Lower("Is it");
    assert l[0] == 'i' && l[1] == 's' && l[2] == ' ' && l[3] == 'i' && l[4] == 't';
  }

  /** Only the lead word "is" starts with `i`. */
  lemma LeadInitials()
    ensures forall j :: 0 <= j < |QuestionLeads| && j != 6 ==> LowerChar(QuestionLeads[j][0]) != 'i'
  {
  }

  /** No lead word opens "island": only "is" starts with its letter, and
      "is" does not end at a word boundary there. */
  lemma IslandHasNoLead()
    ensures forall j :: 0 <= j < |QuestionLeads| ==> !MatchesAt("island", QuestionLeads[j], 0)
  {
    var s := "island";
    LeadInitials();
    forall j | 0 <= j < |QuestionLeads| ensures !MatchesAt(s, QuestionLeads[j], 0) {
      if j == 6 {
        assert !WordBoundary(s, 2);
      } else {
        FirstLetterDiffers(s, QuestionLeads[j], 0);
      }
    }
  }

  /** "island" does not open with "is": the word must end at a boundary. */
  lemma IslandIsNotQuestion()
    ensures !ShouldTreatAsQuestion("island")
  {
    TrimUnchanged("island");
    assert Lower("island") == "island";
    IslandHasNoLead();
  }

  /** A final `?` makes any text a question; blank text never is one. */
  lemma QuestionMarkAndBlank()
    ensures ShouldTreatAsQuestion("the door?")
    ensures !ShouldTreatAsQuestion("  ")
  {
    TrimUnchanged("the door?");
    TrimEmptyIff("  ");
  }
}
