/**
 * The reply stream of one chat turn: how a server-sent line yields a delta,
 * which sentences `flushSentence` hands to speech, and the running
 * `fullText`/`buffer`/`hasSentences` of the read loop.
 */
module Stream {
  import opened Common
  import opened JsText
  import opened Sentences

  /** The reply the model gives when it has nothing to say. */
  const Silent := "[SILENT]"

  /** The line that closes an event stream. */
  const Done := "[DONE]"

  const DataPrefix := "data: "

  /** `line.replace(/^data: /, '')`: one leading `data: ` removed. */
  function StripDataPrefix(line: string): (r: string)
    ensures |line| >= |DataPrefix| && line[..|DataPrefix|] == DataPrefix ==> DataPrefix + r == line
    ensures !(|line| >= |DataPrefix| && line[..|DataPrefix|] == DataPrefix) ==> r == line
  {
    if |line| >= |DataPrefix| && line[..|DataPrefix|] == DataPrefix then
      assert line == line[..|DataPrefix|] + line[|DataPrefix|..];
      line[|DataPrefix|..]
    else line
  }

  /** What `speakSentence` accepts: not blank and not the silence marker. */
  predicate Utterable(sentence: string) {
    Trim(sentence) != [] && sentence != Silent
  }

  /**
   * The delta one stream line contributes. `contentOf` stands for
   * `JSON.parse(t)?.choices?.[0]?.delta?.content`: `None` when the text is
   * not JSON or the field is absent. A blank line, `[DONE]`, a line that does
   * not parse and an empty content all contribute nothing; a delta is never
   * empty.
   */
  function LineDelta(line: string, contentOf: string -> Option<string>): (delta: Option<string>)
    ensures delta.Some? ==> delta.value != []
    ensures delta.Some? <==>
              (var t := Trim(StripDataPrefix(line));
               t != [] && t != Done && contentOf(t).Some? && contentOf(t).value != [])
    ensures delta.Some? ==> delta == contentOf(Trim(StripDataPrefix(line)))
  {
    var trimmed := Trim(StripDataPrefix(line));
    if trimmed == [] || trimmed == Done then None
    else match contentOf(trimmed)
      case None => None
      case Some(content) => if content == [] then None else Some(content)
  }

  /** The unterminated tail `flushSentence` returns: the last split piece. */
  function Tail(text: string): (tail: string)
    ensures |tail| <= |text| && tail == text[|text| - |tail|..]
    ensures NoBoundary(tail)
  {
    SplitFromTail(text, 0, 0);
    var parts := Split(text);
    parts[|parts| - 1]
  }

  /** The sentences `flushSentence` speaks, in order: the trim of every
      split piece but the last. */
  function Completed(text: string): (sentences: seq<string>)
    ensures |sentences| == |Split(text)| - 1
    ensures forall i :: 0 <= i < |sentences| ==> sentences[i] == Trim(Split(text)[i])
  {
    var parts := Split(text);
    seq(|parts| - 1, i requires 0 <= i < |parts| - 1 => Trim(parts[i]))
  }

  /** Every completed sentence passes `speakSentence`'s guard: the pieces
      before the tail end in `.`, `!` or `?`, so their trim is neither blank
      nor `[SILENT]`, which ends in `]`. */
  lemma CompletedUtterable(text: string)
    ensures forall i :: 0 <= i < |Completed(text)| ==> Trim(Split(text)[i]) != [] && Utterable(Completed(text)[i])
  {
    SplitFromCompleted(text, 0, 0);
    forall i | 0 <= i < |Completed(text)|
      ensures Trim(Split(text)[i]) != [] && Utterable(Completed(text)[i])
    {
      var piece := Split(text)[i];
      assert EndsSentence(piece);
      TrimKeepsLast(piece);
      TrimIdempotent(piece);
      var t := Trim(piece);
      assert t[|t| - 1] != ']';
      assert Silent[|Silent| - 1] == ']';
    }
  }

  /** A buffer without a boundary is returned unchanged and nothing is spoken. */
  lemma FlushWithoutBoundary(text: string)
    requires NoBoundary(text)
    ensures Completed(text) == [] && Tail(text) == text
  {
    SplitSingleIff(text);
  }

  /** A buffer with a boundary speaks at least one sentence. */
  lemma FlushWithBoundary(text: string)
    requires !NoBoundary(text)
    ensures Completed(text) != []
  {
    SplitSingleIff(text);
  }

  /** `b` ends with `a`. */
  predicate IsSuffix(a: string, b: string) {
    |a| <= |b| && b[|b| - |a|..] == a
  }

  /** The read loop's locals of one turn. */
  datatype Progress = Progress(fullText: string, buffer: string, hasSentences: bool)

  const Fresh := Progress("", "", false)

  /** What holds between the loop's locals: the buffer is the end of the
      reply so far and holds no sentence boundary yet, and until a sentence
      has been completed it is the whole reply. */
  predicate Coherent(p: Progress) {
    && IsSuffix(p.buffer, p.fullText)
    && NoBoundary(p.buffer)
    && (!p.hasSentences ==> p.buffer == p.fullText)
    && (p.hasSentences ==> !NoBoundary(p.fullText))
  }

  /** A boundary stays a boundary when text is appended after it. */
  lemma BoundaryInPrefix(s: string, t: string, k: int)
    requires BoundaryAt(s, k)
    ensures BoundaryAt(s + t, k)
  {
    assert (s + t)[k - 1] == s[k - 1] && (s + t)[k] == s[k];
  }

  /** A boundary of a suffix is a boundary of the whole text. */
  lemma BoundaryInSuffix(s: string, n: nat, k: int)
    requires n <= |s| && BoundaryAt(s[n..], k)
    ensures BoundaryAt(s, n + k)
  {
    assert s[n..][k - 1] == s[n + k - 1] && s[n..][k] == s[n + k];
  }

  /** A text whose trim is `[SILENT]` holds no `.`, `!` or `?`, so no
      sentence boundary. */
  lemma SilentHasNoBoundary(s: string)
    requires Trim(s) == Silent
    ensures NoBoundary(s)
  {
    forall q | 0 < q < |s| ensures !BoundaryAt(s, q) {
      SilentHasNoTerminator(s, q - 1);
    }
  }

  /** `[SILENT]` holds no `.`, `!` or `?`. */
  lemma SilentChars()
    ensures forall k :: 0 <= k < |Silent| ==> !IsTerminator(Silent[k])
  {
  }

  /** No character of such a text is `.`, `!` or `?`: it is either white
      space or a character of `[SILENT]`. */
  lemma SilentHasNoTerminator(s: string, i: nat)
    requires Trim(s) == Silent && i < |s|
    ensures !IsTerminator(s[i])
  {
    var off := TrimOffset(s);
    if off <= i < off + |Silent| {
      assert s[i] == Silent[i - off];
      SilentChars();
    } else {
      assert IsSpace(s[i]);
    }
  }

  lemma FreshCoherent()
    ensures Coherent(Fresh)
  {
  }

  /** A suffix of a suffix is a suffix. */
  lemma SuffixOfSuffix(a: string, b: string, c: string)
    requires IsSuffix(a, b) && IsSuffix(b, c)
    ensures IsSuffix(a, c)
  {
    assert c[|c| - |a|..] == c[|c| - |b|..][|b| - |a|..];
  }

  /** Appending the same text keeps a suffix a suffix. */
  lemma SuffixExtends(a: string, b: string, delta: string)
    requires IsSuffix(a, b)
    ensures IsSuffix(a + delta, b + delta)
  {
    assert b + delta == b[..|b| - |a|] + (a + delta);
  }

  /** A text holding a boundary passes it on to any text ending with it and
      to any text starting with it. */
  lemma BoundarySpreads(a: string, b: string, delta: string)
    requires !NoBoundary(a)
    ensures IsSuffix(a, b) ==> !NoBoundary(b)
    ensures !NoBoundary(a + delta)
  {
    var k :| 0 < k < |a| && BoundaryAt(a, k);
    BoundaryInPrefix(a, delta, k);
    if IsSuffix(a, b) {
      BoundaryInSuffix(b, |b| - |a|, k);
    }
  }

  /** Flushing the extended buffer keeps the locals coherent. */
  lemma FlushCoherent(p: Progress, delta: string)
    requires Coherent(p)
    ensures Coherent(Progress(p.fullText + delta, Tail(p.buffer + delta),
                              p.hasSentences || Completed(p.buffer + delta) != []))
  {
    var b, f := p.buffer + delta, p.fullText + delta;
    SuffixExtends(p.buffer, p.fullText, delta);
    SuffixOfSuffix(Tail(b), b, f);
    SplitSingleIff(b);
    if p.hasSentences {
      BoundarySpreads(p.fullText, f, delta);
    } else if Completed(b) != [] {
      BoundarySpreads(b, f, []);
    }
  }

  /** The effect of a decoded delta: it is appended to `fullText` and to the
      buffer, and the buffer is flushed. Feeding keeps the locals coherent
      and grows `fullText` by exactly the delta. */
  function Feed(p: Progress, delta: string): (q: Progress)
    ensures Coherent(p) ==> Coherent(q)
    ensures q.fullText == p.fullText + delta
  {
    var b := p.buffer + delta;
    if Coherent(p) then FlushCoherent(p, delta); Progress(p.fullText + delta, Tail(b), p.hasSentences || Completed(b) != [])
    else Progress(p.fullText + delta, Tail(b), p.hasSentences || Completed(b) != [])
  }

  /** The effect of a whole stream line. */
  function FeedLine(p: Progress, line: string, contentOf: string -> Option<string>): Progress {
    match LineDelta(line, contentOf)
    case None => p
    case Some(delta) => Feed(p, delta)
  }

  /** A line that yields no delta changes nothing; one that does grows
      `fullText` by exactly that delta. */
  lemma FeedLineEffect(p: Progress, line: string, contentOf: string -> Option<string>)
    requires Coherent(p)
    ensures Coherent(FeedLine(p, line, contentOf))
    ensures LineDelta(line, contentOf).None? ==> FeedLine(p, line, contentOf) == p
    ensures LineDelta(line, contentOf).Some? ==>
              FeedLine(p, line, contentOf).fullText == p.fullText + LineDelta(line, contentOf).value
  {
  }

  /** Feeding a delta that completes no sentence only extends the buffer. */
  lemma FeedWithoutBoundary(p: Progress, delta: string)
    requires NoBoundary(p.buffer + delta)
    ensures Feed(p, delta) == Progress(p.fullText + delta, p.buffer + delta, p.hasSentences)
  {
    FlushWithoutBoundary(p.buffer + delta);
  }

  /** The leftover the stream end speaks: the trimmed buffer, when it is
      neither blank nor `[SILENT]`. */
  function Leftover(p: Progress): (r: Option<string>)
    ensures r.Some? <==> Trim(p.buffer) != [] && Trim(p.buffer) != Silent
    ensures r.Some? ==> r.value == Trim(p.buffer) && Utterable(r.value)
  {
    var t := Trim(p.buffer);
    TrimIdempotent(p.buffer);
    if t != [] && t != Silent then Some(t) else None
  }

  /** The assistant message the stream end records: the trimmed reply, when
      it is neither blank nor `[SILENT]`. */
  function Reply(p: Progress): (r: Option<string>)
    ensures r.Some? <==> Trim(p.fullText) != [] && Trim(p.fullText) != Silent
    ensures r.Some? ==> r.value == Trim(p.fullText) && r.value != []
  {
    var t := Trim(p.fullText);
    if t != [] && t != Silent then Some(t) else None
  }

  /** A reply that is exactly `[SILENT]`, up to surrounding white space, is
      neither spoken nor recorded. */
  lemma SilentReplyIsQuiet(p: Progress)
    requires Coherent(p) && Trim(p.fullText) == Silent
    ensures Reply(p).None? && Leftover(p).None? && !p.hasSentences
  {
    SilentHasNoBoundary(p.fullText);
  }
}
