/**
 * Sentence splitting of a streamed reply: `text.split(/(?<=[.!?])\s+/)`,
 * modelled on the algorithm `String.prototype.split` runs for a regular
 * expression, and the pieces `flushSentence` speaks from it.
 */
module Sentences {
  import opened JsText

  predicate IsTerminator(c: char) {
    c == '.' || c == '!' || c == '?'
  }

  /** The separator can match at `q`: the character before is `.`, `!` or
      `?` (the look-behind) and the character at `q` is white space. */
  predicate BoundaryAt(s: string, q: int) {
    0 < q < |s| && IsTerminator(s[q - 1]) && IsSpace(s[q])
  }

  /** No sentence boundary anywhere in `s`. */
  predicate NoBoundary(s: string) {
    forall q :: 0 < q < |s| ==> !BoundaryAt(s, q)
  }

  /** The end of the white-space run that starts at `q`: greedy `\s+`. */
  function RunEnd(s: string, q: nat): (e: nat)
    requires q <= |s|
    decreases |s| - q
    ensures q <= e <= |s|
    ensures forall k :: q <= k < e ==> IsSpace(s[k])
    ensures e == |s| || !IsSpace(s[e])
    ensures q < |s| && IsSpace(s[q]) ==> q < e
  {
    if q < |s| && IsSpace(s[q]) then RunEnd(s, q + 1) else q
  }

  /** The split loop: `p` is where the current piece starts, `q` where the
      next match is tried. A match at `q` ends the piece at `q` and the next
      one starts after the white-space run; the rest of the string is the
      last piece. */
  function SplitFrom(s: string, p: nat, q: nat): (parts: seq<string>)
    requires p <= q <= |s|
    decreases |s| - q
    ensures |parts| >= 1
  {
    if q == |s| then [s[p..]]
    else if BoundaryAt(s, q) then
      var e := RunEnd(s, q);
      [s[p..q]] + SplitFrom(s, e, e)
    else SplitFrom(s, p, q + 1)
  }

  /** The white-space runs the split consumes, in order. */
  ghost function SeparatorsFrom(s: string, p: nat, q: nat): (seps: seq<string>)
    requires p <= q <= |s|
    decreases |s| - q
  {
    if q == |s| then []
    else if BoundaryAt(s, q) then
      var e := RunEnd(s, q);
      [s[q..e]] + SeparatorsFrom(s, e, e)
    else SeparatorsFrom(s, p, q + 1)
  }

  /** `text.split(SENTENCE_SPLIT)`. */
  function Split(s: string): seq<string> {
    SplitFrom(s, 0, 0)
  }

  ghost function Separators(s: string): seq<string> {
    SeparatorsFrom(s, 0, 0)
  }

  /** The pieces put back together with the separators between them. */
  function Interleave(parts: seq<string>, seps: seq<string>): string
    requires |parts| == |seps| + 1
    decreases |seps|
  {
    if seps == [] then parts[0]
    else parts[0] + seps[0] + Interleave(parts[1..], seps[1..])
  }

  /** What holds of a scan state: the current piece starts the string or
      follows white space, and no boundary was passed since it started. */
  predicate Scanning(s: string, p: nat, q: nat) {
    && p <= q <= |s|
    && (p == 0 || IsSpace(s[p - 1]))
    && forall k :: p < k < q ==> !BoundaryAt(s, k)
  }

  /** The split yields one piece more than it consumes separators. */
  lemma {:induction false} SplitFromCount(s: string, p: nat, q: nat)
    requires p <= q <= |s|
    decreases |s| - q
    ensures |SplitFrom(s, p, q)| == |SeparatorsFrom(s, p, q)| + 1
  {
    if q == |s| {
    } else if BoundaryAt(s, q) {
      SplitFromCount(s, RunEnd(s, q), RunEnd(s, q));
    } else {
      SplitFromCount(s, p, q + 1);
    }
  }

  /** Each separator is a non-empty white-space run. */
  lemma {:induction false} SeparatorsFromRuns(s: string, p: nat, q: nat)
    requires p <= q <= |s|
    decreases |s| - q
    ensures forall i :: 0 <= i < |SeparatorsFrom(s, p, q)| ==>
              SeparatorsFrom(s, p, q)[i] != [] && AllSpace(SeparatorsFrom(s, p, q)[i])
  {
    if q == |s| {
    } else if BoundaryAt(s, q) {
      var e := RunEnd(s, q);
      SeparatorsFromRuns(s, e, e);
      var rest := SeparatorsFrom(s, e, e);
      var seps := SeparatorsFrom(s, p, q);
      assert seps == [s[q..e]] + rest;
      forall i | 0 <= i < |seps| ensures seps[i] != [] && AllSpace(seps[i]) {
        if i == 0 {
          assert forall k :: 0 <= k < e - q ==> s[q..e][k] == s[q + k];
        } else {
          assert seps[i] == rest[i - 1];
        }
      }
    } else {
      SeparatorsFromRuns(s, p, q + 1);
    }
  }

  /** Interleaving a list with a piece and a separator in front. */
  lemma InterleaveCons(a: string, parts: seq<string>, b: string, seps: seq<string>)
    requires |parts| == |seps| + 1
    ensures Interleave([a] + parts, [b] + seps) == a + b + Interleave(parts, seps)
  {
    assert ([a] + parts)[1..] == parts;
    assert ([b] + seps)[1..] == seps;
  }

  /** The split loses nothing: the pieces interleaved with the separators
      give back the text, and each separator is a non-empty white-space run. */
  lemma {:induction false} SplitFromReconstructs(s: string, p: nat, q: nat)
    requires p <= q <= |s|
    decreases |s| - q
    ensures |SplitFrom(s, p, q)| == |SeparatorsFrom(s, p, q)| + 1
    ensures Interleave(SplitFrom(s, p, q), SeparatorsFrom(s, p, q)) == s[p..]
    ensures forall i :: 0 <= i < |SeparatorsFrom(s, p, q)| ==>
              SeparatorsFrom(s, p, q)[i] != [] && AllSpace(SeparatorsFrom(s, p, q)[i])
  {
    SplitFromCount(s, p, q);
    SeparatorsFromRuns(s, p, q);
    if q == |s| {
    } else if BoundaryAt(s, q) {
      var e := RunEnd(s, q);
      SplitFromReconstructs(s, e, e);
      InterleaveCons(s[p..q], SplitFrom(s, e, e), s[q..e], SeparatorsFrom(s, e, e));
      assert s[q..] == s[q..e] + s[e..];
      assert s[p..] == s[p..q] + s[q..];
    } else {
      SplitFromReconstructs(s, p, q + 1);
    }
  }

  lemma SplitReconstructs(s: string)
    ensures |Split(s)| == |Separators(s)| + 1
    ensures Interleave(Split(s), Separators(s)) == s
    ensures forall i :: 0 <= i < |Separators(s)| ==> Separators(s)[i] != [] && AllSpace(Separators(s)[i])
  {
    SplitFromReconstructs(s, 0, 0);
  }

  /** After a separator the scan restarts in a good state. */
  lemma AfterSeparator(s: string, q: nat)
    requires q < |s| && IsSpace(s[q])
    ensures Scanning(s, RunEnd(s, q), RunEnd(s, q))
  {
    var e := RunEnd(s, q);
    assert IsSpace(s[e - 1]);
  }

  /** A finished sentence: non-empty and ending in `.`, `!` or `?`. */
  predicate EndsSentence(piece: string) {
    piece != [] && IsTerminator(piece[|piece| - 1])
  }

  /** A completed sentence put in front keeps every piece but the last
      completed. */
  lemma CompletedCons(head: string, rest: seq<string>)
    requires EndsSentence(head) && |rest| >= 1
    requires forall i :: 0 <= i < |rest| - 1 ==> EndsSentence(rest[i])
    ensures forall i :: 0 <= i < |[head] + rest| - 1 ==> EndsSentence(([head] + rest)[i])
  {
    assert forall i :: 1 <= i < |[head] + rest| ==> ([head] + rest)[i] == rest[i - 1];
  }

  /** Every piece but the last is non-empty and ends in `.`, `!` or `?`. */
  lemma {:induction false} SplitFromCompleted(s: string, p: nat, q: nat)
    requires Scanning(s, p, q)
    decreases |s| - q
    ensures forall i :: 0 <= i < |SplitFrom(s, p, q)| - 1 ==> EndsSentence(SplitFrom(s, p, q)[i])
  {
    if q == |s| {
    } else if BoundaryAt(s, q) {
      var e := RunEnd(s, q);
      AfterSeparator(s, q);
      SplitFromCompleted(s, e, e);
      assert p < q;
      assert EndsSentence(s[p..q]) by {
        assert s[p..q][q - p - 1] == s[q - 1];
      }
      CompletedCons(s[p..q], SplitFrom(s, e, e));
    } else {
      assert SplitFrom(s, p, q) == SplitFrom(s, p, q + 1);
      SplitFromCompleted(s, p, q + 1);
    }
  }

  /** Every piece after the first starts after a whole white-space run. */
  lemma {:induction false} SplitFromFollowers(s: string, p: nat, q: nat)
    requires p <= q <= |s|
    decreases |s| - q
    ensures forall i :: 1 <= i < |SplitFrom(s, p, q)| ==>
              SplitFrom(s, p, q)[i] == [] || !IsSpace(SplitFrom(s, p, q)[i][0])
  {
    if q == |s| {
    } else if BoundaryAt(s, q) {
      var e := RunEnd(s, q);
      SplitFromFollowers(s, e, e);
      SplitFromFirst(s, e, e);
      var rest := SplitFrom(s, e, e);
      var parts := SplitFrom(s, p, q);
      assert parts == [s[p..q]] + rest;
      forall i | 1 <= i < |parts| ensures parts[i] == [] || !IsSpace(parts[i][0]) {
        assert parts[i] == rest[i - 1];
      }
    } else {
      SplitFromFollowers(s, p, q + 1);
      var parts, later := SplitFrom(s, p, q), SplitFrom(s, p, q + 1);
      assert parts == later;
      forall i | 1 <= i < |parts| ensures parts[i] == [] || !IsSpace(parts[i][0]) {
        assert parts[i] == later[i];
      }
    }
  }

  /** The first piece starts at the scan's start. */
  lemma {:induction false} SplitFromFirst(s: string, p: nat, q: nat)
    requires p <= q <= |s|
    decreases |s| - q
    ensures var first := SplitFrom(s, p, q)[0];
            |first| <= |s| - p && first == s[p..p + |first|]
  {
    if q == |s| {
    } else if BoundaryAt(s, q) {
    } else {
      SplitFromFirst(s, p, q + 1);
    }
  }

  /** The last piece is a suffix of the text and holds no boundary. */
  lemma {:induction false} SplitFromTail(s: string, p: nat, q: nat)
    requires Scanning(s, p, q)
    decreases |s| - q
    ensures var parts := SplitFrom(s, p, q);
            var tail := parts[|parts| - 1];
            |tail| <= |s| - p && tail == s[|s| - |tail|..] && NoBoundary(tail)
  {
    if q == |s| {
      var t := s[p..];
      forall k | 0 < k < |t| ensures !BoundaryAt(t, k) {
        assert t[k - 1] == s[p + k - 1] && t[k] == s[p + k];
        assert !BoundaryAt(s, p + k);
      }
    } else if BoundaryAt(s, q) {
      var e := RunEnd(s, q);
      AfterSeparator(s, q);
      SplitFromTail(s, e, e);
      var rest := SplitFrom(s, e, e);
      var parts := SplitFrom(s, p, q);
      assert parts == [s[p..q]] + rest;
      assert parts[|parts| - 1] == rest[|rest| - 1];
    } else {
      SplitFromTail(s, p, q + 1);
    }
  }

  /** A slice that spans no boundary of the text has none of its own. */
  lemma SliceUnbroken(s: string, p: nat, q: nat)
    requires p <= q <= |s|
    requires forall k :: p < k < q ==> !BoundaryAt(s, k)
    ensures NoBoundary(s[p..q])
  {
    var t := s[p..q];
    forall k | 0 < k < |t| ensures !BoundaryAt(t, k) {
      assert t[k - 1] == s[p + k - 1] && t[k] == s[p + k];
      assert !BoundaryAt(s, p + k);
    }
  }

  /** The split cuts at every boundary: no piece holds one. */
  lemma {:induction false} SplitFromPiecesUnbroken(s: string, p: nat, q: nat)
    requires Scanning(s, p, q)
    decreases |s| - q
    ensures forall i :: 0 <= i < |SplitFrom(s, p, q)| ==> NoBoundary(SplitFrom(s, p, q)[i])
  {
    if q == |s| {
      SliceUnbroken(s, p, |s|);
      assert s[p..] == s[p..|s|];
    } else if BoundaryAt(s, q) {
      var e := RunEnd(s, q);
      AfterSeparator(s, q);
      SplitFromPiecesUnbroken(s, e, e);
      SliceUnbroken(s, p, q);
      var rest := SplitFrom(s, e, e);
      var parts := SplitFrom(s, p, q);
      assert parts == [s[p..q]] + rest;
      forall i | 0 <= i < |parts| ensures NoBoundary(parts[i]) {
        if i > 0 {
          assert parts[i] == rest[i - 1];
        }
      }
    } else {
      SplitFromPiecesUnbroken(s, p, q + 1);
    }
  }

  /** No piece of `text.split(SENTENCE_SPLIT)` holds a sentence boundary. */
  lemma SplitPiecesUnbroken(s: string)
    ensures forall i :: 0 <= i < |Split(s)| ==> NoBoundary(Split(s)[i])
  {
    SplitFromPiecesUnbroken(s, 0, 0);
  }

  /** There is a single piece exactly when no boundary lies ahead of the scan. */
  lemma {:induction false} SplitFromSingle(s: string, p: nat, q: nat)
    requires p <= q <= |s|
    decreases |s| - q
    ensures |SplitFrom(s, p, q)| == 1 <==> forall k :: q <= k < |s| ==> !BoundaryAt(s, k)
    ensures |SplitFrom(s, p, q)| == 1 ==> SplitFrom(s, p, q) == [s[p..]]
  {
    if q == |s| {
    } else if BoundaryAt(s, q) {
      var e := RunEnd(s, q);
      assert |SplitFrom(s, p, q)| == 1 + |SplitFrom(s, e, e)|;
    } else {
      SplitFromSingle(s, p, q + 1);
    }
  }

  /** A text without a boundary is one piece, itself; a text with one is
      more than one piece. */
  lemma SplitSingleIff(s: string)
    ensures |Split(s)| == 1 <==> NoBoundary(s)
    ensures NoBoundary(s) ==> Split(s) == [s]
  {
    SplitFromSingle(s, 0, 0);
  }
}
