/**
 * The few pieces of JavaScript's string semantics the application relies on:
 * white space as `String.prototype.trim` and the regular-expression class `\s`
 * see it, the word characters of `\b`, ASCII case folding, and concatenation
 * of string pieces.
 */
module JsText {

  /** ECMAScript WhiteSpace and LineTerminator characters: exactly what `trim`
      strips and what `\s` matches. */
  predicate IsSpace(c: char) {
    || c == '\t' || c == '\n' || c == '\U{000B}' || c == '\U{000C}' || c == '\r'
    || c == ' ' || c == '\U{00A0}' || c == '\U{1680}'
    || ('\U{2000}' <= c <= '\U{200A}')
    || c == '\U{2028}' || c == '\U{2029}' || c == '\U{202F}' || c == '\U{205F}'
    || c == '\U{3000}' || c == '\U{FEFF}'
  }

  predicate AllSpace(s: string) {
    forall i :: 0 <= i < |s| ==> IsSpace(s[i])
  }

  /** The characters of `\w`; `\b` holds between one of these and anything else. */
  predicate IsWordChar(c: char) {
    ('a' <= c <= 'z') || ('A' <= c <= 'Z') || ('0' <= c <= '9') || c == '_'
  }

  /** Leading white space removed. */
  function TrimStart(s: string): (r: string)
    ensures |r| <= |s| && r == s[|s| - |r|..]
    ensures forall i :: 0 <= i < |s| - |r| ==> IsSpace(s[i])
    ensures r == [] || !IsSpace(r[0])
  {
    if |s| > 0 && IsSpace(s[0]) then TrimStart(s[1..]) else s
  }

  /** Trailing white space removed. */
  function TrimEnd(s: string): (r: string)
    ensures |r| <= |s| && r == s[..|r|]
    ensures forall i :: |r| <= i < |s| ==> IsSpace(s[i])
    ensures r == [] || !IsSpace(r[|r| - 1])
  {
    if |s| > 0 && IsSpace(s[|s| - 1]) then TrimEnd(s[..|s| - 1]) else s
  }

  /** How many leading white-space characters `trim` drops. */
  function TrimOffset(s: string): (k: nat)
    ensures k <= |s|
    ensures forall i :: 0 <= i < k ==> IsSpace(s[i])
  {
    |s| - |TrimStart(s)|
  }

  /** `s.trim()`: the middle of `s` between a white-space prefix and a
      white-space suffix, neither starting nor ending with white space. */
  function Trim(s: string): (r: string)
    ensures TrimOffset(s) + |r| <= |s|
    ensures r == s[TrimOffset(s)..TrimOffset(s) + |r|]
    ensures forall i :: TrimOffset(s) + |r| <= i < |s| ==> IsSpace(s[i])
    ensures r == [] || (!IsSpace(r[0]) && !IsSpace(r[|r| - 1]))
  {
    var t := TrimStart(s);
    var r := TrimEnd(t);
    assert s[TrimOffset(s)..] == t;
    r
  }

  /** `trim` yields the empty string exactly for all-white-space input. */
  lemma TrimEmptyIff(s: string)
    ensures Trim(s) == [] <==> AllSpace(s)
  {
    var k := TrimOffset(s);
    if Trim(s) != [] {
      assert !IsSpace(s[k]);
    }
  }

  /** A string whose last character is not white space keeps that character
      as the last character of its trim. */
  lemma TrimKeepsLast(s: string)
    requires |s| > 0 && !IsSpace(s[|s| - 1])
    ensures |Trim(s)| > 0 && Trim(s)[|Trim(s)| - 1] == s[|s| - 1]
  {
  }

  /** Trimming twice is trimming once. */
  lemma TrimIdempotent(s: string)
    ensures Trim(Trim(s)) == Trim(s)
  {
    var r := Trim(s);
    if r != [] {
      assert TrimStart(r) == r;
      assert TrimEnd(r) == r;
    }
  }

  /** A string that neither starts nor ends with white space is its own trim. */
  lemma TrimUnchanged(s: string)
    requires s != [] && !IsSpace(s[0]) && !IsSpace(s[|s| - 1])
    ensures Trim(s) == s
  {
    assert TrimStart(s) == s;
    assert TrimEnd(s) == s;
  }

  /** ASCII case folding: the only folding the application's case-insensitive
      patterns can observe, since every pattern letter is ASCII. */
  function LowerChar(c: char): (d: char)
    ensures 'A' <= c <= 'Z' ==> d as int == c as int + 32
    ensures !('A' <= c <= 'Z') ==> d == c
  {
    if 'A' <= c <= 'Z' then (c as int + 32) as char else c
  }

  function Lower(s: string): (r: string)
    ensures |r| == |s|
    ensures forall i :: 0 <= i < |s| ==> r[i] == LowerChar(s[i])
  {
    seq(|s|, i requires 0 <= i < |s| => LowerChar(s[i]))
  }

  /** The pieces joined without separator, as `+=` in a loop produces them. */
  function Concat(pieces: seq<string>): string
  {
    if pieces == [] then [] else Concat(pieces[..|pieces| - 1]) + pieces[|pieces| - 1]
  }

  /** Joining is associative over splitting the list of pieces anywhere. */
  lemma {:induction false} ConcatAppend(a: seq<string>, b: seq<string>)
    decreases |b|
    ensures Concat(a + b) == Concat(a) + Concat(b)
  {
    if b != [] {
      var b' := b[..|b| - 1];
      assert (a + b)[..|a + b| - 1] == a + b';
      ConcatAppend(a, b');
    } else {
      assert a + b == a;
    }
  }

  /** A single piece joins to itself. */
  lemma ConcatSingle(piece: string)
    ensures Concat([piece]) == piece
  {
    assert [piece][..0] == [];
  }
}
