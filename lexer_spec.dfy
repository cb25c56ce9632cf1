/**
  What the lexer computes, as functions of the input text and a start
  index. The `Lexer` class in lexer.dfy is proved to follow these.

  The lexer works on a forward-only index. At each call it skips white
  space and newlines, then tries, in this order, a one-character mark or
  built-in operator, a run of identifier characters (classified as a
  number, a keyword or an identifier), and a `#` comment; a character that
  starts none of these ends lexing.
*/
module LexerSpec {
  import opened Wrappers
  import opened Tokens
  import opened Characters

  /** What the lexer relies on without defining: the keyword lookup (which
      differs between the two keyword enumerations) and Swift's
      `Double(String)` conversion. */
  datatype Vocabulary = Vocabulary(
    keyword: string -> Option<Keyword>,
    number: string -> Option<real>)

  /** Characters skipped before a token. */
  predicate IsBlank(c: char)
  {
    IsSpace(c) || IsNewLine(c)
  }

  /** Characters that continue an identifier-or-number run. */
  predicate InRun(c: char)
  {
    IsAlphanumeric(c) || c == '.'
  }

  /** A character that starts no token: lexing stops in front of it. */
  predicate Unclassified(c: char)
  {
    !IsBlank(c) && c !in MarkChars && c !in OperatorChars && !IsAlphanumeric(c) && c != '#'
  }

  /** The index of the first non-blank character at or after `i`. */
  function SkipBlanks(s: string, i: nat): (j: nat)
    requires i <= |s|
    ensures i <= j <= |s|
    ensures forall k :: i <= k < j ==> IsBlank(s[k])
    ensures j < |s| ==> !IsBlank(s[j])
    decreases |s| - i
  {
    if i < |s| && IsBlank(s[i]) then SkipBlanks(s, i + 1) else i
  }

  /** The end of the maximal run of identifier characters starting at `i`. */
  function RunEnd(s: string, i: nat): (j: nat)
    requires i <= |s|
    ensures i <= j <= |s|
    ensures forall k :: i <= k < j ==> InRun(s[k])
    ensures j < |s| ==> !InRun(s[j])
    decreases |s| - i
  {
    if i < |s| && InRun(s[i]) then RunEnd(s, i + 1) else i
  }

  /** The index of the first `\n` or `\r` at or after `i`, or the end. */
  function LineEnd(s: string, i: nat): (j: nat)
    requires i <= |s|
    ensures i <= j <= |s|
    ensures forall k :: i <= k < j ==> !IsNewLine(s[k])
    ensures j < |s| ==> IsNewLine(s[j])
    decreases |s| - i
  {
    if i < |s| && !IsNewLine(s[i]) then LineEnd(s, i + 1) else i
  }

  /** `_markToken(c) ?? _operatorToken(c)`: the token of a one-character
      mark or operator, whose raw value is `c`. */
  function CharToken(c: char): (r: Option<Token>)
    ensures r.Some? <==> c in MarkChars || c in OperatorChars
    ensures r.Some? ==>
              || (r.value.Mark? && r.value.mark.RawValue() == c)
              || (r.value.Operator? && r.value.op.RawValue() == c)
  {
    match MarkFromRaw(c)
    case Some(m) => Some(m.AsToken())
    case None =>
      match OperatorFromRaw(c)
      case Some(op) => Some(op.AsToken())
      case None => None
  }

  /** How a run of identifier characters is classified: a number if it
      converts to a `Double`, otherwise a keyword if it is one, otherwise an
      identifier. */
  function Classify(text: string, voc: Vocabulary): (r: Token)
    ensures r.Number? || r.Keyword? || r.Identifier?
    ensures r.Number? <==> voc.number(text).Some?
    ensures r.Number? ==> voc.number(text) == Some(r.value)
    ensures r.Keyword? <==> voc.number(text).None? && voc.keyword(text).Some?
    ensures r.Keyword? ==> voc.keyword(text) == Some(r.keyword)
    ensures r.Identifier? ==> r.name == text
  {
    match voc.number(text)
    case Some(v) => Number(v)
    case None =>
      match voc.keyword(text)
      case Some(k) => k.AsToken()
      case None => Identifier(text)
  }

  /** One call of the lexer's `next` from index `i`: the token (none when
      the input is exhausted or an unclassified character is reached) and
      the index afterwards. A token always consumes at least one character;
      no token is an `.other`. (Where it stops without a token is stated by
      `LexerProperties.ScanStops`.) */
  function Scan(s: string, i: nat, voc: Vocabulary): (r: (Option<Token>, nat))
    requires i <= |s|
    ensures SkipBlanks(s, i) <= r.1 <= |s|
    ensures r.0.Some? ==> SkipBlanks(s, i) < r.1 && !r.0.value.Other?
    ensures r.0.None? ==> r.1 == SkipBlanks(s, i)
  {
    var j := SkipBlanks(s, i);
    if j == |s| then (None, j)
    else
      var c := s[j];
      match CharToken(c)
      case Some(t) => (Some(t), j + 1)
      case None =>
        if IsAlphanumeric(c) then
          var e := RunEnd(s, j);
          (Some(Classify(s[j..e], voc)), e)
        else if c == '#' then
          var e := LineEnd(s, j);
          (Some(Comment(s[j..e])), e)
        else
          (None, j)
  }

  /** `lex()` from index `i`: the tokens produced until `next` returns nil,
      and the index at which it stopped. Lexing stops only at the end of the
      input or in front of an unclassified character (`LexerProperties.LexStops`),
      and never yields `.other`. */
  function LexFrom(s: string, i: nat, voc: Vocabulary): (r: (seq<Token>, nat))
    requires i <= |s|
    ensures i <= r.1 <= |s|
    ensures forall k :: 0 <= k < |r.0| ==> !r.0[k].Other?
    decreases |s| - i
  {
    var (t, j) := Scan(s, i, voc);
    match t
    case None => ([], j)
    case Some(tok) =>
      var (rest, stop) := LexFrom(s, j, voc);
      ([tok] + rest, stop)
  }

  /** `Lexer(input: s).lex()`. */
  function Lex(s: string, voc: Vocabulary): (r: seq<Token>)
    ensures |r| <= |s|
    ensures forall k :: 0 <= k < |r| ==> !r[k].Other?
    ensures SkipBlanks(s, 0) == |s| ==> r == []
  {
    TokensWithinText(s, 0, voc);
    LexFrom(s, 0, voc).0
  }

  /** Every token consumes at least one character, so lexing from `i`
      yields at most as many tokens as it passes characters. */
  lemma {:induction false} TokensWithinText(s: string, i: nat, voc: Vocabulary)
    requires i <= |s|
    ensures |LexFrom(s, i, voc).0| <= LexFrom(s, i, voc).1 - i
    decreases |s| - i
  {
    var (t, j) := Scan(s, i, voc);
    if t.Some? {
      TokensWithinText(s, j, voc);
    }
  }
}
