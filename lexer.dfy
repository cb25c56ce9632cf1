/**
  The lexer object: the input text, a forward-only index into it, and the
  vocabulary (keyword set and number conversion) it classifies runs with.
  Every method is proved to do what the functions of `LexerSpec` say.
*/
module Lexing {
  import opened Wrappers
  import opened Tokens
  import opened Characters
  import opened LexerSpec

  class Lexer {
    const input: string
    const vocab: Vocabulary
    var index: nat

    ghost predicate Valid()
      reads this
    {
      index <= |input|
    }

    /** `Lexer(input:)`: the index starts at the beginning of the input. */
    constructor (input: string, vocab: Vocabulary)
      ensures Valid()
      ensures this.input == input && this.vocab == vocab && index == 0
    {
      this.input := input;
      this.vocab := vocab;
      index := 0;
    }

    /** `currentChar`: the character at the index, none at the end. */
    function CurrentChar(): (c: Option<char>)
      reads this
      requires Valid()
      ensures c.Some? <==> index < |input|
      ensures c.Some? ==> c.value == input[index]
    {
      if index < |input| then Some(input[index]) else None
    }

    /** `advance()`: moves the index one character forward (Swift traps
        when asked to move past the end, which no caller does). */
    method Advance()
      requires Valid() && index < |input|
      modifies this
      ensures Valid() && index == old(index) + 1
    {
      index := index + 1;
    }

    /** `readIdentifierOrNumber()`: reads the maximal run of alphanumeric,
        `_` and `.` characters at the index. */
    method ReadIdentifierOrNumber() returns (str: string)
      requires Valid()
      modifies this
      ensures Valid() && index == RunEnd(input, old(index))
      ensures str == input[old(index)..index]
    {
      str := "";
      while CurrentChar().Some? && InRun(CurrentChar().value)
        invariant Valid() && old(index) <= index
        invariant RunEnd(input, index) == RunEnd(input, old(index))
        invariant str == input[old(index)..index]
        decreases |input| - index
      {
        str := str + [input[index]];
        Advance();
      }
    }

    /** `_charToken(c)`: a mark or operator token, advancing past it. */
    method CharToken(c: char) returns (t: Option<Token>)
      requires Valid() && index < |input| && input[index] == c
      modifies this
      ensures Valid() && t == LexerSpec.CharToken(c)
      ensures index == if t.Some? then old(index) + 1 else old(index)
    {
      t := LexerSpec.CharToken(c);
      if t.Some? {
        Advance();
      }
    }

    /** `_identifierToken(c)`: when `c` is alphanumeric, reads the run and
        classifies it. */
    method IdentifierToken(c: char) returns (t: Option<Token>)
      requires Valid() && index < |input| && input[index] == c
      modifies this
      ensures Valid()
      ensures IsAlphanumeric(c) ==> index == RunEnd(input, old(index))
                                    && t == Some(Classify(input[old(index)..index], vocab))
      ensures !IsAlphanumeric(c) ==> index == old(index) && t == None
    {
      if IsAlphanumeric(c) {
        var str := ReadIdentifierOrNumber();
        match vocab.number(str)
        case Some(dbl) =>
          return Some(Number(dbl));
        case None =>
          match vocab.keyword(str)
          case Some(k) =>
            return Some(k.AsToken());
          case None =>
            return Some(Identifier(str));
      }
      return None;
    }

    /** `_commentToken(c)`: when `c` is `#`, the text up to the next line
        break, the `#` included. */
    method CommentToken(c: char) returns (t: Option<Token>)
      requires Valid() && index < |input| && input[index] == c
      modifies this
      ensures Valid()
      ensures c == '#' ==> index == LineEnd(input, old(index))
                           && t == Some(Comment(input[old(index)..index]))
      ensures c != '#' ==> index == old(index) && t == None
    {
      if c == '#' {
        var text := "";
        while CurrentChar().Some? && !IsNewLine(CurrentChar().value)
          invariant Valid() && old(index) <= index
          invariant LineEnd(input, index) == LineEnd(input, old(index))
          invariant text == input[old(index)..index]
          decreases |input| - index
        {
          text := text + [input[index]];
          Advance();
        }
        return Some(Comment(text));
      }
      return None;
    }

    /** `next`: skips blanks, then produces the next token, or nil at the
        end of the input or in front of an unclassified character. */
    method Next() returns (t: Option<Token>)
      requires Valid()
      modifies this
      ensures Valid()
      ensures (t, index) == Scan(input, old(index), vocab)
    {
      while CurrentChar().Some? && (IsSpace(CurrentChar().value) || IsNewLine(CurrentChar().value))
        invariant Valid() && old(index) <= index
        invariant SkipBlanks(input, index) == SkipBlanks(input, old(index))
        decreases |input| - index
      {
        Advance();
      }
      if CurrentChar().None? {
        return None;
      }
      var c := CurrentChar().value;
      t := CharToken(c);
      if t.Some? {
        return;
      }
      t := IdentifierToken(c);
      if t.Some? {
        return;
      }
      t := CommentToken(c);
    }

    /** `lex()`: collects tokens until `next` returns nil. */
    method Lex() returns (toks: seq<Token>)
      requires Valid()
      modifies this
      ensures Valid()
      ensures (toks, index) == LexFrom(input, old(index), vocab)
    {
      toks := [];
      ghost var before := index;
      var tok := Next();
      assert toks + LexFrom(input, before, vocab).0 == LexFrom(input, before, vocab).0;
      while tok.Some?
        invariant Valid() && before <= |input|
        invariant (tok, index) == Scan(input, before, vocab)
        invariant LexFrom(input, old(index), vocab)
                  == (toks + LexFrom(input, before, vocab).0, LexFrom(input, before, vocab).1)
        decreases |input| - before
      {
        assert LexFrom(input, before, vocab)
               == ([tok.value] + LexFrom(input, index, vocab).0, LexFrom(input, index, vocab).1);
        assert toks + [tok.value] + LexFrom(input, index, vocab).0
               == toks + ([tok.value] + LexFrom(input, index, vocab).0);
        toks := toks + [tok.value];
        before := index;
        tok := Next();
      }
      assert LexFrom(input, before, vocab) == ([], index);
      assert toks + [] == toks;
    }
  }
}
