/** Properties of the lexer functions, including the cases its tests pin. */
module LexerProperties {
  import opened Wrappers
  import opened Tokens
  import opened Characters
  import opened LexerSpec
  import LegacyKeywords

  /** No mark or operator character can start or continue an identifier
      run, start a comment, or be skipped as white space, so trying marks
      and operators first never shadows another token kind. */
  lemma MarksAndOperatorsDoNotShadow(c: char)
    requires c in MarkChars || c in OperatorChars
    ensures !IsAlphanumeric(c) && c != '_' && c != '.' && c != '#' && !IsBlank(c)
  {
  }

  /** Empty or blank input lexes to no tokens, and the index ends at the end. */
  lemma BlankInputLexesToNothing(s: string, voc: Vocabulary)
    requires forall k :: 0 <= k < |s| ==> IsBlank(s[k])
    ensures LexFrom(s, 0, voc) == ([], |s|)
  {
  }

  /** A mark or operator character after the blanks is one token, and the
      index moves past exactly that character. */
  lemma MarkOrOperatorIsOneCharacter(s: string, i: nat, voc: Vocabulary)
    requires i <= |s|
    requires SkipBlanks(s, i) < |s|
    requires s[SkipBlanks(s, i)] in MarkChars || s[SkipBlanks(s, i)] in OperatorChars
    ensures Scan(s, i, voc) == (CharToken(s[SkipBlanks(s, i)]), SkipBlanks(s, i) + 1)
  {
  }

  /** A character that starts no token ends lexing: `lex` returns what it
      has so far and the index stays in front of that character. */
  lemma UnclassifiedStopsLexing(s: string, i: nat, voc: Vocabulary)
    requires i <= |s|
    requires SkipBlanks(s, i) < |s| && Unclassified(s[SkipBlanks(s, i)])
    ensures LexFrom(s, i, voc) == ([], SkipBlanks(s, i))
  {
  }

  /** Each token adds one to the count of the rest. */
  lemma LexStep(s: string, i: nat, voc: Vocabulary)
    requires i <= |s| && Scan(s, i, voc).0.Some?
    ensures |LexFrom(s, i, voc).0| == 1 + |LexFrom(s, Scan(s, i, voc).1, voc).0|
    ensures LexFrom(s, i, voc).0[0] == Scan(s, i, voc).0.value
    ensures LexFrom(s, i, voc).1 == LexFrom(s, Scan(s, i, voc).1, voc).1
  {
  }

  /** `next` returns nil only at the end of the input or in front of a
      character that starts no token. */
  lemma ScanStops(s: string, i: nat, voc: Vocabulary)
    requires i <= |s| && Scan(s, i, voc).0.None?
    ensures Scan(s, i, voc).1 == |s| || Unclassified(s[Scan(s, i, voc).1])
  {
  }

  /** Lexing stops only at the end of the input or in front of a character
      that starts no token. */
  lemma {:induction false} LexStops(s: string, i: nat, voc: Vocabulary)
    requires i <= |s|
    ensures LexFrom(s, i, voc).1 == |s| || Unclassified(s[LexFrom(s, i, voc).1])
    decreases |s| - i
  {
    if Scan(s, i, voc).0.None? {
      ScanStops(s, i, voc);
    } else {
      LexStops(s, Scan(s, i, voc).1, voc);
    }
  }

  /** One step of `lex` when `next` returns a token. */
  lemma LexUnfoldAt(s: string, i: nat, voc: Vocabulary)
    requires i <= |s| && Scan(s, i, voc).0.Some?
    ensures LexFrom(s, i, voc).0 == [Scan(s, i, voc).0.value] + LexFrom(s, Scan(s, i, voc).1, voc).0
    ensures LexFrom(s, i, voc).1 == LexFrom(s, Scan(s, i, voc).1, voc).1
  {
  }

  /** One step of `lex` when `next` returns a given token. */
  lemma LexUnfold(s: string, i: nat, tok: Token, e: nat, voc: Vocabulary)
    requires i <= |s| && Scan(s, i, voc) == (Some(tok), e)
    ensures LexFrom(s, i, voc) == ([tok] + LexFrom(s, e, voc).0, LexFrom(s, e, voc).1)
  {
  }

  /** The last step of `lex`, when `next` returns nil. */
  lemma LexEnd(s: string, i: nat, e: nat, voc: Vocabulary)
    requires i <= |s| && Scan(s, i, voc) == (None, e)
    ensures LexFrom(s, i, voc) == ([], e)
  {
  }

  /** A `#` line without a line break is one comment token holding the whole
      line, `#` included. */
  lemma CommentLineIsOneToken(s: string, voc: Vocabulary)
    requires |s| > 0 && s[0] == '#'
    requires forall k :: 0 <= k < |s| ==> !IsNewLine(s[k])
    ensures Lex(s, voc) == [Comment(s)]
  {
    assert SkipBlanks(s, 0) == 0;
    assert LineEnd(s, 0) == |s|;
    assert s[0..|s|] == s;
    assert Scan(s, 0, voc) == (Some(Comment(s)), |s|);
    assert LexFrom(s, |s|, voc) == ([], |s|);
  }

  /** The comment case from the lexer tests. */
  lemma FibonacciCommentLine(voc: Vocabulary)
    ensures Lex("# Compute the x'th fibonacci number.", voc)
            == [Comment("# Compute the x'th fibonacci number.")]
  {
    CommentLineIsOneToken("# Compute the x'th fibonacci number.", voc);
  }

  /** An input that is one run of identifier characters, starting with an
      alphanumeric one, lexes to exactly one token: the classified run. */
  lemma WholeRunIsOneToken(s: string, voc: Vocabulary)
    requires |s| > 0 && IsAlphanumeric(s[0])
    requires forall k :: 0 <= k < |s| ==> InRun(s[k])
    ensures LexFrom(s, 0, voc) == ([Classify(s, voc)], |s|)
  {
    assert SkipBlanks(s, 0) == 0;
    assert RunEnd(s, 0) == |s|;
    assert s[0..|s|] == s;
    assert Scan(s, 0, voc) == (Some(Classify(s, voc)), |s|);
    LexUnfold(s, 0, Classify(s, voc), |s|, voc);
    LexEnd(s, |s|, |s|, voc);
    assert [Classify(s, voc)] + [] == [Classify(s, voc)];
  }

  /** A single mark or operator character lexes to its one token. */
  lemma OneCharToken(s: string, voc: Vocabulary)
    requires |s| == 1 && (s[0] in MarkChars || s[0] in OperatorChars)
    ensures LexFrom(s, 0, voc) == ([CharToken(s[0]).value], 1)
  {
    assert SkipBlanks(s, 0) == 0;
    assert Scan(s, 0, voc) == (Some(CharToken(s[0]).value), 1);
    LexUnfold(s, 0, CharToken(s[0]).value, 1, voc);
    LexEnd(s, 1, 1, voc);
    assert [CharToken(s[0]).value] + [] == [CharToken(s[0]).value];
  }

  /** `.` continues a run, so a dotted run is one token whichever way it is
      classified: "1.5" is one number when `Double` converts it, "x.y" one
      identifier when it is neither a number nor a keyword. */
  lemma DottedRunsAreOneToken(voc: Vocabulary)
    ensures voc.number("1.5") == Some(1.5) ==> Lex("1.5", voc) == [Number(1.5)]
    ensures voc.number("x.y") == None && voc.keyword("x.y") == None
            ==> Lex("x.y", voc) == [Identifier("x.y")]
  {
    var n, v := "1.5", "x.y";
    assert InRun(n[0]) && InRun(n[1]) && InRun(n[2]);
    assert InRun(v[0]) && InRun(v[1]) && InRun(v[2]);
    WholeRunIsOneToken(n, voc);
    WholeRunIsOneToken(v, voc);
  }

  /** Lexing halts at `!`, dropping everything after it. */
  lemma HaltsAtBang(s: string, voc: Vocabulary)
    requires s == "a ! b"
    requires voc.number("a") == None && voc.keyword("a") == None
    ensures Lex(s, voc) == [Identifier("a")]
  {
    assert SkipBlanks(s, 0) == 0 && RunEnd(s, 0) == 1 && s[0..1] == "a";
    LexUnfold(s, 0, Identifier("a"), 1, voc);
    assert SkipBlanks(s, 1) == 2 && Unclassified(s[2]);
    UnclassifiedStopsLexing(s, 1, voc);
  }

  /** A leading `.` starts no token, though it continues a run. */
  lemma HaltsAtLeadingDot(voc: Vocabulary)
    ensures Lex(".5", voc) == []
  {
    var d := ".5";
    assert SkipBlanks(d, 0) == 0 && Unclassified(d[0]);
    UnclassifiedStopsLexing(d, 0, voc);
  }

  /** A non-ASCII letter starts no token: the classification is that of the
      "C" locale. */
  lemma HaltsAtNonAsciiLetter(voc: Vocabulary)
    ensures Lex("\U{00E9}t\U{00E9}", voc) == []
  {
    var e := "\U{00E9}t\U{00E9}";
    assert SkipBlanks(e, 0) == 0 && Unclassified(e[0]);
    UnclassifiedStopsLexing(e, 0, voc);
  }

  /** The keyword set decides between keyword and identifier: "for" is a
      keyword of the ten-keyword set and an identifier under the older
      five-keyword set. */
  lemma KeywordSetDecides(number: string -> Option<real>)
    requires number("for") == None
    ensures Lex("for", Vocabulary(KeywordFromRaw, number)) == [Token.Keyword(Keyword.For)]
    ensures Lex("for", Vocabulary(LegacyKeywords.LegacyLookup, number)) == [Identifier("for")]
  {
    var s := "for";
    assert InRun(s[0]) && InRun(s[1]) && InRun(s[2]);
    WholeRunIsOneToken(s, Vocabulary(KeywordFromRaw, number));
    WholeRunIsOneToken(s, Vocabulary(LegacyKeywords.LegacyLookup, number));
    LegacyKeywords.LaterKeywordsAreNotLegacy();
  }

  // ------------------------------------------------------------ locality

  /** Skipping blanks reads nothing beyond the first non-blank character. */
  lemma {:induction false} SkipBlanksLocal(s: string, t: string, i: nat)
    requires i <= |s| && i <= |t|
    requires SkipBlanks(s, i) <= |t|
    requires forall k :: i <= k < SkipBlanks(s, i) ==> s[k] == t[k]
    requires SkipBlanks(s, i) < |t| ==> !IsBlank(t[SkipBlanks(s, i)])
    ensures SkipBlanks(t, i) == SkipBlanks(s, i)
    decreases |s| - i
  {
    if i < SkipBlanks(s, i) {
      SkipBlanksLocal(s, t, i + 1);
    }
  }

  /** A run is read up to its first non-run character and no further. */
  lemma {:induction false} RunEndLocal(s: string, t: string, i: nat)
    requires i <= |s| && i <= |t|
    requires RunEnd(s, i) <= |t|
    requires forall k :: i <= k < RunEnd(s, i) ==> s[k] == t[k]
    requires RunEnd(s, i) < |t| ==> !InRun(t[RunEnd(s, i)])
    ensures RunEnd(t, i) == RunEnd(s, i)
    decreases |s| - i
  {
    if i < RunEnd(s, i) {
      RunEndLocal(s, t, i + 1);
    }
  }

  /** A comment is read up to its line break and no further. */
  lemma {:induction false} LineEndLocal(s: string, t: string, i: nat)
    requires i <= |s| && i <= |t|
    requires LineEnd(s, i) <= |t|
    requires forall k :: i <= k < LineEnd(s, i) ==> s[k] == t[k]
    requires LineEnd(s, i) < |t| ==> IsNewLine(t[LineEnd(s, i)])
    ensures LineEnd(t, i) == LineEnd(s, i)
    decreases |s| - i
  {
    if i < LineEnd(s, i) {
      LineEndLocal(s, t, i + 1);
    }
  }

  /** Whether `c`, placed right after the token that starts at `s[j]`,
      would be read as part of that token: a run goes on over run
      characters, a comment up to a line break, a mark or operator never. */
  predicate Extends(s: string, j: nat, c: char)
    requires j < |s|
  {
    CharToken(s[j]).None? && (if IsAlphanumeric(s[j]) then InRun(c) else !IsNewLine(c))
  }

  /** One call of `next` depends only on the characters it consumes and on
      the character after them, which may differ when it does not extend
      the token. */
  lemma {:induction false} ScanLocal(s: string, t: string, i: nat, voc: Vocabulary)
    requires i <= |s| && i <= |t|
    requires Scan(s, i, voc).1 <= |t|
    requires forall k :: i <= k < Scan(s, i, voc).1 ==> s[k] == t[k]
    requires Scan(s, i, voc).0.None? ==> Scan(s, i, voc).1 < |s| && Scan(s, i, voc).1 < |t|
    requires Scan(s, i, voc).1 < |t| ==>
               (Scan(s, i, voc).1 < |s| && t[Scan(s, i, voc).1] == s[Scan(s, i, voc).1])
               || (Scan(s, i, voc).0.Some? && !Extends(s, SkipBlanks(s, i), t[Scan(s, i, voc).1]))
    ensures Scan(t, i, voc) == Scan(s, i, voc)
  {
    var (tok, e) := Scan(s, i, voc);
    var j := SkipBlanks(s, i);
    SkipBlanksLocal(s, t, i);
    if tok.Some? && CharToken(s[j]).None? {
      if IsAlphanumeric(s[j]) {
        RunEndLocal(s, t, j);
        assert t[j..e] == s[j..e];
      } else {
        LineEndLocal(s, t, j);
        assert t[j..e] == s[j..e];
      }
    }
  }

  /** Everything after the character in front of which lexing stops is
      never read: any input that agrees up to and including that character
      lexes identically. */
  lemma {:induction false} RestIsNeverRead(s: string, t: string, i: nat, voc: Vocabulary)
    requires i <= |s| && i <= |t|
    requires LexFrom(s, i, voc).1 < |s| && LexFrom(s, i, voc).1 < |t|
    requires forall k :: i <= k <= LexFrom(s, i, voc).1 ==> s[k] == t[k]
    ensures LexFrom(t, i, voc) == LexFrom(s, i, voc)
    decreases |s| - i
  {
    var (tok, e) := Scan(s, i, voc);
    ScanLocal(s, t, i, voc);
    if tok.Some? {
      RestIsNeverRead(s, t, e, voc);
    }
  }

  // ----------------------------------------------------------- shifting

  lemma {:induction false} SkipBlanksShift(a: string, b: string, j: nat)
    requires j <= |b|
    ensures SkipBlanks(a + b, |a| + j) == |a| + SkipBlanks(b, j)
    decreases |b| - j
  {
    if j < |b| && IsBlank(b[j]) {
      SkipBlanksShift(a, b, j + 1);
    }
  }

  lemma {:induction false} RunEndShift(a: string, b: string, j: nat)
    requires j <= |b|
    ensures RunEnd(a + b, |a| + j) == |a| + RunEnd(b, j)
    decreases |b| - j
  {
    if j < |b| && InRun(b[j]) {
      RunEndShift(a, b, j + 1);
    }
  }

  lemma {:induction false} LineEndShift(a: string, b: string, j: nat)
    requires j <= |b|
    ensures LineEnd(a + b, |a| + j) == |a| + LineEnd(b, j)
    decreases |b| - j
  {
    if j < |b| && !IsNewLine(b[j]) {
      LineEndShift(a, b, j + 1);
    }
  }

  /** A run after a prefix is the same run of the suffix. */
  lemma RunShift(a: string, b: string, k: nat)
    requires k <= |b|
    ensures RunEnd(a + b, |a| + k) == |a| + RunEnd(b, k)
    ensures (a + b)[|a| + k..|a| + RunEnd(b, k)] == b[k..RunEnd(b, k)]
  {
    RunEndShift(a, b, k);
  }

  /** A comment after a prefix is the same comment of the suffix. */
  lemma LineShift(a: string, b: string, k: nat)
    requires k <= |b|
    ensures LineEnd(a + b, |a| + k) == |a| + LineEnd(b, k)
    ensures (a + b)[|a| + k..|a| + LineEnd(b, k)] == b[k..LineEnd(b, k)]
  {
    LineEndShift(a, b, k);
  }

  /** One call of `next` after a prefix behaves as on the suffix alone. */
  lemma {:induction false} ScanShift(a: string, b: string, j: nat, voc: Vocabulary)
    requires j <= |b|
    ensures Scan(a + b, |a| + j, voc) == (Scan(b, j, voc).0, |a| + Scan(b, j, voc).1)
  {
    SkipBlanksShift(a, b, j);
    var k := SkipBlanks(b, j);
    if k == |b| {
      return;
    }
    assert (a + b)[|a| + k] == b[k];
    var c := b[k];
    if CharToken(c).Some? {
      return;
    }
    if IsAlphanumeric(c) {
      RunShift(a, b, k);
    } else if c == '#' {
      LineShift(a, b, k);
    }
  }

  /** Lexing the suffix `b` from `j` on after the prefix `a` yields the
      suffix's tokens, with the stopping index moved by the prefix's length. */
  ghost predicate Shifted(a: string, b: string, j: nat, voc: Vocabulary)
    requires j <= |b|
  {
    && LexFrom(a + b, |a| + j, voc).0 == LexFrom(b, j, voc).0
    && LexFrom(a + b, |a| + j, voc).1 == |a| + LexFrom(b, j, voc).1
  }

  /** The last step of `lex` after a prefix. */
  lemma LexShiftEnd(a: string, b: string, j: nat, voc: Vocabulary)
    requires j <= |b| && Scan(b, j, voc).0.None?
    ensures Shifted(a, b, j, voc)
  {
    var e := Scan(b, j, voc).1;
    ScanShift(a, b, j, voc);
    LexEnd(b, j, e, voc);
    LexEnd(a + b, |a| + j, |a| + e, voc);
  }

  /** One step of `lex` after a prefix. */
  lemma LexShiftStep(a: string, b: string, j: nat, voc: Vocabulary)
    requires j <= |b| && Scan(b, j, voc).0.Some?
    requires Shifted(a, b, Scan(b, j, voc).1, voc)
    ensures Shifted(a, b, j, voc)
  {
    LexUnfoldAt(b, j, voc);
    ShiftUnfold(a, b, j, voc);
    ConsAlike(LexFrom(a + b, |a| + j, voc), LexFrom(b, j, voc),
              LexFrom(a + b, |a| + Scan(b, j, voc).1, voc), LexFrom(b, Scan(b, j, voc).1, voc),
              Scan(b, j, voc).0.value, |a|);
  }

  /** The first token `lex` reads after a prefix is the suffix's. */
  lemma ShiftUnfold(a: string, b: string, j: nat, voc: Vocabulary)
    requires j <= |b| && Scan(b, j, voc).0.Some?
    ensures LexFrom(a + b, |a| + j, voc).0
            == [Scan(b, j, voc).0.value] + LexFrom(a + b, |a| + Scan(b, j, voc).1, voc).0
    ensures LexFrom(a + b, |a| + j, voc).1 == LexFrom(a + b, |a| + Scan(b, j, voc).1, voc).1
  {
    var (tok, e) := Scan(b, j, voc);
    ScanShift(a, b, j, voc);
    LexUnfold(a + b, |a| + j, tok.value, |a| + e, voc);
  }

  /** Two lexings that start with the same token and go on alike are
      alike. */
  lemma ConsAlike(x: (seq<Token>, nat), y: (seq<Token>, nat), xs: (seq<Token>, nat), ys: (seq<Token>, nat),
                  t: Token, off: nat)
    requires x.0 == [t] + xs.0 && x.1 == xs.1
    requires y.0 == [t] + ys.0 && y.1 == ys.1
    requires xs.0 == ys.0 && xs.1 == off + ys.1
    ensures x.0 == y.0 && x.1 == off + y.1
  {
  }

  /** Lexing a suffix after a prefix yields the suffix's tokens, with the
      stopping index moved by the prefix's length. */
  lemma {:induction false} LexShift(a: string, b: string, j: nat, voc: Vocabulary)
    requires j <= |b|
    ensures Shifted(a, b, j, voc)
    decreases |b| - j
  {
    if Scan(b, j, voc).0.Some? {
      LexShift(a, b, Scan(b, j, voc).1, voc);
    }
    LexShiftOne(a, b, j, voc);
  }

  /** One step of `LexShift`, given the shift from the next token on. */
  lemma LexShiftOne(a: string, b: string, j: nat, voc: Vocabulary)
    requires j <= |b|
    requires Scan(b, j, voc).0.Some? ==> Shifted(a, b, Scan(b, j, voc).1, voc)
    ensures Shifted(a, b, j, voc)
  {
    if Scan(b, j, voc).0.Some? {
      LexShiftStep(a, b, j, voc);
    } else {
      LexShiftEnd(a, b, j, voc);
    }
  }

  /** `next` depends on its start index only through where the blanks end. */
  lemma {:induction false} ScanAfterBlanks(s: string, i: nat, m: nat, voc: Vocabulary)
    requires i <= |s| && m <= |s| && SkipBlanks(s, i) == SkipBlanks(s, m)
    ensures Scan(s, i, voc) == Scan(s, m, voc)
  {
  }

  /** Skipping over blanks first does not change what is lexed. */
  lemma {:induction false} BlanksBeforeDoNotMatter(s: string, i: nat, m: nat, voc: Vocabulary)
    requires i <= m <= |s|
    requires forall k :: i <= k < m ==> IsBlank(s[k])
    ensures LexFrom(s, i, voc) == LexFrom(s, m, voc)
  {
    BlankPrefixSkipped(s, i, m);
    ScanAfterBlanks(s, i, m, voc);
  }

  lemma {:induction false} BlankPrefixSkipped(s: string, i: nat, m: nat)
    requires i <= m <= |s|
    requires forall k :: i <= k < m ==> IsBlank(s[k])
    ensures SkipBlanks(s, i) == SkipBlanks(s, m)
    decreases m - i
  {
    if i < m {
      BlankPrefixSkipped(s, i + 1, m);
    }
  }

  // -------------------------------------------------------- line by line

  /** The blank tail of a fully lexed text is skipped into the next text. */
  lemma ConcatEnd(a: string, b: string, i: nat, voc: Vocabulary)
    requires i <= |a| && Scan(a, i, voc).0.None? && LexFrom(a, i, voc).1 == |a|
    ensures LexFrom(a + b, i, voc)
            == (LexFrom(a, i, voc).0 + LexFrom(b, 0, voc).0, |a| + LexFrom(b, 0, voc).1)
  {
    LexEnd(a, i, Scan(a, i, voc).1, voc);
    BlankTail(a, b, i, voc);
    LexShift(a, b, 0, voc);
    assert LexFrom(a, i, voc).0 + LexFrom(b, 0, voc).0 == LexFrom(b, 0, voc).0;
  }

  /** Lexing reaches the end of `a` without a token only over blanks,
      which `a + b` skips alike. */
  lemma BlankTail(a: string, b: string, i: nat, voc: Vocabulary)
    requires i <= |a| && Scan(a, i, voc).0.None? && Scan(a, i, voc).1 == |a|
    ensures LexFrom(a + b, i, voc) == LexFrom(a + b, |a|, voc)
  {
    assert SkipBlanks(a, i) == |a|;
    assert forall k :: i <= k < |a| ==> (a + b)[k] == a[k];
    BlanksBeforeDoNotMatter(a + b, i, |a|, voc);
  }

  /** When text `b` may follow text `a` without changing how `a` is read:
      `b` is empty or starts a new line, or `a` holds no comment and its
      last character and the first of `b` do not both belong to a run. */
  predicate Joinable(a: string, b: string)
  {
    || |b| == 0
    || IsNewLine(b[0])
    || ('#' !in a && (|a| == 0 || !InRun(a[|a| - 1]) || !InRun(b[0])))
  }

  /** A token of `a` is read alike when a joinable `b` follows. */
  lemma ScanInConcat(a: string, b: string, i: nat, voc: Vocabulary)
    requires i <= |a| && Scan(a, i, voc).0.Some?
    requires Joinable(a, b)
    ensures Scan(a + b, i, voc) == Scan(a, i, voc)
  {
    var e := Scan(a, i, voc).1;
    var j := SkipBlanks(a, i);
    assert forall k :: i <= k < e ==> a[k] == (a + b)[k];
    assert e < |a + b| && e < |a| ==> (a + b)[e] == a[e];
    if e == |a| && |b| > 0 {
      assert (a + b)[e] == b[0];
      if !IsNewLine(b[0]) {
        assert a[j] in a;
        if IsAlphanumeric(a[j]) && CharToken(a[j]).None? {
          assert InRun(a[e - 1]);
        }
      }
    }
    ScanLocal(a, a + b, i, voc);
  }

  /** A token of `a` followed by the rest of the longer text. */
  lemma ConcatStep(a: string, b: string, i: nat, tok: Token, e: nat,
                   rest: seq<Token>, tail: seq<Token>, stop: nat, voc: Vocabulary)
    requires i <= |a| && Scan(a, i, voc) == (Some(tok), e)
    requires Joinable(a, b)
    requires LexFrom(a + b, e, voc) == (rest + tail, stop)
    ensures LexFrom(a + b, i, voc) == ([tok] + rest + tail, stop)
  {
    ScanInConcat(a, b, i, voc);
    LexUnfold(a + b, i, tok, e, voc);
    assert [tok] + (rest + tail) == [tok] + rest + tail;
  }

  /** The inductive step of `LexConcatFrom`, from the token at `i` on. */
  lemma ConcatInduction(a: string, b: string, i: nat, voc: Vocabulary)
    requires i <= |a| && Scan(a, i, voc).0.Some? && Joinable(a, b)
    requires var e := Scan(a, i, voc).1;
             LexFrom(a + b, e, voc)
             == (LexFrom(a, e, voc).0 + LexFrom(b, 0, voc).0, |a| + LexFrom(b, 0, voc).1)
    ensures LexFrom(a + b, i, voc)
            == (LexFrom(a, i, voc).0 + LexFrom(b, 0, voc).0, |a| + LexFrom(b, 0, voc).1)
  {
    var (t, e) := Scan(a, i, voc);
    LexUnfold(a, i, t.value, e, voc);
    ConcatStep(a, b, i, t.value, e, LexFrom(a, e, voc).0, LexFrom(b, 0, voc).0, |a| + LexFrom(b, 0, voc).1, voc);
  }

  /** A fully lexed text followed by a joinable text lexes to the tokens of
      the first followed by the tokens of the second. */
  lemma {:induction false} LexConcatFrom(a: string, b: string, i: nat, voc: Vocabulary)
    requires i <= |a| && LexFrom(a, i, voc).1 == |a|
    requires Joinable(a, b)
    ensures LexFrom(a + b, i, voc)
            == (LexFrom(a, i, voc).0 + LexFrom(b, 0, voc).0, |a| + LexFrom(b, 0, voc).1)
    decreases |a| - i
  {
    if Scan(a, i, voc).0.None? {
      ConcatEnd(a, b, i, voc);
    } else {
      var e := Scan(a, i, voc).1;
      LexUnfold(a, i, Scan(a, i, voc).0.value, e, voc);
      LexConcatFrom(a, b, e, voc);
      ConcatInduction(a, b, i, voc);
    }
  }

  /** `lex` distributes over joinable texts; in particular it is
      line-compositional. */
  lemma {:induction false} LexConcat(a: string, b: string, voc: Vocabulary)
    requires LexFrom(a, 0, voc).1 == |a|
    requires Joinable(a, b)
    ensures LexFrom(a + b, 0, voc) == (Lex(a, voc) + Lex(b, voc), |a| + LexFrom(b, 0, voc).1)
  {
    LexConcatFrom(a, b, 0, voc);
  }

  /** `LexConcat` for texts whose tokens are known. */
  lemma LexJoin(a: string, b: string, ta: seq<Token>, tb: seq<Token>, voc: Vocabulary)
    requires Lex(a, voc) == ta && LexFrom(a, 0, voc).1 == |a|
    requires Lex(b, voc) == tb && LexFrom(b, 0, voc).1 == |b|
    requires Joinable(a, b)
    ensures Lex(a + b, voc) == ta + tb
    ensures LexFrom(a + b, 0, voc).1 == |a + b|
  {
    LexConcat(a, b, voc);
  }

  // ------------------------------------------------------ text by pieces

  /** Every character continues an identifier run. */
  predicate RunChars(p: string)
  {
    |p| == 0 || (InRun(p[0]) && RunChars(p[1..]))
  }

  /** Every character is white space or a line break. */
  predicate BlankChars(p: string)
  {
    |p| == 0 || (IsBlank(p[0]) && BlankChars(p[1..]))
  }

  lemma {:induction false} RunCharsAll(p: string)
    requires RunChars(p)
    ensures forall k :: 0 <= k < |p| ==> InRun(p[k])
  {
    if |p| > 0 {
      RunCharsAll(p[1..]);
      assert forall k :: 1 <= k < |p| ==> p[k] == p[1..][k - 1];
    }
  }

  lemma {:induction false} BlankCharsAll(p: string)
    requires BlankChars(p)
    ensures forall k :: 0 <= k < |p| ==> IsBlank(p[k])
  {
    if |p| > 0 {
      BlankCharsAll(p[1..]);
      assert forall k :: 1 <= k < |p| ==> p[k] == p[1..][k - 1];
    }
  }

  /** A run of identifier characters that starts with an alphanumeric one. */
  predicate IsRunText(p: string)
  {
    |p| > 0 && IsAlphanumeric(p[0]) && RunChars(p)
  }

  /** A single mark or operator character. */
  predicate IsCharText(p: string)
  {
    |p| == 1 && (p[0] in MarkChars || p[0] in OperatorChars)
  }

  /** A non-empty stretch of white space and line breaks. */
  predicate IsBlankText(p: string)
  {
    |p| > 0 && BlankChars(p)
  }

  /** The three kinds of piece a text is cut into. */
  datatype Kind = Word | Sign | Gap

  predicate Fits(k: Kind, p: string)
  {
    match k
    case Word => IsRunText(p)
    case Sign => IsCharText(p)
    case Gap => IsBlankText(p)
  }

  /** The tokens a piece lexes to on its own. */
  function PieceTokens(k: Kind, p: string, voc: Vocabulary): seq<Token>
  {
    match k
    case Word => [Classify(p, voc)]
    case Sign => if |p| > 0 && CharToken(p[0]).Some? then [CharToken(p[0]).value] else []
    case Gap => []
  }

  /** A text cut into pieces, first piece first. */
  datatype Pieces = End | Piece(kind: Kind, text: string, rest: Pieces)

  /** Every piece is of its kind, and no two words are adjacent. */
  predicate Spaced(ps: Pieces)
  {
    match ps
    case End => true
    case Piece(k, p, rest) =>
      && Fits(k, p)
      && (rest.End? || k != Word || rest.kind != Word)
      && Spaced(rest)
  }

  function Join(ps: Pieces): string
  {
    match ps
    case End => ""
    case Piece(_, p, rest) => p + Join(rest)
  }

  function JoinTokens(ps: Pieces, voc: Vocabulary): seq<Token>
  {
    match ps
    case End => []
    case Piece(k, p, rest) => PieceTokens(k, p, voc) + JoinTokens(rest, voc)
  }

  /** The number of pieces that are not gaps. */
  function TokenCount(ps: Pieces): nat
  {
    match ps
    case End => 0
    case Piece(k, _, rest) => (if k == Gap then 0 else 1) + TokenCount(rest)
  }

  /** Each piece that is not a gap gives one token. */
  lemma {:induction false} JoinTokensCount(ps: Pieces, voc: Vocabulary)
    requires Spaced(ps)
    ensures |JoinTokens(ps, voc)| == TokenCount(ps)
  {
    if ps.Piece? {
      JoinTokensCount(ps.rest, voc);
      if ps.kind == Sign {
        assert CharToken(ps.text[0]).Some?;
      }
    }
  }

  /** A piece lexes to its own tokens and is read to its end. */
  lemma PieceLexes(k: Kind, p: string, voc: Vocabulary)
    requires Fits(k, p)
    ensures Lex(p, voc) == PieceTokens(k, p, voc)
    ensures LexFrom(p, 0, voc).1 == |p|
  {
    match k
    case Word =>
      RunCharsAll(p);
      WholeRunIsOneToken(p, voc);
    case Sign =>
      OneCharToken(p, voc);
    case Gap =>
      BlankCharsAll(p);
      BlankInputLexesToNothing(p, voc);
  }

  /** No piece holds a `#`. */
  lemma PieceHasNoHash(k: Kind, p: string)
    requires Fits(k, p)
    ensures '#' !in p
  {
    if k == Word {
      RunCharsAll(p);
    } else if k == Gap {
      BlankCharsAll(p);
    }
    assert forall i :: 0 <= i < |p| ==> p[i] != '#';
  }

  /** Only a word starts or ends with a run character. */
  lemma PieceEnds(k: Kind, p: string)
    requires Fits(k, p) && k != Word
    ensures !InRun(p[0]) && !InRun(p[|p| - 1])
  {
    if k == Gap {
      BlankCharsAll(p);
    }
  }

  lemma JoinStart(ps: Pieces)
    requires ps.Piece? && |ps.text| > 0
    ensures |Join(ps)| > 0 && Join(ps)[0] == ps.text[0]
  {
  }

  /** The first piece of spaced pieces may precede the rest. */
  lemma PiecesJoinable(ps: Pieces)
    requires ps.Piece? && Spaced(ps)
    ensures Joinable(ps.text, Join(ps.rest))
  {
    var p, rest := ps.text, ps.rest;
    PieceHasNoHash(ps.kind, p);
    if rest.End? {
      assert Join(rest) == "";
    } else if ps.kind == Word {
      JoinStart(rest);
      PieceEnds(rest.kind, rest.text);
    } else {
      PieceEnds(ps.kind, p);
    }
  }

  /** Text made of spaced pieces lexes to the pieces' tokens in order, and
      is read to its end. */
  lemma {:induction false} LexPieces(ps: Pieces, voc: Vocabulary)
    requires Spaced(ps)
    ensures Lex(Join(ps), voc) == JoinTokens(ps, voc)
    ensures LexFrom(Join(ps), 0, voc).1 == |Join(ps)|
  {
    match ps
    case End =>
      assert LexFrom("", 0, voc) == ([], 0);
    case Piece(k, p, rest) =>
      LexPieces(rest, voc);
      PieceLexes(k, p, voc);
      PiecesJoinable(ps);
      LexJoin(p, Join(rest), PieceTokens(k, p, voc), JoinTokens(rest, voc), voc);
  }

  /** The last piece of `ps` is `p`, of kind `k`. */
  predicate EndsWith(ps: Pieces, k: Kind, p: string)
  {
    match ps
    case End => false
    case Piece(k', p', rest) => if rest.End? then k' == k && p' == p else EndsWith(rest, k, p)
  }

  /** Pieces that end with a `)` lex to tokens that end with one. */
  lemma {:induction false} LastTokenCloses(ps: Pieces, voc: Vocabulary)
    requires Spaced(ps) && EndsWith(ps, Sign, ")")
    ensures |JoinTokens(ps, voc)| > 0
    ensures JoinTokens(ps, voc)[|JoinTokens(ps, voc)| - 1] == Mark(CloseParen)
  {
    if ps.rest.End? {
      assert JoinTokens(ps, voc) == PieceTokens(Sign, ")", voc) + [];
    } else {
      LastTokenCloses(ps.rest, voc);
    }
  }

  /** `a`'s pieces followed by `b`'s. */
  function Append(a: Pieces, b: Pieces): Pieces
  {
    match a
    case End => b
    case Piece(k, p, rest) => Piece(k, p, Append(rest, b))
  }

  /** The last piece is a word. */
  predicate EndsInWord(ps: Pieces)
  {
    match ps
    case End => false
    case Piece(k, _, rest) => if rest.End? then k == Word else EndsInWord(rest)
  }

  /** Appending keeps the pieces spaced when no word meets a word. */
  lemma {:induction false} AppendSpaced(a: Pieces, b: Pieces)
    requires Spaced(a) && Spaced(b) && (!EndsInWord(a) || b.End? || b.kind != Word)
    ensures Spaced(Append(a, b))
  {
    if a.Piece? {
      AppendSpaced(a.rest, b);
      if a.rest.End? {
        assert Append(a.rest, b) == b;
      } else {
        assert Append(a.rest, b).kind == a.rest.kind;
      }
    }
  }

  /** Appending adds up the counts. */
  lemma {:induction false} AppendCount(a: Pieces, b: Pieces)
    ensures TokenCount(Append(a, b)) == TokenCount(a) + TokenCount(b)
  {
    if a.Piece? {
      AppendCount(a.rest, b);
    }
  }

  /** Appending concatenates the texts. */
  lemma {:induction false} AppendJoin(a: Pieces, b: Pieces)
    ensures Join(Append(a, b)) == Join(a) + Join(b)
  {
    match a
    case End =>
      assert Join(a) + Join(b) == Join(b);
    case Piece(k, p, rest) =>
      AppendJoin(rest, b);
      assert p + (Join(rest) + Join(b)) == p + Join(rest) + Join(b);
  }

  /** Appending keeps the last piece of a non-empty tail. */
  lemma {:induction false} AppendLast(a: Pieces, b: Pieces)
    requires EndsWith(b, Sign, ")")
    ensures EndsWith(Append(a, b), Sign, ")")
  {
    if a.Piece? {
      AppendLast(a.rest, b);
      assert b.Piece?;
    }
  }

  // The program of the lexer test, cut into parts and the parts into pieces.

  function DefLine(): Pieces
  {
    Piece(Word, "def", Piece(Gap, " ", Piece(Word, "fib", Piece(Sign, "(", Piece(Word, "x",
      Piece(Sign, ")", End))))))
  }

  lemma DefLineSpaced()
    ensures Spaced(DefLine()) && TokenCount(DefLine()) == 5 && EndsInWord(DefLine()) == false
  {
  }

  lemma DefLineText()
    ensures Join(DefLine()) == "def fib(x)"
  {
  }

  function IfHead(): Pieces
  {
    Piece(Gap, "\n  ", Piece(Word, "if", Piece(Gap, " ", Piece(Word, "x", End))))
  }

  lemma IfHeadSpaced()
    ensures Spaced(IfHead()) && TokenCount(IfHead()) == 2 && EndsInWord(IfHead()) == true
  {
  }

  lemma IfHeadText()
    ensures Join(IfHead()) == "\n  if x"
  {
  }

  function IfTail(): Pieces
  {
    Piece(Gap, " ", Piece(Sign, "<", Piece(Gap, " ", Piece(Word, "3", Piece(Gap, " ",
      Piece(Word, "then", End))))))
  }

  lemma IfTailSpaced()
    ensures Spaced(IfTail()) && TokenCount(IfTail()) == 3 && EndsInWord(IfTail()) == true
  {
  }

  lemma IfTailText()
    ensures Join(IfTail()) == " < 3 then"
  {
  }

  function ThenLine(): Pieces
  {
    Piece(Gap, "\n    ", Piece(Word, "1", End))
  }

  lemma ThenLineSpaced()
    ensures Spaced(ThenLine()) && TokenCount(ThenLine()) == 1 && EndsInWord(ThenLine()) == true
  {
  }

  lemma ThenLineText()
    ensures Join(ThenLine()) == "\n    1"
  {
  }

  function ElseLine(): Pieces
  {
    Piece(Gap, "\n  ", Piece(Word, "else", End))
  }

  lemma ElseLineSpaced()
    ensures Spaced(ElseLine()) && TokenCount(ElseLine()) == 1 && EndsInWord(ElseLine()) == true
  {
  }

  lemma ElseLineText()
    ensures Join(ElseLine()) == "\n  else"
  {
  }

  function RecursionHead(): Pieces
  {
    Piece(Gap, "\n    ", Piece(Word, "fib", Piece(Sign, "(", Piece(Word, "x", End))))
  }

  lemma RecursionHeadSpaced()
    ensures Spaced(RecursionHead()) && TokenCount(RecursionHead()) == 3 && EndsInWord(RecursionHead()) == true
  {
  }

  lemma RecursionHeadText()
    ensures Join(RecursionHead()) == "\n    fib(x"
  {
  }

  function RecursionMiddle(): Pieces
  {
    Piece(Sign, "-", Piece(Word, "1", Piece(Sign, ")", Piece(Sign, "+", Piece(Word, "fib",
      Piece(Sign, "(", End))))))
  }

  lemma RecursionMiddleSpaced()
    ensures Spaced(RecursionMiddle()) && TokenCount(RecursionMiddle()) == 6 && EndsInWord(RecursionMiddle()) == false
  {
  }

  lemma RecursionMiddleText()
    ensures Join(RecursionMiddle()) == "-1)+fib("
  {
  }

  function RecursionTail(): Pieces
  {
    Piece(Word, "x", Piece(Sign, "-", Piece(Word, "2", Piece(Sign, ")", End))))
  }

  lemma RecursionTailSpaced()
    ensures Spaced(RecursionTail()) && TokenCount(RecursionTail()) == 4 && EndsInWord(RecursionTail()) == false
  {
  }

  lemma RecursionTailText()
    ensures Join(RecursionTail()) == "x-2)"
  {
  }

  function CallLine(): Pieces
  {
    Piece(Gap, "\n\n", Piece(Word, "fib", Piece(Sign, "(", Piece(Word, "40", Piece(Sign, ")", End)))))
  }

  lemma CallLineSpaced()
    ensures Spaced(CallLine()) && TokenCount(CallLine()) == 4 && EndsInWord(CallLine()) == false
    ensures EndsWith(CallLine(), Sign, ")")
  {
  }

  lemma CallLineText()
    ensures Join(CallLine()) == "\n\nfib(40)"
  {
  }

  /** The program of the lexer test, cut into pieces. */
  function FibonacciPieces(): Pieces
  {
    Append(DefLine(), Append(IfHead(), Append(IfTail(), Append(ThenLine(), Append(ElseLine(), Append(RecursionHead(), Append(RecursionMiddle(), Append(RecursionTail(), CallLine()))))))))
  }

  lemma Associative(a: string, b: string, c: string)
    ensures a + (b + c) == (a + b) + c
  {
  }

  lemma ProgramPrefix1()
    ensures "def fib(x)" + "\n  if x" == "def fib(x)\n  if x"
  {
  }

  lemma ProgramPrefix2()
    ensures "def fib(x)\n  if x" + " < 3 then" == "def fib(x)\n  if x < 3 then"
  {
  }

  lemma ProgramPrefix3()
    ensures "def fib(x)\n  if x < 3 then" + "\n    1" == "def fib(x)\n  if x < 3 then\n    1"
  {
  }

  lemma ProgramPrefix4()
    ensures "def fib(x)\n  if x < 3 then\n    1" + "\n  else" == "def fib(x)\n  if x < 3 then\n    1\n  else"
  {
  }

  lemma ProgramPrefix5()
    ensures "def fib(x)\n  if x < 3 then\n    1\n  else" + "\n    fib(x" == "def fib(x)\n  if x < 3 then\n    1\n  else\n    fib(x"
  {
  }

  lemma ProgramPrefix6()
    ensures "def fib(x)\n  if x < 3 then\n    1\n  else\n    fib(x" + "-1)+fib(" == "def fib(x)\n  if x < 3 then\n    1\n  else\n    fib(x-1)+fib("
  {
  }

  lemma ProgramPrefix7()
    ensures "def fib(x)\n  if x < 3 then\n    1\n  else\n    fib(x-1)+fib(" + "x-2)" == "def fib(x)\n  if x < 3 then\n    1\n  else\n    fib(x-1)+fib(x-2)"
  {
  }

  lemma ProgramPrefix8()
    ensures "def fib(x)\n  if x < 3 then\n    1\n  else\n    fib(x-1)+fib(x-2)" + "\n\nfib(40)" == "def fib(x)\n  if x < 3 then\n    1\n  else\n    fib(x-1)+fib(x-2)\n\nfib(40)"
  {
  }

  lemma ProgramText8()
    ensures "def fib(x)\n  if x < 3 then\n    1\n  else\n    fib(x-1)+fib(x-2)" + ("\n\nfib(40)")
            == "def fib(x)\n  if x < 3 then\n    1\n  else\n    fib(x-1)+fib(x-2)\n\nfib(40)"
  {
    ProgramPrefix8();
  }

  lemma ProgramText7()
    ensures "def fib(x)\n  if x < 3 then\n    1\n  else\n    fib(x-1)+fib(" + ("x-2)" + ("\n\nfib(40)"))
            == "def fib(x)\n  if x < 3 then\n    1\n  else\n    fib(x-1)+fib(x-2)\n\nfib(40)"
  {
    ProgramText8();
    Associative("def fib(x)\n  if x < 3 then\n    1\n  else\n    fib(x-1)+fib(", "x-2)",
                "\n\nfib(40)");
    ProgramPrefix7();
  }

  lemma ProgramText6()
    ensures "def fib(x)\n  if x < 3 then\n    1\n  else\n    fib(x" + ("-1)+fib(" + ("x-2)" + ("\n\nfib(40)")))
            == "def fib(x)\n  if x < 3 then\n    1\n  else\n    fib(x-1)+fib(x-2)\n\nfib(40)"
  {
    ProgramText7();
    Associative("def fib(x)\n  if x < 3 then\n    1\n  else\n    fib(x", "-1)+fib(",
                "x-2)" + ("\n\nfib(40)"));
    ProgramPrefix6();
  }

  lemma ProgramText5()
    ensures "def fib(x)\n  if x < 3 then\n    1\n  else" + ("\n    fib(x" + ("-1)+fib(" + ("x-2)" + ("\n\nfib(40)"))))
            == "def fib(x)\n  if x < 3 then\n    1\n  else\n    fib(x-1)+fib(x-2)\n\nfib(40)"
  {
    ProgramText6();
    Associative("def fib(x)\n  if x < 3 then\n    1\n  else", "\n    fib(x",
                "-1)+fib(" + ("x-2)" + ("\n\nfib(40)")));
    ProgramPrefix5();
  }

  lemma ProgramText4()
    ensures "def fib(x)\n  if x < 3 then\n    1" + ("\n  else" + ("\n    fib(x" + ("-1)+fib(" + ("x-2)" + ("\n\nfib(40)")))))
            == "def fib(x)\n  if x < 3 then\n    1\n  else\n    fib(x-1)+fib(x-2)\n\nfib(40)"
  {
    ProgramText5();
    Associative("def fib(x)\n  if x < 3 then\n    1", "\n  else",
                "\n    fib(x" + ("-1)+fib(" + ("x-2)" + ("\n\nfib(40)"))));
    ProgramPrefix4();
  }

  lemma ProgramText3()
    ensures "def fib(x)\n  if x < 3 then" + ("\n    1" + ("\n  else" + ("\n    fib(x" + ("-1)+fib(" + ("x-2)" + ("\n\nfib(40)"))))))
            == "def fib(x)\n  if x < 3 then\n    1\n  else\n    fib(x-1)+fib(x-2)\n\nfib(40)"
  {
    ProgramText4();
    Associative("def fib(x)\n  if x < 3 then", "\n    1",
                "\n  else" + ("\n    fib(x" + ("-1)+fib(" + ("x-2)" + ("\n\nfib(40)")))));
    ProgramPrefix3();
  }

  lemma ProgramText2()
    ensures "def fib(x)\n  if x" + (" < 3 then" + ("\n    1" + ("\n  else" + ("\n    fib(x" + ("-1)+fib(" + ("x-2)" + ("\n\nfib(40)")))))))
            == "def fib(x)\n  if x < 3 then\n    1\n  else\n    fib(x-1)+fib(x-2)\n\nfib(40)"
  {
    ProgramText3();
    Associative("def fib(x)\n  if x", " < 3 then",
                "\n    1" + ("\n  else" + ("\n    fib(x" + ("-1)+fib(" + ("x-2)" + ("\n\nfib(40)"))))));
    ProgramPrefix2();
  }

  lemma ProgramText1()
    ensures "def fib(x)" + ("\n  if x" + (" < 3 then" + ("\n    1" + ("\n  else" + ("\n    fib(x" + ("-1)+fib(" + ("x-2)" + ("\n\nfib(40)"))))))))
            == "def fib(x)\n  if x < 3 then\n    1\n  else\n    fib(x-1)+fib(x-2)\n\nfib(40)"
  {
    ProgramText2();
    Associative("def fib(x)", "\n  if x",
                " < 3 then" + ("\n    1" + ("\n  else" + ("\n    fib(x" + ("-1)+fib(" + ("x-2)" + ("\n\nfib(40)")))))));
    ProgramPrefix1();
  }

  lemma FibonacciPiecesFacts()
    ensures Spaced(FibonacciPieces()) && TokenCount(FibonacciPieces()) == 29
    ensures EndsWith(FibonacciPieces(), Sign, ")")
    ensures Join(FibonacciPieces()) == "def fib(x)\n  if x < 3 then\n    1\n  else\n    fib(x-1)+fib(x-2)\n\nfib(40)"
  {
    CallLineSpaced();
    CallLineText();
    RecursionTailSpaced();
    RecursionTailText();
    AppendSpaced(RecursionTail(), CallLine());
    AppendCount(RecursionTail(), CallLine());
    AppendJoin(RecursionTail(), CallLine());
    AppendLast(RecursionTail(), CallLine());
    RecursionMiddleSpaced();
    RecursionMiddleText();
    AppendSpaced(RecursionMiddle(), Append(RecursionTail(), CallLine()));
    AppendCount(RecursionMiddle(), Append(RecursionTail(), CallLine()));
    AppendJoin(RecursionMiddle(), Append(RecursionTail(), CallLine()));
    AppendLast(RecursionMiddle(), Append(RecursionTail(), CallLine()));
    RecursionHeadSpaced();
    RecursionHeadText();
    AppendSpaced(RecursionHead(), Append(RecursionMiddle(), Append(RecursionTail(), CallLine())));
    AppendCount(RecursionHead(), Append(RecursionMiddle(), Append(RecursionTail(), CallLine())));
    AppendJoin(RecursionHead(), Append(RecursionMiddle(), Append(RecursionTail(), CallLine())));
    AppendLast(RecursionHead(), Append(RecursionMiddle(), Append(RecursionTail(), CallLine())));
    ElseLineSpaced();
    ElseLineText();
    AppendSpaced(ElseLine(), Append(RecursionHead(), Append(RecursionMiddle(), Append(RecursionTail(), CallLine()))));
    AppendCount(ElseLine(), Append(RecursionHead(), Append(RecursionMiddle(), Append(RecursionTail(), CallLine()))));
    AppendJoin(ElseLine(), Append(RecursionHead(), Append(RecursionMiddle(), Append(RecursionTail(), CallLine()))));
    AppendLast(ElseLine(), Append(RecursionHead(), Append(RecursionMiddle(), Append(RecursionTail(), CallLine()))));
    ThenLineSpaced();
    ThenLineText();
    AppendSpaced(ThenLine(), Append(ElseLine(), Append(RecursionHead(), Append(RecursionMiddle(), Append(RecursionTail(), CallLine())))));
    AppendCount(ThenLine(), Append(ElseLine(), Append(RecursionHead(), Append(RecursionMiddle(), Append(RecursionTail(), CallLine())))));
    AppendJoin(ThenLine(), Append(ElseLine(), Append(RecursionHead(), Append(RecursionMiddle(), Append(RecursionTail(), CallLine())))));
    AppendLast(ThenLine(), Append(ElseLine(), Append(RecursionHead(), Append(RecursionMiddle(), Append(RecursionTail(), CallLine())))));
    IfTailSpaced();
    IfTailText();
    AppendSpaced(IfTail(), Append(ThenLine(), Append(ElseLine(), Append(RecursionHead(), Append(RecursionMiddle(), Append(RecursionTail(), CallLine()))))));
    AppendCount(IfTail(), Append(ThenLine(), Append(ElseLine(), Append(RecursionHead(), Append(RecursionMiddle(), Append(RecursionTail(), CallLine()))))));
    AppendJoin(IfTail(), Append(ThenLine(), Append(ElseLine(), Append(RecursionHead(), Append(RecursionMiddle(), Append(RecursionTail(), CallLine()))))));
    AppendLast(IfTail(), Append(ThenLine(), Append(ElseLine(), Append(RecursionHead(), Append(RecursionMiddle(), Append(RecursionTail(), CallLine()))))));
    IfHeadSpaced();
    IfHeadText();
    AppendSpaced(IfHead(), Append(IfTail(), Append(ThenLine(), Append(ElseLine(), Append(RecursionHead(), Append(RecursionMiddle(), Append(RecursionTail(), CallLine())))))));
    AppendCount(IfHead(), Append(IfTail(), Append(ThenLine(), Append(ElseLine(), Append(RecursionHead(), Append(RecursionMiddle(), Append(RecursionTail(), CallLine())))))));
    AppendJoin(IfHead(), Append(IfTail(), Append(ThenLine(), Append(ElseLine(), Append(RecursionHead(), Append(RecursionMiddle(), Append(RecursionTail(), CallLine())))))));
    AppendLast(IfHead(), Append(IfTail(), Append(ThenLine(), Append(ElseLine(), Append(RecursionHead(), Append(RecursionMiddle(), Append(RecursionTail(), CallLine())))))));
    DefLineSpaced();
    DefLineText();
    AppendSpaced(DefLine(), Append(IfHead(), Append(IfTail(), Append(ThenLine(), Append(ElseLine(), Append(RecursionHead(), Append(RecursionMiddle(), Append(RecursionTail(), CallLine()))))))));
    AppendCount(DefLine(), Append(IfHead(), Append(IfTail(), Append(ThenLine(), Append(ElseLine(), Append(RecursionHead(), Append(RecursionMiddle(), Append(RecursionTail(), CallLine()))))))));
    AppendJoin(DefLine(), Append(IfHead(), Append(IfTail(), Append(ThenLine(), Append(ElseLine(), Append(RecursionHead(), Append(RecursionMiddle(), Append(RecursionTail(), CallLine()))))))));
    AppendLast(DefLine(), Append(IfHead(), Append(IfTail(), Append(ThenLine(), Append(ElseLine(), Append(RecursionHead(), Append(RecursionMiddle(), Append(RecursionTail(), CallLine()))))))));
    ProgramText1();
  }

  /** The program of the lexer test lexes to 29 tokens, the first `def`
      (when the vocabulary makes "def" the keyword) and the last `)`. */
  lemma FibonacciProgram(voc: Vocabulary)
    requires voc.number("def") == None && voc.keyword("def") == Some(Keyword.Def)
    ensures var toks := Lex("def fib(x)\n  if x < 3 then\n    1\n  else\n    fib(x-1)+fib(x-2)\n\nfib(40)", voc);
            |toks| == 29 && toks[0] == Token.Keyword(Keyword.Def) && toks[28] == Mark(CloseParen)
  {
    FibonacciPiecesFacts();
    LexPieces(FibonacciPieces(), voc);
    JoinTokensCount(FibonacciPieces(), voc);
    LastTokenCloses(FibonacciPieces(), voc);
  }
}
