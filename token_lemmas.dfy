/** Properties of the token tables and of `Token.description`. */
module TokenProperties {
  import opened Wrappers
  import opened Tokens

  /** Raw values are distinct, so `Mark(rawValue: m.rawValue) == m`. */
  lemma MarkRoundTrip(m: Mark)
    ensures MarkFromRaw(m.RawValue()) == Some(m)
  {
  }

  /** Raw values are distinct, so `BinaryOperator(rawValue: op.rawValue) == op`. */
  lemma OperatorRoundTrip(op: BinaryOperator)
    ensures OperatorFromRaw(op.RawValue()) == Some(op)
  {
  }

  /** Raw values are distinct, so `Keyword(rawValue: k.rawValue) == k`. */
  lemma KeywordRoundTrip(k: Keyword)
    ensures KeywordFromRaw(k.RawValue()) == Some(k)
  {
  }

  /** No character is both a mark and a built-in operator. */
  lemma MarksAndOperatorsDisjoint(c: char)
    ensures !(MarkFromRaw(c).Some? && OperatorFromRaw(c).Some?)
  {
  }

  /** The symbols a later language version uses for user-defined operators
      are not built-in operators (nor marks). */
  lemma UserOperatorSymbolsAreNotBuiltIn()
    ensures OperatorFromRaw('!') == None && OperatorFromRaw('|') == None
    ensures OperatorFromRaw('&') == None && OperatorFromRaw(':') == None
    ensures MarkFromRaw('!') == None && MarkFromRaw('|') == None
    ensures MarkFromRaw('&') == None && MarkFromRaw(':') == None
  {
  }

  /** Keyword lookup is case-sensitive and exact: no prefix, extension or
      re-capitalisation of a keyword is one. */
  lemma KeywordLookupIsExact()
    ensures KeywordFromRaw("Def") == None && KeywordFromRaw("DEF") == None
    ensures KeywordFromRaw("de") == None && KeywordFromRaw("define") == None
    ensures KeywordFromRaw("If") == None && KeywordFromRaw("") == None
  {
  }

  /** The `token` property of each table wraps the case in its own variant. */
  lemma TokenPropertiesWrapTheCase(m: Mark, op: BinaryOperator, k: Keyword)
    ensures m.AsToken().Mark? && m.AsToken().mark == m
    ensures op.AsToken().Operator? && op.AsToken().op == op
    ensures k.AsToken().Keyword? && k.AsToken().keyword == k
  {
  }

  lemma OperatorCaseNamesDistinct(a: BinaryOperator, b: BinaryOperator)
    ensures a.CaseName() == b.CaseName() ==> a == b
  {
  }

  lemma MarkCaseNamesDistinct(a: Mark, b: Mark)
    ensures a.CaseName() == b.CaseName() ==> a == b
  {
  }

  lemma KeywordNamesDistinct(a: Keyword, b: Keyword)
    ensures a.RawValue() == b.RawValue() ==> a == b
  {
    if a.RawValue() == b.RawValue() {
      KeywordRoundTrip(a);
      KeywordRoundTrip(b);
    }
  }

  /** The prefix of a description identifies the variant, because the first
      letters of the six prefixes are distinct and `.other` prints a single
      character. */
  function VariantInitial(t: Token): char
  {
    match t
    case Keyword(_) => 'k'
    case Operator(_) => 'o'
    case Mark(_) => 'm'
    case Identifier(_) => 'i'
    case Number(_) => 'n'
    case Comment(_) => 'c'
    case Other(c) => c
  }

  /** Whatever the number printer, a description is never empty and starts
      with the variant's initial; every variant but `.other` prints more than
      one character. */
  lemma DescriptionShape(t: Token, showNumber: real -> string)
    ensures |Description(t, showNumber)| > 0
    ensures Description(t, showNumber)[0] == VariantInitial(t)
    ensures t.Other? <==> |Description(t, showNumber)| == 1
  {
  }

  /** Two tokens without a numeric payload that print alike are equal:
      `description` loses no information on them. */
  lemma DescriptionInjective(t1: Token, t2: Token, showNumber: real -> string)
    requires !t1.Number? && !t2.Number?
    ensures Description(t1, showNumber) == Description(t2, showNumber) ==> t1 == t2
  {
    var d1, d2 := Description(t1, showNumber), Description(t2, showNumber);
    if d1 == d2 {
      DescriptionShape(t1, showNumber);
      DescriptionShape(t2, showNumber);
      if t1.Other? || t2.Other? {
        assert t1.Other? && t2.Other?;
        assert d1[0] == t1.ch && d2[0] == t2.ch;
      } else {
        assert VariantInitial(t1) == VariantInitial(t2);
        match t1
        case Keyword(k1) =>
          assert d1[9..] == k1.RawValue() && d2[9..] == t2.keyword.RawValue();
          KeywordNamesDistinct(k1, t2.keyword);
        case Operator(o1) =>
          assert d1[10..] == o1.CaseName() && d2[10..] == t2.op.CaseName();
          OperatorCaseNamesDistinct(o1, t2.op);
        case Mark(m1) =>
          assert d1[6..] == m1.CaseName() && d2[6..] == t2.mark.CaseName();
          MarkCaseNamesDistinct(m1, t2.mark);
        case Identifier(i1) =>
          assert d1[12..] == i1 && d2[12..] == t2.name;
        case Comment(c1) =>
          assert d1[9..] == c1 && d2[9..] == t2.text;
      }
    }
  }
}
