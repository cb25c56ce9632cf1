/**
  The parser's iterator object: the token list the lexer produced, and a
  cursor whose token is the iterator's `currentToken`. Every routine is a
  method that moves the cursor and is proved to return what the function
  of the same name in `ParserSpec` says, leaving the cursor where that
  function's outcome says.

  Where the routine would call `next()` again on a comment, never to
  return, the method stops and replies `Loops` instead; `ParserProperties`
  shows that the re-entered call comes back to the same place.
*/
module Parsing {
  import opened Wrappers
  import opened Tokens
  import opened Ast3
  import opened ParserSpec

  /** What a routine hands back: the node, `nil`, or the signal that it
      would re-enter `next()` on a comment and never return. */
  datatype Reply<T> = Value(value: T) | Nil | Loops

  /** The reply a routine with outcome `o` gives. */
  function AsReply<T>(o: Outcome<T>): (r: Reply<T>)
    ensures r.Value? <==> o.Ok?
    ensures r.Loops? <==> o.Restart?
    ensures r.Value? ==> r.value == o.value
  {
    match o
    case Ok(v, _) => Value(v)
    case Fail(_) => Nil
    case Restart(_) => Loops
  }

  /** The argument loop's outcome once `done` have been collected. */
  ghost function Prepended(done: seq<Expr>, o: Outcome<seq<Expr>>): Outcome<seq<Expr>>
  {
    match o
    case Ok(rest, s) => Ok(done + rest, s)
    case Fail(s) => Fail(s)
    case Restart(s) => Restart(s)
  }

  lemma PrependedNothing(o: Outcome<seq<Expr>>)
    ensures Prepended([], o) == o
  {
    if o.Ok? {
      assert [] + o.value == o.value;
    }
  }

  lemma PrependedTwice(a: seq<Expr>, b: seq<Expr>, o: Outcome<seq<Expr>>)
    ensures Prepended(a, Prepended(b, o)) == Prepended(a + b, o)
  {
    if o.Ok? {
      assert a + (b + o.value) == a + b + o.value;
    }
  }

  class Parser {
    const toks: seq<Token>
    var pos: nat

    ghost predicate Valid()
      reads this
    {
      pos <= |toks|
    }

    /** `Parser.Iterator(lexer:)`: takes the first token as the current one. */
    constructor (toks: seq<Token>)
      ensures Valid()
      ensures this.toks == toks && pos == 0
    {
      this.toks := toks;
      pos := 0;
    }

    /** `currentToken`. */
    function CurrentToken(): (t: Option<Token>)
      reads this
      requires Valid()
      ensures t == Cur(toks, pos)
    {
      if pos < |toks| then Some(toks[pos]) else None
    }

    /** `nextToken()`: moves to the next token (staying at the end once
        there) and returns it. */
    method NextToken() returns (t: Option<Token>)
      requires Valid()
      modifies this
      ensures Valid() && pos == Advance(toks, old(pos)) && t == Cur(toks, pos)
    {
      if pos < |toks| {
        pos := pos + 1;
      }
      t := CurrentToken();
    }

    /** `getTokenPrecedence()`. */
    function GetTokenPrecedence(): (r: int)
      reads this
      requires Valid()
      ensures r == Precedence(Cur(toks, pos))
    {
      match CurrentToken()
      case Some(Operator(op)) =>
        (match TablePrecedence(op) case Some(n) => n case None => -1)
      case _ => -1
    }

    /** `next()`. */
    method Next() returns (r: Reply<Expr>)
      requires Valid()
      modifies this
      ensures Valid()
      ensures r == AsReply(Top(toks, old(pos))) && pos == Top(toks, old(pos)).pos
      decreases |toks| - pos, 8
    {
      match CurrentToken()
      case None =>
        return Nil;
      case Some(Mark(Semicolon)) =>
        var _ := NextToken();
        r := Next();
      case Some(Keyword(Def)) =>
        r := ParseDefinition();
      case Some(Keyword(Extern)) =>
        r := ParseExtern();
      case Some(_) =>
        r := ParseTopLevelExpr();
    }

    /** `parseExpression()`. */
    method ParseExpression() returns (r: Reply<Expr>)
      requires Valid()
      modifies this
      ensures Valid()
      ensures r == AsReply(Expression(toks, old(pos))) && pos == Expression(toks, old(pos)).pos
      decreases |toks| - pos, 4
    {
      var lhs := ParsePrimary();
      if !lhs.Value? {
        return lhs;
      }
      r := ParseBinOpRHS(0, lhs.value);
    }

    /** `parseBinOpRHS(exprPrec:lhs:)`. */
    method ParseBinOpRHS(exprPrec: int, lhs0: Expr) returns (r: Reply<Expr>)
      requires Valid()
      modifies this
      ensures Valid()
      ensures r == AsReply(BinOpRHS(toks, old(pos), exprPrec, lhs0))
      ensures pos == BinOpRHS(toks, old(pos), exprPrec, lhs0).pos
      decreases |toks| - pos, 1
    {
      var lhs := lhs0;
      while true
        invariant Valid() && old(pos) <= pos
        invariant BinOpRHS(toks, pos, exprPrec, lhs) == BinOpRHS(toks, old(pos), exprPrec, lhs0)
        decreases |toks| - pos
      {
        var tokenPrec := GetTokenPrecedence();
        if tokenPrec < exprPrec {
          return Value(lhs);
        }
        var current := CurrentToken();
        if !(current.Some? && current.value.Operator?) {
          return Nil;
        }
        var binOp := current.value.op;
        var _ := NextToken();
        var rhs := ParsePrimary();
        if !rhs.Value? {
          return rhs;
        }
        var nextPrec := GetTokenPrecedence();
        if tokenPrec < nextPrec {
          rhs := ParseBinOpRHS(tokenPrec + 1, rhs.value);
          if !rhs.Value? {
            return rhs;
          }
        }
        lhs := Expr.Binary(lhs, binOp, rhs.value);
      }
    }

    /** `parsePrototype()`. */
    method ParsePrototype() returns (r: Reply<Expr>)
      requires Valid()
      modifies this
      ensures Valid()
      ensures r == AsReply(PrototypeOf(toks, old(pos))) && pos == PrototypeOf(toks, old(pos)).pos
    {
      var current := CurrentToken();
      if !(current.Some? && current.value.Identifier?) {
        return Nil;
      }
      var fnName := current.value.name;
      var _ := NextToken();
      if CurrentToken() != Some(Mark(OpenParen)) {
        return Nil;
      }
      var argNames := ParamNames();
      if CurrentToken() != Some(Mark(CloseParen)) {
        return Nil;
      }
      var _ := NextToken();
      return Value(Expr.Prototype(fnName, argNames));
    }

    /** The `while case let .identifier(id) = self.nextToken()` loop of
        `parsePrototype()`, run from the cursor on `(`. */
    method ParamNames() returns (argNames: seq<string>)
      requires Valid()
      modifies this
      ensures Valid()
      ensures argNames == Params(toks, Advance(toks, old(pos))).0
      ensures pos == Params(toks, Advance(toks, old(pos))).1
    {
      argNames := [];
      ghost var start := Advance(toks, pos);
      var t := NextToken();
      while t.Some? && t.value.Identifier?
        invariant Valid() && start <= pos && t == Cur(toks, pos)
        invariant Params(toks, start).1 == Params(toks, pos).1
        invariant Params(toks, start).0 == argNames + Params(toks, pos).0
        decreases |toks| - pos
      {
        argNames := argNames + [t.value.name];
        t := NextToken();
      }
      assert Params(toks, pos).0 == [] && Params(toks, pos).1 == pos;
      assert argNames + [] == argNames;
    }

    /** `parseDefinition()`. */
    method ParseDefinition() returns (r: Reply<Expr>)
      requires Valid()
      modifies this
      ensures Valid()
      ensures r == AsReply(Definition(toks, old(pos))) && pos == Definition(toks, old(pos)).pos
      decreases |toks| - pos, 7
    {
      var _ := NextToken();
      var proto := ParsePrototype();
      if !(proto.Value? && proto.value.Prototype?) {
        return Nil;
      }
      var e := ParseExpression();
      if !e.Value? {
        return e;
      }
      return Value(Expr.Function(proto.value.name, proto.value.params, e.value));
    }

    /** `parseExtern()`. */
    method ParseExtern() returns (r: Reply<Expr>)
      requires Valid()
      modifies this
      ensures Valid()
      ensures r == AsReply(ParserSpec.Extern(toks, old(pos))) && pos == ParserSpec.Extern(toks, old(pos)).pos
    {
      var _ := NextToken();
      r := ParsePrototype();
    }

    /** `parseTopLevelExpr()`. */
    method ParseTopLevelExpr() returns (r: Reply<Expr>)
      requires Valid()
      modifies this
      ensures Valid()
      ensures r == AsReply(TopLevelExpr(toks, old(pos))) && pos == TopLevelExpr(toks, old(pos)).pos
      decreases |toks| - pos, 7
    {
      var e := ParseExpression();
      if !e.Value? {
        return e;
      }
      return Value(Expr.Function("", [], e.value));
    }

    /** `parsePrimary()`. On a comment Swift returns `self.next()`, which
        lands back here on the same comment; the method replies `Loops`. */
    method ParsePrimary() returns (r: Reply<Expr>)
      requires Valid()
      modifies this
      ensures Valid()
      ensures r == AsReply(Primary(toks, old(pos))) && pos == Primary(toks, old(pos)).pos
      decreases |toks| - pos, 3
    {
      match CurrentToken()
      case Some(Number(_)) =>
        r := ParseNumberExpr();
      case Some(Comment(_)) =>
        return Loops;
      case Some(Identifier(_)) =>
        r := ParseIdentifierExpr();
      case Some(Mark(OpenParen)) =>
        r := ParseParenExpr();
      case Some(Keyword(If)) =>
        r := ParseIfExpr();
      case _ =>
        return Nil;
    }

    /** `parseNumberExpr()`. */
    method ParseNumberExpr() returns (r: Reply<Expr>)
      requires Valid()
      modifies this
      ensures Valid()
      ensures r == AsReply(NumberExpr(toks, old(pos))) && pos == NumberExpr(toks, old(pos)).pos
    {
      var current := CurrentToken();
      if !(current.Some? && current.value.Number?) {
        return Nil;
      }
      var _ := NextToken();
      return Value(Expr.Number(current.value.value));
    }

    /** `parseParenExpr()`. */
    method ParseParenExpr() returns (r: Reply<Expr>)
      requires Valid() && pos < |toks|
      modifies this
      ensures Valid()
      ensures r == AsReply(ParenExpr(toks, old(pos))) && pos == ParenExpr(toks, old(pos)).pos
      decreases |toks| - pos, 2
    {
      var _ := NextToken();
      var e := ParseExpression();
      if !e.Value? {
        return e;
      }
      if CurrentToken() != Some(Mark(CloseParen)) {
        return Nil;
      }
      var _ := NextToken();
      return e;
    }

    /** `parseIdentifierExpr()`. */
    method ParseIdentifierExpr() returns (r: Reply<Expr>)
      requires Valid()
      modifies this
      ensures Valid()
      ensures r == AsReply(IdentifierExpr(toks, old(pos))) && pos == IdentifierExpr(toks, old(pos)).pos
      decreases |toks| - pos, 2
    {
      var current := CurrentToken();
      if !(current.Some? && current.value.Identifier?) {
        return Nil;
      }
      var id := current.value.name;
      var _ := NextToken();
      if CurrentToken() != Some(Mark(OpenParen)) {
        return Value(Variable(id));
      }
      var _ := NextToken();
      if CurrentToken() == Some(Mark(CloseParen)) {
        var _ := NextToken();
        return Value(Call(id, []));
      }
      var exprs: seq<Expr> := [];
      ghost var start := pos;
      assert Prepended([], Args(toks, pos)) == Args(toks, pos) by {
        PrependedNothing(Args(toks, pos));
      }
      while true
        invariant Valid() && old(pos) < start <= pos
        invariant Args(toks, start) == Prepended(exprs, Args(toks, pos))
        decreases |toks| - pos
      {
        ghost var here := pos;
        var e := ParseExpression();
        if !e.Value? {
          return e;
        }
        ghost var done := exprs;
        exprs := exprs + [e.value];
        if CurrentToken() == Some(Mark(CloseParen)) {
          assert Args(toks, here) == Ok([e.value], pos);
          break;
        }
        if CurrentToken() != Some(Mark(Comma)) {
          return Nil;
        }
        var _ := NextToken();
        assert Args(toks, here) == Prepended([e.value], Args(toks, pos));
        PrependedTwice(done, [e.value], Args(toks, pos));
      }
      var _ := NextToken();
      return Value(Call(id, exprs));
    }

    /** `parseIfExpr()`. */
    method ParseIfExpr() returns (r: Reply<Expr>)
      requires Valid() && pos < |toks|
      modifies this
      ensures Valid()
      ensures r == AsReply(IfExpr(toks, old(pos))) && pos == IfExpr(toks, old(pos)).pos
      decreases |toks| - pos, 2
    {
      var _ := NextToken();
      var cond := ParseExpression();
      if !cond.Value? {
        return cond;
      }
      if CurrentToken() != Some(Keyword(Then)) {
        return Nil;
      }
      var _ := NextToken();
      var thenBranch := ParseExpression();
      if !thenBranch.Value? {
        return thenBranch;
      }
      if CurrentToken() != Some(Keyword(Else)) {
        return Nil;
      }
      var _ := NextToken();
      var elseBranch := ParseExpression();
      if !elseBranch.Value? {
        return elseBranch;
      }
      return Value(Expr.If(cond.value, thenBranch.value, elseBranch.value));
    }
  }

  /** `Parser(...).parse()`: a fresh iterator over the tokens, collecting
      what `next()` returns until it returns nil. When `next()` would not
      return, neither does `parse()`; the method then reports the items
      collected before, with `diverges` set. */
  method Parse(toks: seq<Token>) returns (r: Parsed)
    ensures r == ParserSpec.Parse(toks)
  {
    var it := new Parser(toks);
    var items: seq<Expr> := [];
    var e := it.Next();
    ghost var before := 0;
    while e.Value?
      invariant it.Valid() && it.toks == toks && before <= it.pos
      invariant e == AsReply(Top(toks, before)) && it.pos == Top(toks, before).pos
      invariant ParseFrom(toks, 0).items == items + ParseFrom(toks, before).items
      invariant ParseFrom(toks, 0).diverges == ParseFrom(toks, before).diverges
      decreases |toks| - before
    {
      items := items + [e.value];
      before := it.pos;
      e := it.Next();
    }
    return Parsed(items, e.Loops?);
  }
}
