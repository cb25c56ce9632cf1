/**
  What the parser computes, as functions of the token list and a cursor.
  The `Parser` class in parser.dfy is proved to follow these.

  The parser keeps one current token: the token at the cursor, or none
  past the end (moving on from the end stays at the end). Each function
  below is one parsing routine started at cursor `p`; its outcome is the
  node it returns with the cursor afterwards, a failure (`nil`, with the
  cursor where the routine gave up), or a restart: a comment token in
  primary position makes the routine call the top-level `next()` again
  without moving the cursor, which routes the same comment back to the
  same place, so the routine never returns.
*/
module ParserSpec {
  import opened Wrappers
  import opened Tokens
  import opened Ast3

  datatype Outcome<T> =
    | Ok(value: T, pos: nat)
    | Fail(pos: nat)
    | Restart(pos: nat)

  /** `currentToken` with the cursor at `p`. */
  function Cur(toks: seq<Token>, p: nat): (t: Option<Token>)
    ensures t.Some? <==> p < |toks|
    ensures t.Some? ==> t.value == toks[p]
  {
    if p < |toks| then Some(toks[p]) else None
  }

  /** The cursor after `nextToken()`. */
  function Advance(toks: seq<Token>, p: nat): (q: nat)
    requires p <= |toks|
    ensures q <= |toks|
    ensures p < |toks| ==> q == p + 1
    ensures p == |toks| ==> q == p
  {
    if p < |toks| then p + 1 else p
  }

  /** The `binopPrecedence` table. */
  function TablePrecedence(op: BinaryOperator): (r: Option<int>)
    ensures r.Some? <==> op == Less || op == Plus || op == Minus || op == Times
    ensures r.Some? ==> r.value >= 10
  {
    match op
    case Less => Some(10)
    case Plus => Some(20)
    case Minus => Some(20)
    case Times => Some(40)
    case _ => None
  }

  /** `getTokenPrecedence()`: the table's precedence of an operator token,
      -1 for anything else. */
  function Precedence(t: Option<Token>): (r: int)
    ensures r == -1 || r >= 10
    ensures r >= 0 <==> t.Some? && t.value.Operator? && TablePrecedence(t.value.op).Some?
  {
    match t
    case Some(Operator(op)) =>
      (match TablePrecedence(op) case Some(n) => n case None => -1)
    case _ => -1
  }

  /** Every outcome stays within the tokens and does not move back; a
      restart sits on a comment. */
  ghost predicate Sound<T>(toks: seq<Token>, p: nat, r: Outcome<T>)
  {
    && p <= r.pos <= |toks|
    && (r.Restart? ==> r.pos < |toks| && toks[r.pos].Comment?)
  }

  /** `next()`: skips `;`, dispatches on `def` and `extern`, and parses
      anything else as a top-level expression; nil at the end. */
  function Top(toks: seq<Token>, p: nat): (r: Outcome<Expr>)
    requires p <= |toks|
    ensures Sound(toks, p, r)
    ensures r.Ok? ==> r.pos > p && (r.value.Function? || r.value.Prototype?)
    decreases |toks| - p, 8
  {
    match Cur(toks, p)
    case None => Fail(p)
    case Some(Mark(Semicolon)) => Top(toks, p + 1)
    case Some(Keyword(Def)) => Definition(toks, p)
    case Some(Keyword(Extern)) => Extern(toks, p)
    case Some(_) => TopLevelExpr(toks, p)
  }

  /** `parseDefinition()`, with the cursor on `def`: a prototype and a body
      expression. */
  function Definition(toks: seq<Token>, p: nat): (r: Outcome<Expr>)
    requires p <= |toks|
    ensures Sound(toks, p, r)
    ensures r.Ok? ==> r.pos > p && r.value.Function?
    decreases |toks| - p, 7
  {
    match PrototypeOf(toks, Advance(toks, p))
    case Fail(q) => Fail(q)
    case Restart(q) => Restart(q)
    case Ok(proto, q) =>
      match Expression(toks, q)
      case Ok(e, s) => Ok(Expr.Function(proto.name, proto.params, e), s)
      case Fail(s) => Fail(s)
      case Restart(s) => Restart(s)
  }

  /** `parseExtern()`, with the cursor on `extern`: a prototype. */
  function Extern(toks: seq<Token>, p: nat): (r: Outcome<Expr>)
    requires p <= |toks|
    ensures Sound(toks, p, r)
    ensures r.Ok? ==> r.pos > p && r.value.Prototype?
    decreases |toks| - p, 7
  {
    PrototypeOf(toks, Advance(toks, p))
  }

  /** `parseTopLevelExpr()`: an expression, wrapped as a function with an
      empty name and no parameters. */
  function TopLevelExpr(toks: seq<Token>, p: nat): (r: Outcome<Expr>)
    requires p <= |toks|
    ensures Sound(toks, p, r)
    ensures r.Ok? ==> r.pos > p && r.value.Function? && r.value.name == [] && r.value.params == []
    decreases |toks| - p, 7
  {
    match Expression(toks, p)
    case Ok(e, q) => Ok(Expr.Function("", [], e), q)
    case Fail(q) => Fail(q)
    case Restart(q) => Restart(q)
  }

  /** The `while case let .identifier(id) = self.nextToken()` loop of
      `parsePrototype()` from cursor `p`: the names of the maximal run of
      identifiers there, and the cursor on the first token after it. */
  function Params(toks: seq<Token>, p: nat): (r: (seq<string>, nat))
    requires p <= |toks|
    ensures p <= r.1 <= |toks|
    ensures |r.0| == r.1 - p
    ensures forall k :: p <= k < r.1 ==> toks[k] == Identifier(r.0[k - p])
    ensures r.1 < |toks| ==> !toks[r.1].Identifier?
    decreases |toks| - p
  {
    match Cur(toks, p)
    case Some(Identifier(id)) =>
      var (names, q) := Params(toks, p + 1);
      ([id] + names, q)
    case _ => ([], p)
  }

  /** `parsePrototype()`: a name, `(`, identifiers separated by white space,
      and `)`. */
  function PrototypeOf(toks: seq<Token>, p: nat): (r: Outcome<Expr>)
    requires p <= |toks|
    ensures Sound(toks, p, r) && !r.Restart?
    ensures r.Ok? ==> r.pos > p && r.value.Prototype?
    decreases |toks| - p, 6
  {
    match Cur(toks, p)
    case Some(Identifier(name)) =>
      var q := Advance(toks, p);
      if Cur(toks, q) != Some(Mark(OpenParen)) then Fail(q)
      else
        var (names, s) := Params(toks, Advance(toks, q));
        if Cur(toks, s) != Some(Mark(CloseParen)) then Fail(s)
        else Ok(Expr.Prototype(name, names), Advance(toks, s))
    case _ => Fail(p)
  }

  /** `parseExpression()`: a primary and the binary operators after it. */
  function Expression(toks: seq<Token>, p: nat): (r: Outcome<Expr>)
    requires p <= |toks|
    ensures Sound(toks, p, r)
    ensures r.Ok? ==> r.pos > p
    decreases |toks| - p, 4
  {
    match Primary(toks, p)
    case Ok(lhs, q) => BinOpRHS(toks, q, 0, lhs)
    case Fail(q) => Fail(q)
    case Restart(q) => Restart(q)
  }

  /** `parseBinOpRHS(exprPrec:lhs:)`: while the current token is an
      operator binding at least as tightly as `prec`, takes it and a primary,
      first letting a more tightly binding operator after that primary take
      it as its left operand. */
  function BinOpRHS(toks: seq<Token>, p: nat, prec: int, lhs: Expr): (r: Outcome<Expr>)
    requires p <= |toks|
    ensures Sound(toks, p, r)
    decreases |toks| - p, 1
  {
    var tokenPrec := Precedence(Cur(toks, p));
    if tokenPrec < prec then Ok(lhs, p)
    else if !(p < |toks| && toks[p].Operator?) then Fail(p)
    else
      var op := toks[p].op;
      match Primary(toks, p + 1)
      case Fail(q) => Fail(q)
      case Restart(q) => Restart(q)
      case Ok(rhs, q) =>
        if tokenPrec < Precedence(Cur(toks, q)) then
          match BinOpRHS(toks, q, tokenPrec + 1, rhs)
          case Fail(s) => Fail(s)
          case Restart(s) => Restart(s)
          case Ok(rhs', s) => BinOpRHS(toks, s, prec, Expr.Binary(lhs, op, rhs'))
        else
          BinOpRHS(toks, q, prec, Expr.Binary(lhs, op, rhs))
  }

  /** `parsePrimary()`: dispatches on the current token; a comment calls
      `next()` again on the same token. */
  function Primary(toks: seq<Token>, p: nat): (r: Outcome<Expr>)
    requires p <= |toks|
    ensures Sound(toks, p, r)
    ensures r.Ok? ==> r.pos > p
    ensures r.Restart? && r.pos == p <==> p < |toks| && toks[p].Comment?
    decreases |toks| - p, 3
  {
    match Cur(toks, p)
    case Some(Number(_)) => NumberExpr(toks, p)
    case Some(Comment(_)) => Restart(p)
    case Some(Identifier(_)) => IdentifierExpr(toks, p)
    case Some(Mark(OpenParen)) => ParenExpr(toks, p)
    case Some(Keyword(If)) => IfExpr(toks, p)
    case _ => Fail(p)
  }

  /** `parseNumberExpr()`. */
  function NumberExpr(toks: seq<Token>, p: nat): (r: Outcome<Expr>)
    requires p <= |toks|
    ensures Sound(toks, p, r) && !r.Restart?
    ensures r.Ok? <==> p < |toks| && toks[p].Number?
    ensures r.Ok? ==> r.pos == p + 1 && r.value == Expr.Number(toks[p].value)
    decreases |toks| - p, 2
  {
    match Cur(toks, p)
    case Some(Number(n)) => Ok(Expr.Number(n), p + 1)
    case _ => Fail(p)
  }

  /** `parseParenExpr()`, with the cursor on `(`: an expression and `)`. */
  function ParenExpr(toks: seq<Token>, p: nat): (r: Outcome<Expr>)
    requires p < |toks|
    ensures Sound(toks, p, r)
    ensures r.Ok? ==> r.pos > p
    decreases |toks| - p, 2
  {
    match Expression(toks, p + 1)
    case Ok(e, s) =>
      if Cur(toks, s) != Some(Mark(CloseParen)) then Fail(s)
      else Ok(e, Advance(toks, s))
    case Fail(s) => Fail(s)
    case Restart(s) => Restart(s)
  }

  /** `parseIdentifierExpr()`: a variable, or a call when `(` follows. */
  function IdentifierExpr(toks: seq<Token>, p: nat): (r: Outcome<Expr>)
    requires p <= |toks|
    ensures Sound(toks, p, r)
    ensures r.Ok? ==> r.pos > p && (r.value.Variable? || r.value.Call?)
    decreases |toks| - p, 2
  {
    match Cur(toks, p)
    case Some(Identifier(id)) =>
      var q := Advance(toks, p);
      if Cur(toks, q) != Some(Mark(OpenParen)) then Ok(Variable(id), q)
      else
        var q' := Advance(toks, q);
        if Cur(toks, q') == Some(Mark(CloseParen)) then Ok(Call(id, []), Advance(toks, q'))
        else
          (match Args(toks, q')
           case Ok(args, s) => Ok(Call(id, args), Advance(toks, s))
           case Fail(s) => Fail(s)
           case Restart(s) => Restart(s))
    case _ => Fail(p)
  }

  /** The argument loop of `parseIdentifierExpr()`: expressions separated
      by `,`, ending with the cursor on `)`. */
  function Args(toks: seq<Token>, p: nat): (r: Outcome<seq<Expr>>)
    requires p <= |toks|
    ensures Sound(toks, p, r)
    ensures r.Ok? ==> r.pos > p && r.pos < |toks| && toks[r.pos] == Mark(CloseParen) && |r.value| > 0
    decreases |toks| - p, 5
  {
    match Expression(toks, p)
    case Fail(q) => Fail(q)
    case Restart(q) => Restart(q)
    case Ok(e, q) =>
      if Cur(toks, q) == Some(Mark(CloseParen)) then Ok([e], q)
      else if Cur(toks, q) != Some(Mark(Comma)) then Fail(q)
      else
        match Args(toks, q + 1)
        case Ok(rest, s) => Ok([e] + rest, s)
        case Fail(s) => Fail(s)
        case Restart(s) => Restart(s)
  }

  /** `parseIfExpr()`, with the cursor on `if`: a condition, `then`, an
      expression, `else`, an expression. */
  function IfExpr(toks: seq<Token>, p: nat): (r: Outcome<Expr>)
    requires p < |toks|
    ensures Sound(toks, p, r)
    ensures r.Ok? ==> r.pos > p && r.value.If?
    decreases |toks| - p, 2
  {
    match Expression(toks, p + 1)
    case Fail(q) => Fail(q)
    case Restart(q) => Restart(q)
    case Ok(c, q) =>
      if Cur(toks, q) != Some(Keyword(Then)) then Fail(q)
      else
        match Expression(toks, q + 1)
        case Fail(s) => Fail(s)
        case Restart(s) => Restart(s)
        case Ok(t, s) =>
          if Cur(toks, s) != Some(Keyword(Else)) then Fail(s)
          else
            match Expression(toks, s + 1)
            case Fail(u) => Fail(u)
            case Restart(u) => Restart(u)
            case Ok(e, u) => Ok(Expr.If(c, t, e), u)
  }

  /** What `parse()` yields from cursor `p`: the items `next()` returns
      until its first nil; `diverges` when a restart ended the run, in which
      case `parse()` never returns. */
  datatype Parsed = Parsed(items: seq<Expr>, diverges: bool)

  function ParseFrom(toks: seq<Token>, p: nat): (r: Parsed)
    requires p <= |toks|
    ensures |r.items| <= |toks| - p
    ensures forall k :: 0 <= k < |r.items| ==> r.items[k].Function? || r.items[k].Prototype?
    decreases |toks| - p
  {
    match Top(toks, p)
    case Ok(e, q) =>
      var rest := ParseFrom(toks, q);
      Parsed([e] + rest.items, rest.diverges)
    case Fail(_) => Parsed([], false)
    case Restart(_) => Parsed([], true)
  }

  /** `Parser(...).parse()` over the lexer's tokens. */
  function Parse(toks: seq<Token>): (r: Parsed)
    ensures |r.items| <= |toks|
    ensures forall k :: 0 <= k < |r.items| ==> r.items[k].Function? || r.items[k].Prototype?
    ensures toks == [] ==> r == Parsed([], false)
  {
    ParseFrom(toks, 0)
  }
}
