/** Properties of the parser: precedence climbing, the shapes of the
    nodes it builds, where it fails, and where it never returns. */
module ParserProperties {
  import opened Wrappers
  import opened Tokens
  import opened Ast3
  import opened ParserSpec
  import opened LexerSpec
  import LexerProperties
  import opened ParserLocality

  // ------------------------------------------------------------ operands

  /** An identifier not followed by `(` is a variable. */
  lemma PrimaryVariable(toks: seq<Token>, p: nat)
    requires p < |toks| && toks[p].Identifier?
    requires Cur(toks, p + 1) != Some(Mark(OpenParen))
    ensures Primary(toks, p) == Ok(Variable(toks[p].name), p + 1)
  {
    assert IdentifierExpr(toks, p) == Ok(Variable(toks[p].name), p + 1);
  }

  /** An identifier followed by neither `(` nor a tabled operator is a whole
      expression. */
  lemma ExpressionVariable(toks: seq<Token>, p: nat)
    requires p < |toks| && toks[p].Identifier?
    requires Cur(toks, p + 1) != Some(Mark(OpenParen)) && Precedence(Cur(toks, p + 1)) < 0
    ensures Expression(toks, p) == Ok(Variable(toks[p].name), p + 1)
  {
    PrimaryVariable(toks, p);
  }

  /** `parseBinOpRHS` hands back `lhs` and consumes nothing when the
      current token does not bind at least as tightly as `prec`; the
      operators without a table entry (`/ % = >`) never bind. */
  lemma BinOpRHSStops(toks: seq<Token>, p: nat, prec: int, lhs: Expr)
    requires p <= |toks| && prec >= 0
    requires Cur(toks, p) in {Some(Operator(Divide)), Some(Operator(Mod)),
                              Some(Operator(Equals)), Some(Operator(Great))}
             || Precedence(Cur(toks, p)) < prec
    ensures BinOpRHS(toks, p, prec, lhs) == Ok(lhs, p)
  {
  }

  /** The guard on the operator token inside the loop of `parseBinOpRHS`
      never fails for the precedences the parser passes (0, or one more
      than an operator's). */
  lemma BinOpRHSNeverFailsOnItsGuard(toks: seq<Token>, p: nat, prec: int, lhs: Expr)
    requires p <= |toks| && prec >= 0
    ensures BinOpRHS(toks, p, prec, lhs) == Fail(p) ==> p < |toks| && toks[p].Operator?
  {
  }

  // ---------------------------------------------------------- precedence

  /** Of two operators in a row, the second takes the middle operand only
      when it binds strictly more tightly; equal precedences associate to
      the left. */
  lemma TwoOperators(toks: seq<Token>, x: string, o1: BinaryOperator, y: string, o2: BinaryOperator, z: string)
    requires toks == [Identifier(x), Operator(o1), Identifier(y), Operator(o2), Identifier(z)]
    requires TablePrecedence(o1).Some? && TablePrecedence(o2).Some?
    ensures TablePrecedence(o1).value < TablePrecedence(o2).value ==>
              Expression(toks, 0)
              == Ok(Expr.Binary(Variable(x), o1, Expr.Binary(Variable(y), o2, Variable(z))), 5)
    ensures TablePrecedence(o1).value >= TablePrecedence(o2).value ==>
              Expression(toks, 0)
              == Ok(Expr.Binary(Expr.Binary(Variable(x), o1, Variable(y)), o2, Variable(z)), 5)
  {
    var p1, p2 := TablePrecedence(o1).value, TablePrecedence(o2).value;
    var vx, vy, vz := Variable(x), Variable(y), Variable(z);
    PrimaryVariable(toks, 0);
    PrimaryVariable(toks, 2);
    PrimaryVariable(toks, 4);
    if p1 < p2 {
      var right := Expr.Binary(vy, o2, vz);
      assert BinOpRHS(toks, 5, p1 + 1, right) == Ok(right, 5);
      assert BinOpRHS(toks, 3, p1 + 1, vy) == Ok(right, 5);
      var whole := Expr.Binary(vx, o1, right);
      assert BinOpRHS(toks, 5, 0, whole) == Ok(whole, 5);
      assert BinOpRHS(toks, 1, 0, vx) == Ok(whole, 5);
    } else {
      var left := Expr.Binary(vx, o1, vy);
      var whole := Expr.Binary(left, o2, vz);
      assert BinOpRHS(toks, 5, 0, whole) == Ok(whole, 5);
      assert BinOpRHS(toks, 3, 0, left) == Ok(whole, 5);
      assert BinOpRHS(toks, 1, 0, vx) == Ok(whole, 5);
    }
  }

  /** The right operand of `<` in `a < b + c - d * e`. */
  lemma LessPlusMinusTimesRight(toks: seq<Token>, a: string, b: string, c: string, d: string, e: string)
    requires toks == [Identifier(a), Operator(Less), Identifier(b), Operator(Plus), Identifier(c),
                      Operator(Minus), Identifier(d), Operator(Times), Identifier(e)]
    ensures BinOpRHS(toks, 3, 11, Variable(b))
            == Ok(Expr.Binary(Expr.Binary(Variable(b), Plus, Variable(c)), Minus,
                              Expr.Binary(Variable(d), Times, Variable(e))), 9)
  {
    var vb, vc, vd, ve := Variable(b), Variable(c), Variable(d), Variable(e);
    PrimaryVariable(toks, 4);
    PrimaryVariable(toks, 6);
    PrimaryVariable(toks, 8);
    MergeStep(toks, 7, 21, Times, vd, ve, 9);
    var bc := Expr.Binary(vb, Plus, vc);
    ClimbStep(toks, 5, 11, Minus, 20, bc, vd, 7, Expr.Binary(vd, Times, ve), 9);
    MergeStep(toks, 3, 11, Plus, vb, vc, 5);
  }

  /** `a < b + c - d * e` parses as `a < ((b + c) - (d * e))`. */
  lemma LessPlusMinusTimes(toks: seq<Token>, a: string, b: string, c: string, d: string, e: string)
    requires toks == [Identifier(a), Operator(Less), Identifier(b), Operator(Plus), Identifier(c),
                      Operator(Minus), Identifier(d), Operator(Times), Identifier(e)]
    ensures Expression(toks, 0)
            == Ok(Expr.Binary(Variable(a), Less,
                              Expr.Binary(Expr.Binary(Variable(b), Plus, Variable(c)), Minus,
                                          Expr.Binary(Variable(d), Times, Variable(e)))), 9)
  {
    var right := Expr.Binary(Expr.Binary(Variable(b), Plus, Variable(c)), Minus,
                             Expr.Binary(Variable(d), Times, Variable(e)));
    PrimaryVariable(toks, 0);
    PrimaryVariable(toks, 2);
    LessPlusMinusTimesRight(toks, a, b, c, d, e);
    ClimbStep(toks, 1, 0, Less, 10, Variable(a), Variable(b), 3, right, 9);
  }

  /** The right operand of `<` in `a < b - c + d * e`. */
  lemma LessMinusPlusTimesRight(toks: seq<Token>, a: string, b: string, c: string, d: string, e: string)
    requires toks == [Identifier(a), Operator(Less), Identifier(b), Operator(Minus), Identifier(c),
                      Operator(Plus), Identifier(d), Operator(Times), Identifier(e)]
    ensures BinOpRHS(toks, 3, 11, Variable(b))
            == Ok(Expr.Binary(Expr.Binary(Variable(b), Minus, Variable(c)), Plus,
                              Expr.Binary(Variable(d), Times, Variable(e))), 9)
  {
    var vb, vc, vd, ve := Variable(b), Variable(c), Variable(d), Variable(e);
    PrimaryVariable(toks, 4);
    PrimaryVariable(toks, 6);
    PrimaryVariable(toks, 8);
    MergeStep(toks, 7, 21, Times, vd, ve, 9);
    var bc := Expr.Binary(vb, Minus, vc);
    ClimbStep(toks, 5, 11, Plus, 20, bc, vd, 7, Expr.Binary(vd, Times, ve), 9);
    MergeStep(toks, 3, 11, Minus, vb, vc, 5);
  }

  /** `a < b - c + d * e` parses as `a < ((b - c) + (d * e))`: `-` and `+`
      associate to the left, `*` binds its operands first. */
  lemma LessMinusPlusTimes(toks: seq<Token>, a: string, b: string, c: string, d: string, e: string)
    requires toks == [Identifier(a), Operator(Less), Identifier(b), Operator(Minus), Identifier(c),
                      Operator(Plus), Identifier(d), Operator(Times), Identifier(e)]
    ensures Expression(toks, 0)
            == Ok(Expr.Binary(Variable(a), Less,
                              Expr.Binary(Expr.Binary(Variable(b), Minus, Variable(c)), Plus,
                                          Expr.Binary(Variable(d), Times, Variable(e)))), 9)
  {
    var right := Expr.Binary(Expr.Binary(Variable(b), Minus, Variable(c)), Plus,
                             Expr.Binary(Variable(d), Times, Variable(e)));
    PrimaryVariable(toks, 0);
    PrimaryVariable(toks, 2);
    LessMinusPlusTimesRight(toks, a, b, c, d, e);
    ClimbStep(toks, 1, 0, Less, 10, Variable(a), Variable(b), 3, right, 9);
  }

  // ------------------------------------------------------------ placement

  /** A token run that is a whole expression on its own is the same
      expression wherever it stands, when the token after it is neither `(`
      nor a tabled operator. */
  lemma PlacedExpression(toks: seq<Token>, d: nat, run: seq<Token>, e: Expr)
    requires d + |run| <= |toks| && toks[d..d + |run|] == run
    requires Expression(run, 0) == Ok(e, |run|) && Clear(toks, d + |run|)
    ensures Expression(toks, d) == Ok(e, d + |run|)
  {
    SliceEmbeds(toks, d, run);
    ExpressionEmbeds(run, toks, d, 0, d, e, |run|);
  }

  /** A slice of the tokens occurs in them where it was cut. */
  lemma SliceEmbeds(toks: seq<Token>, d: nat, run: seq<Token>)
    requires d + |run| <= |toks| && toks[d..d + |run|] == run
    ensures Embeds(run, toks, d)
  {
    forall k | 0 <= k < |run|
      ensures toks[d + k] == run[k]
    {
      assert toks[d + k] == toks[d..d + |run|][k];
    }
  }

  /** A run between a prefix and a rest occurs in the whole right after
      the prefix, and the rest follows it. */
  lemma Framed(toks: seq<Token>, prefix: seq<Token>, run: seq<Token>, rest: seq<Token>)
    requires toks == prefix + run + rest
    ensures |toks| == |prefix| + |run| + |rest| && Embeds(run, toks, |prefix|)
    ensures |rest| > 0 ==> toks[|prefix| + |run|] == rest[0]
  {
    forall k | 0 <= k < |run|
      ensures toks[|prefix| + k] == run[k]
    {
    }
  }

  /** `( e )` is `e`: parentheses only group. */
  lemma ParenthesisedExpression(toks: seq<Token>, run: seq<Token>, e: Expr)
    requires toks == [Mark(OpenParen)] + run + [Mark(CloseParen)]
    requires Expression(run, 0) == Ok(e, |run|)
    ensures Primary(toks, 0) == Ok(e, |toks|)
    ensures Expression(toks, 0) == Ok(e, |toks|)
  {
    Framed(toks, [Mark(OpenParen)], run, [Mark(CloseParen)]);
    ExpressionEmbeds(run, toks, 1, 0, 1, e, |run|);
    assert ParenExpr(toks, 0) == Ok(e, |toks|);
    WholePrimary(toks, e);
  }

  /** A primary that takes every token is the whole expression. */
  lemma WholePrimary(toks: seq<Token>, e: Expr)
    requires Primary(toks, 0) == Ok(e, |toks|)
    ensures Expression(toks, 0) == Ok(e, |toks|)
  {
  }

  // ------------------------------------------------------------ top level

  /** A program that is one expression followed by nothing parses to that
      expression wrapped as a function with an empty name and no
      parameters. */
  lemma OneTopLevelExpression(toks: seq<Token>, e: Expr)
    requires |toks| > 0
    requires toks[0] !in {Mark(Semicolon), Token.Keyword(Def), Token.Keyword(Extern)}
    requires Expression(toks, 0) == Ok(e, |toks|)
    ensures Parse(toks) == Parsed([Expr.Function("", [], e)], false)
  {
    var f := Expr.Function("", [], e);
    assert Top(toks, 0) == Ok(f, |toks|);
    assert ParseFrom(toks, |toks|) == Parsed([], false);
    assert [f] + [] == [f];
  }

  /** When the first item fails, `parse()` yields nothing. */
  lemma FirstItemFails(toks: seq<Token>)
    requires Top(toks, 0).Fail?
    ensures Parse(toks) == Parsed([], false)
  {
  }

  /** "3" parses to `function("", [], number(3))`: a bare number is a
      top-level expression. */
  lemma NumberProgram(toks: seq<Token>, v: real)
    requires toks == [Token.Number(v)]
    ensures Parse(toks) == Parsed([Expr.Function("", [], Expr.Number(v))], false)
  {
    assert Primary(toks, 0) == Ok(Expr.Number(v), 1);
    OneTopLevelExpression(toks, Expr.Number(v));
  }

  /** The same through the lexer, when the number conversion reads "3" as
      3. */
  lemma ThreeLexesAndParses(voc: Vocabulary)
    requires voc.number("3") == Some(3.0)
    ensures Parse(Lex("3", voc)) == Parsed([Expr.Function("", [], Expr.Number(3.0))], false)
  {
    var s := "3";
    assert InRun(s[0]);
    LexerProperties.WholeRunIsOneToken(s, voc);
    NumberProgram(Lex(s, voc), 3.0);
  }

  /** Top-level `;` tokens are skipped: `next()` from a run of them acts as
      from the token after the run. */
  lemma {:induction false} SemicolonsSkipped(toks: seq<Token>, p: nat, q: nat)
    requires p <= q <= |toks|
    requires forall k :: p <= k < q ==> toks[k] == Mark(Semicolon)
    ensures Top(toks, p) == Top(toks, q)
    decreases q - p
  {
    if p < q {
      SemicolonsSkipped(toks, p + 1, q);
    }
  }

  /** A failure ends the list: items after it are never parsed, even when
      they would parse on their own. Here `x ) y` yields only `x`. */
  lemma NoResynchronisation(toks: seq<Token>, x: string, y: string)
    requires toks == [Identifier(x), Mark(CloseParen), Identifier(y)]
    ensures Parse(toks) == Parsed([Expr.Function("", [], Variable(x))], false)
    ensures Expression(toks, 2) == Ok(Variable(y), 3)
  {
    var f := Expr.Function("", [], Variable(x));
    ExpressionVariable(toks, 0);
    assert Top(toks, 0) == Ok(f, 1);
    assert Primary(toks, 1) == Fail(1);
    assert ParseFrom(toks, 1) == Parsed([], false);
    assert [f] + [] == [f];
    ExpressionVariable(toks, 2);
  }

  /** `/`, `%`, `=` and `>` have no precedence: `x / y` yields `x`, and the
      `/` then fails to start an item. */
  lemma UntabledOperatorEndsTheProgram(toks: seq<Token>, x: string, op: BinaryOperator, y: string)
    requires op in {Divide, Mod, Equals, Great}
    requires toks == [Identifier(x), Operator(op), Identifier(y)]
    ensures Parse(toks) == Parsed([Expr.Function("", [], Variable(x))], false)
  {
    var f := Expr.Function("", [], Variable(x));
    ExpressionVariable(toks, 0);
    assert Top(toks, 0) == Ok(f, 1);
    assert Primary(toks, 1) == Fail(1);
    assert Top(toks, 1) == Fail(1);
    assert ParseFrom(toks, 1) == Parsed([], false);
    assert [f] + [] == [f];
  }

  // --------------------------------------------------------- identifiers

  /** An identifier alone is a variable. */
  lemma VariableProgram(toks: seq<Token>, id: string)
    requires toks == [Identifier(id)]
    ensures Parse(toks) == Parsed([Expr.Function("", [], Variable(id))], false)
  {
    ExpressionVariable(toks, 0);
    OneTopLevelExpression(toks, Variable(id));
  }

  /** `id()` is a call without arguments. */
  lemma EmptyCall(toks: seq<Token>, id: string)
    requires toks == [Identifier(id), Mark(OpenParen), Mark(CloseParen)]
    ensures Parse(toks) == Parsed([Expr.Function("", [], Call(id, []))], false)
  {
    assert Primary(toks, 0) == Ok(Call(id, []), 3);
    OneTopLevelExpression(toks, Call(id, []));
  }

  /** Argument token runs, separated by commas and closed by `)`. */
  function ArgRun(args: seq<seq<Token>>): (r: seq<Token>)
    requires |args| > 0
    ensures |r| > |args[0]| && r[..|args[0]|] == args[0]
    ensures |args| == 1 ==> r == args[0] + [Mark(CloseParen)]
    ensures |args| > 1 ==> r[|args[0]|] == Mark(Comma) && r[|args[0]| + 1..] == ArgRun(args[1..])
  {
    if |args| == 1 then args[0] + [Mark(CloseParen)]
    else args[0] + [Mark(Comma)] + ArgRun(args[1..])
  }

  /** Comma-separated arguments, each a whole expression on its own, are
      collected in the order written, with the cursor left on the closing
      `)`. */
  lemma {:induction false} ArgsInOrder(toks: seq<Token>, p: nat, args: seq<seq<Token>>, es: seq<Expr>)
    requires |args| > 0 && EachParses(args, es)
    requires Embeds(ArgRun(args), toks, p)
    ensures Args(toks, p) == Ok(es, p + |ArgRun(args)| - 1)
    decreases |args|
  {
    var q := p + |args[0]|;
    EachParsesSplit(args, es);
    FirstArgPlaced(toks, p, args, es[0]);
    if |args| == 1 {
      ArgsLast(toks, p, es, q);
    } else {
      ArgsInOrder(toks, q + 1, args[1..], es[1..]);
      ArgsNext(toks, p, es, q, p + |ArgRun(args)| - 1);
    }
  }

  /** Each token run in `args` is, on its own, the whole expression at the
      same index of `es`. */
  ghost predicate EachParses(args: seq<seq<Token>>, es: seq<Expr>)
  {
    |es| == |args| && forall i :: 0 <= i < |args| ==> Expression(args[i], 0) == Ok(es[i], |args[i]|)
  }

  /** The first run and the others. */
  lemma EachParsesSplit(args: seq<seq<Token>>, es: seq<Expr>)
    requires |args| > 0 && EachParses(args, es)
    ensures Expression(args[0], 0) == Ok(es[0], |args[0]|)
    ensures EachParses(args[1..], es[1..])
  {
    var rest := args[1..];
    forall i | 0 <= i < |rest| ensures Expression(rest[i], 0) == Ok(es[1..][i], |rest[i]|) {
      assert rest[i] == args[i + 1];
    }
  }

  /** The first argument reads the same in place, up to the `,` or `)`
      after it. */
  lemma FirstArgPlaced(toks: seq<Token>, p: nat, args: seq<seq<Token>>, e: Expr)
    requires |args| > 0 && Expression(args[0], 0) == Ok(e, |args[0]|)
    requires Embeds(ArgRun(args), toks, p)
    ensures Expression(toks, p) == Ok(e, p + |args[0]|)
    ensures |args| == 1 ==> toks[p + |args[0]|] == Mark(CloseParen) && |ArgRun(args)| == |args[0]| + 1
    ensures |args| > 1 ==> toks[p + |args[0]|] == Mark(Comma)
    ensures |args| > 1 ==> Embeds(ArgRun(args[1..]), toks, p + |args[0]| + 1)
    ensures |args| > 1 ==> |ArgRun(args)| == |args[0]| + 1 + |ArgRun(args[1..])|
  {
    ArgRunPieces(toks, p, args);
    ExpressionEmbeds(args[0], toks, p, 0, p, e, |args[0]|);
  }

  /** The last argument ends the loop at `)`. */
  lemma ArgsLast(toks: seq<Token>, p: nat, es: seq<Expr>, q: nat)
    requires |es| == 1 && p <= |toks| && Expression(toks, p) == Ok(es[0], q)
    requires q < |toks| && toks[q] == Mark(CloseParen)
    ensures Args(toks, p) == Ok(es, q)
  {
    assert es == [es[0]];
  }

  /** An argument followed by `,` comes before the arguments after it. */
  lemma ArgsNext(toks: seq<Token>, p: nat, es: seq<Expr>, q: nat, j: nat)
    requires |es| > 1 && p <= |toks| && Expression(toks, p) == Ok(es[0], q)
    requires q < |toks| && toks[q] == Mark(Comma) && Args(toks, q + 1) == Ok(es[1..], j)
    ensures Args(toks, p) == Ok(es, j)
  {
    assert es == [es[0]] + es[1..];
  }

  /** Where the first argument and what follows it sit. */
  lemma ArgRunPieces(toks: seq<Token>, p: nat, args: seq<seq<Token>>)
    requires |args| > 0 && Embeds(ArgRun(args), toks, p)
    ensures Embeds(args[0], toks, p)
    ensures |args| == 1 ==> toks[p + |args[0]|] == Mark(CloseParen) && |ArgRun(args)| == |args[0]| + 1
    ensures |args| > 1 ==> toks[p + |args[0]|] == Mark(Comma)
    ensures |args| > 1 ==> Embeds(ArgRun(args[1..]), toks, p + |args[0]| + 1)
    ensures |args| > 1 ==> |ArgRun(args)| == |args[0]| + 1 + |ArgRun(args[1..])|
  {
    var run := ArgRun(args);
    forall k | 0 <= k < |args[0]|
      ensures toks[p + k] == args[0][k]
    {
      assert run[k] == args[0][k];
    }
    assert toks[p + |args[0]|] == run[|args[0]|];
    if |args| > 1 {
      var tail := ArgRun(args[1..]);
      forall k | 0 <= k < |tail|
        ensures toks[p + |args[0]| + 1 + k] == tail[k]
      {
        assert run[|args[0]| + 1 + k] == tail[k];
      }
    }
  }

  /** An expression does not start with `)`. */
  lemma ExpressionStart(run: seq<Token>)
    requires Expression(run, 0).Ok?
    ensures 0 < |run| && run[0] != Mark(CloseParen)
  {
  }

  /** `id(a1, ..., an)` is a call whose arguments are the `ai`, in order,
      wherever it stands; it reads nothing after its `)`. */
  lemma CallArgumentsInOrder(toks: seq<Token>, p: nat, id: string, args: seq<seq<Token>>, es: seq<Expr>)
    requires |args| > 0 && EachParses(args, es)
    requires p + 1 < |toks| && toks[p] == Identifier(id) && toks[p + 1] == Mark(OpenParen)
    requires Embeds(ArgRun(args), toks, p + 2)
    ensures Primary(toks, p) == Ok(Call(id, es), p + 2 + |ArgRun(args)|)
  {
    ArgsInOrder(toks, p + 2, args, es);
    EachParsesSplit(args, es);
    CallAssembled(toks, p, id, args, es);
  }

  /** The name, `(`, and an argument loop that does not start on `)` make
      a call. */
  lemma CallAssembled(toks: seq<Token>, p: nat, id: string, args: seq<seq<Token>>, es: seq<Expr>)
    requires |args| > 0 && Expression(args[0], 0).Ok?
    requires p + 1 < |toks| && toks[p] == Identifier(id) && toks[p + 1] == Mark(OpenParen)
    requires Embeds(ArgRun(args), toks, p + 2)
    requires Args(toks, p + 2) == Ok(es, p + 2 + |ArgRun(args)| - 1)
    ensures Primary(toks, p) == Ok(Call(id, es), p + 2 + |ArgRun(args)|)
  {
    ExpressionStart(args[0]);
    assert toks[p + 2] == ArgRun(args)[0] == args[0][0];
    assert IdentifierExpr(toks, p) == Ok(Call(id, es), p + 2 + |ArgRun(args)|);
  }

  /** "fib(a)" parses to a call with one argument. */
  lemma CallOneArgument(toks: seq<Token>)
    requires toks == [Identifier("fib"), Mark(OpenParen), Identifier("a"), Mark(CloseParen)]
    ensures Parse(toks) == Parsed([Expr.Function("", [], Call("fib", [Variable("a")]))], false)
  {
    var a := [Identifier("a")];
    ExpressionVariable(a, 0);
    assert Embeds(ArgRun([a]), toks, 2);
    CallArgumentsInOrder(toks, 0, "fib", [a], [Variable("a")]);
    WholePrimary(toks, Call("fib", [Variable("a")]));
    OneTopLevelExpression(toks, Call("fib", [Variable("a")]));
  }

  /** "fib(a, b)" parses to a call with two arguments, in order. */
  lemma CallTwoArguments(toks: seq<Token>)
    requires toks == [Identifier("fib"), Mark(OpenParen), Identifier("a"), Mark(Comma), Identifier("b"),
                      Mark(CloseParen)]
    ensures Parse(toks) == Parsed([Expr.Function("", [], Call("fib", [Variable("a"), Variable("b")]))], false)
  {
    var a, b := [Identifier("a")], [Identifier("b")];
    ExpressionVariable(a, 0);
    ExpressionVariable(b, 0);
    assert Embeds(ArgRun([a, b]), toks, 2) by {
      assert [a, b][1..] == [b];
    }
    CallArgumentsInOrder(toks, 0, "fib", [a, b], [Variable("a"), Variable("b")]);
    WholePrimary(toks, Call("fib", [Variable("a"), Variable("b")]));
    OneTopLevelExpression(toks, Call("fib", [Variable("a"), Variable("b")]));
  }

  /** Arguments must be separated by commas: `id(a b)` fails. */
  lemma CallWithoutCommaFails(toks: seq<Token>, id: string, a: string, b: string)
    requires toks == [Identifier(id), Mark(OpenParen), Identifier(a), Identifier(b), Mark(CloseParen)]
    ensures Expression(toks, 0) == Fail(3)
    ensures Parse(toks) == Parsed([], false)
  {
    ExpressionVariable(toks, 2);
    assert Args(toks, 2) == Fail(3);
    assert IdentifierExpr(toks, 0) == Fail(3);
    assert Primary(toks, 0) == Fail(3);
    assert Expression(toks, 0) == Fail(3);
    assert Top(toks, 0) == Fail(3);
  }

  /** An unclosed argument list fails: `id(a` gives nil. */
  lemma UnclosedCallFails(toks: seq<Token>, id: string, a: string)
    requires toks == [Identifier(id), Mark(OpenParen), Identifier(a)]
    ensures Parse(toks) == Parsed([], false)
  {
    ExpressionVariable(toks, 2);
    assert Args(toks, 2) == Fail(3);
    assert IdentifierExpr(toks, 0) == Fail(3);
    assert Primary(toks, 0) == Fail(3);
    assert Expression(toks, 0) == Fail(3);
    assert Top(toks, 0) == Fail(3);
  }

  // ----------------------------------------------------------- prototypes

  /** Each name as an identifier token. */
  function Identifiers(names: seq<string>): (r: seq<Token>)
    ensures |r| == |names|
    ensures forall i :: 0 <= i < |names| ==> r[i] == Identifier(names[i])
  {
    if names == [] then [] else [Identifier(names[0])] + Identifiers(names[1..])
  }

  /** The identifier tokens of `names` sit in `toks` from `p` on. */
  ghost predicate NamesAt(toks: seq<Token>, p: nat, names: seq<string>)
    decreases names
  {
    && p + |names| <= |toks|
    && (names != [] ==> toks[p] == Identifier(names[0]) && NamesAt(toks, p + 1, names[1..]))
  }

  /** `Identifiers(names)` placed at `p` puts the names there. */
  lemma {:induction false} NamesPlaced(toks: seq<Token>, p: nat, names: seq<string>)
    requires Embeds(Identifiers(names), toks, p)
    ensures NamesAt(toks, p, names)
    decreases names
  {
    if names != [] {
      assert toks[p + 0] == Identifiers(names)[0];
      assert Embeds(Identifiers(names[1..]), toks, p + 1) by {
        forall k | 0 <= k < |names| - 1
          ensures toks[p + 1 + k] == Identifiers(names[1..])[k]
        {
          assert toks[p + (k + 1)] == Identifiers(names)[k + 1];
        }
      }
      NamesPlaced(toks, p + 1, names[1..]);
    }
  }

  /** The parameter loop takes exactly the identifiers up to a token that
      is not one. */
  lemma {:induction false} ParamsRun(toks: seq<Token>, p: nat, names: seq<string>)
    requires NamesAt(toks, p, names)
    requires p + |names| < |toks| && !toks[p + |names|].Identifier?
    ensures Params(toks, p) == (names, p + |names|)
    decreases names
  {
    if names != [] {
      ParamsRun(toks, p + 1, names[1..]);
      assert names == [names[0]] + names[1..];
    }
  }

  /** `extern name(p1 p2 ... pn)` is the prototype `name(p1, ..., pn)`:
      parameters are separated by white space only. */
  lemma ExternPrototype(toks: seq<Token>, name: string, names: seq<string>)
    requires toks == [Token.Keyword(Extern), Identifier(name), Mark(OpenParen)] + Identifiers(names)
                     + [Mark(CloseParen)]
    ensures Top(toks, 0) == Ok(Expr.Prototype(name, names), |toks|)
  {
    Framed(toks, [Token.Keyword(Extern), Identifier(name), Mark(OpenParen)], Identifiers(names),
           [Mark(CloseParen)]);
    NamesPlaced(toks, 3, names);
    PrototypeRead(toks, 1, name, names);
  }

  /** A comma between parameters makes the prototype fail. */
  lemma PrototypeRejectsCommas(toks: seq<Token>, name: string, x: string, y: string)
    requires toks == [Token.Keyword(Extern), Identifier(name), Mark(OpenParen), Identifier(x),
                      Mark(Comma), Identifier(y), Mark(CloseParen)]
    ensures Top(toks, 0) == Fail(4)
  {
    ParamsRun(toks, 3, [x]);
  }

  /** `def name(p1 ... pn) body` is the function `name(p1, ..., pn)` with
      that body, for any body that is a whole expression on its own; the
      body reads nothing after itself. */
  lemma DefinitionWithBody(toks: seq<Token>, name: string, names: seq<string>, body: seq<Token>, b: Expr, j: nat)
    requires 3 + |names| < |toks| && toks[0] == Token.Keyword(Def)
    requires toks[1] == Identifier(name) && toks[2] == Mark(OpenParen)
    requires NamesAt(toks, 3, names) && toks[3 + |names|] == Mark(CloseParen)
    requires Embeds(body, toks, |names| + 4) && j == |names| + 4 + |body| && Clear(toks, j)
    requires Expression(body, 0) == Ok(b, |body|)
    ensures Top(toks, 0) == Ok(Expr.Function(name, names, b), j)
  {
    DefinitionPieces(toks, name, names, body, b, j);
    DefinitionAssembled(toks, name, names, |names| + 4, b, j);
  }

  /** The prototype and the body of a definition, read in place. */
  lemma DefinitionPieces(toks: seq<Token>, name: string, names: seq<string>, body: seq<Token>, b: Expr, j: nat)
    requires 3 + |names| < |toks|
    requires toks[1] == Identifier(name) && toks[2] == Mark(OpenParen)
    requires NamesAt(toks, 3, names) && toks[3 + |names|] == Mark(CloseParen)
    requires Embeds(body, toks, |names| + 4) && j == |names| + 4 + |body| && Clear(toks, j)
    requires Expression(body, 0) == Ok(b, |body|)
    ensures PrototypeOf(toks, 1) == Ok(Expr.Prototype(name, names), |names| + 4)
    ensures Expression(toks, |names| + 4) == Ok(b, j)
  {
    PrototypeRead(toks, 1, name, names);
    ExpressionEmbeds(body, toks, |names| + 4, 0, |names| + 4, b, |body|);
  }

  /** `def`, a prototype and an expression make a definition. */
  lemma DefinitionAssembled(toks: seq<Token>, name: string, names: seq<string>, q: nat, b: Expr, j: nat)
    requires 1 < q <= |toks| && toks[0] == Token.Keyword(Def)
    requires PrototypeOf(toks, 1) == Ok(Expr.Prototype(name, names), q)
    requires Expression(toks, q) == Ok(b, j)
    ensures Top(toks, 0) == Ok(Expr.Function(name, names, b), j)
  {
  }

  /** `name(p1 ... pn)` is the prototype `name(p1, ..., pn)`. */
  lemma PrototypeRead(toks: seq<Token>, p: nat, name: string, names: seq<string>)
    requires p + 2 + |names| < |toks| && toks[p] == Identifier(name) && toks[p + 1] == Mark(OpenParen)
    requires NamesAt(toks, p + 2, names) && toks[p + 2 + |names|] == Mark(CloseParen)
    ensures PrototypeOf(toks, p) == Ok(Expr.Prototype(name, names), p + 3 + |names|)
  {
    ParamsRun(toks, p + 2, names);
    PrototypeAssembled(toks, p, name, names, p + 2 + |names|);
  }

  /** A name, `(`, a parameter loop and `)` make a prototype. */
  lemma PrototypeAssembled(toks: seq<Token>, p: nat, name: string, names: seq<string>, s: nat)
    requires p + 2 <= s < |toks| && toks[p] == Identifier(name) && toks[p + 1] == Mark(OpenParen)
    requires Params(toks, p + 2) == (names, s) && toks[s] == Mark(CloseParen)
    ensures PrototypeOf(toks, p) == Ok(Expr.Prototype(name, names), s + 1)
  {
  }

  // ---------------------------------------------------------------- if

  /** `if c then t else e` is the node `if(c, t, e)`, for any condition
      and branches that are whole expressions on their own, wherever the
      `if` stands; it reads nothing after the second branch. */
  lemma IfThenElse(toks: seq<Token>, p: nat, cond: seq<Token>, q: nat, th: seq<Token>, r: nat,
                   el: seq<Token>, u: nat, c: Expr, t: Expr, e: Expr)
    requires p < |toks| && toks[p] == Token.Keyword(Keyword.If)
    requires Embeds(cond, toks, p + 1) && q == p + 1 + |cond| && Expression(cond, 0) == Ok(c, |cond|)
    requires q < |toks| && toks[q] == Token.Keyword(Then)
    requires Embeds(th, toks, q + 1) && r == q + 1 + |th| && Expression(th, 0) == Ok(t, |th|)
    requires r < |toks| && toks[r] == Token.Keyword(Else)
    requires Embeds(el, toks, r + 1) && u == r + 1 + |el| && Expression(el, 0) == Ok(e, |el|)
    requires Clear(toks, u)
    ensures Primary(toks, p) == Ok(Expr.If(c, t, e), u)
  {
    IfPlaced(toks, p, cond, q, th, r, el, u, c, t, e);
    IfAssembled(toks, p, c, q, t, r, e, u);
  }

  /** The condition and the branches read the same in place. */
  lemma IfPlaced(toks: seq<Token>, p: nat, cond: seq<Token>, q: nat, th: seq<Token>, r: nat,
                 el: seq<Token>, u: nat, c: Expr, t: Expr, e: Expr)
    requires p < |toks| && toks[p] == Token.Keyword(Keyword.If)
    requires Embeds(cond, toks, p + 1) && q == p + 1 + |cond| && Expression(cond, 0) == Ok(c, |cond|)
    requires q < |toks| && toks[q] == Token.Keyword(Then)
    requires Embeds(th, toks, q + 1) && r == q + 1 + |th| && Expression(th, 0) == Ok(t, |th|)
    requires r < |toks| && toks[r] == Token.Keyword(Else)
    requires Embeds(el, toks, r + 1) && u == r + 1 + |el| && Expression(el, 0) == Ok(e, |el|)
    requires Clear(toks, u)
    ensures IfReads(toks, p, c, q, t, r, e, u)
  {
    IfPieces(toks, p, cond, q, th, r, el, u, c, t, e);
  }

  /** The condition and the branches, one by one, in place. */
  lemma IfPieces(toks: seq<Token>, p: nat, cond: seq<Token>, q: nat, th: seq<Token>, r: nat,
                 el: seq<Token>, u: nat, c: Expr, t: Expr, e: Expr)
    requires Embeds(cond, toks, p + 1) && q == p + 1 + |cond| && Expression(cond, 0) == Ok(c, |cond|)
    requires q < |toks| && toks[q] == Token.Keyword(Then)
    requires Embeds(th, toks, q + 1) && r == q + 1 + |th| && Expression(th, 0) == Ok(t, |th|)
    requires r < |toks| && toks[r] == Token.Keyword(Else)
    requires Embeds(el, toks, r + 1) && u == r + 1 + |el| && Expression(el, 0) == Ok(e, |el|)
    requires Clear(toks, u)
    ensures Expression(toks, p + 1) == Ok(c, q)
    ensures Expression(toks, q + 1) == Ok(t, r)
    ensures Expression(toks, r + 1) == Ok(e, u)
  {
    ExpressionEmbeds(cond, toks, p + 1, 0, p + 1, c, |cond|);
    ExpressionEmbeds(th, toks, q + 1, 0, q + 1, t, |th|);
    ExpressionEmbeds(el, toks, r + 1, 0, r + 1, e, |el|);
  }

  /** "if x < 3 then 1 else x" parses to `if(x < 3, 1, x)`. */
  lemma IfProgram(toks: seq<Token>)
    requires toks == [Token.Keyword(Keyword.If), Identifier("x"), Operator(Less), Token.Number(3.0),
                      Token.Keyword(Then), Token.Number(1.0), Token.Keyword(Else), Identifier("x")]
    ensures Parse(toks) == Parsed([Expr.Function("", [], Expr.If(Expr.Binary(Variable("x"), Less, Expr.Number(3.0)),
                                                                 Expr.Number(1.0), Variable("x")))], false)
  {
    var cond, th, el := [Identifier("x"), Operator(Less), Token.Number(3.0)], [Token.Number(1.0)], [Identifier("x")];
    var c := Expr.Binary(Variable("x"), Less, Expr.Number(3.0));
    XLessThree(cond);
    assert Primary(th, 0) == Ok(Expr.Number(1.0), 1);
    ExpressionVariable(el, 0);
    assert Embeds(cond, toks, 1) && Embeds(th, toks, 5) && Embeds(el, toks, 7);
    IfThenElse(toks, 0, cond, 4, th, 6, el, 8, c, Expr.Number(1.0), Variable("x"));
    WholePrimary(toks, Expr.If(c, Expr.Number(1.0), Variable("x")));
    OneTopLevelExpression(toks, Expr.If(c, Expr.Number(1.0), Variable("x")));
  }

  /** "x < 3" is a comparison. */
  lemma XLessThree(toks: seq<Token>)
    requires toks == [Identifier("x"), Operator(Less), Token.Number(3.0)]
    ensures Expression(toks, 0) == Ok(Expr.Binary(Variable("x"), Less, Expr.Number(3.0)), 3)
  {
    PrimaryVariable(toks, 0);
    assert Primary(toks, 2) == Ok(Expr.Number(3.0), 3);
    MergeStep(toks, 1, 0, Less, Variable("x"), Expr.Number(3.0), 3);
  }

  /** Without `then` the `if` fails, and nothing is yielded. */
  lemma IfWithoutThenFails(toks: seq<Token>, c: string, e: string)
    requires toks == [Token.Keyword(Keyword.If), Identifier(c), Token.Keyword(Else), Identifier(e)]
    ensures Expression(toks, 0) == Fail(2)
    ensures Parse(toks) == Parsed([], false)
  {
    ExpressionVariable(toks, 1);
    assert IfExpr(toks, 0) == Fail(2);
  }

  /** Without `else` the `if` fails, and nothing is yielded. */
  lemma IfWithoutElseFails(toks: seq<Token>, c: string, t: string)
    requires toks == [Token.Keyword(Keyword.If), Identifier(c), Token.Keyword(Then), Identifier(t)]
    ensures Expression(toks, 0) == Fail(4)
    ensures Parse(toks) == Parsed([], false)
  {
    ExpressionVariable(toks, 1);
    ExpressionVariable(toks, 3);
    assert IfExpr(toks, 0) == Fail(4);
  }

  /** A token that starts no primary (anything but a number, comment,
      identifier, `(` or `if`) fails where an operand is expected. */
  lemma NotAPrimaryFails(toks: seq<Token>, p: nat)
    requires p < |toks|
    requires !toks[p].Number? && !toks[p].Comment? && !toks[p].Identifier?
    requires toks[p] != Mark(OpenParen) && toks[p] != Token.Keyword(Keyword.If)
    ensures Primary(toks, p) == Fail(p)
    ensures Expression(toks, p) == Fail(p)
  {
  }

  // ------------------------------------------------------------ comments

  /** A comment where an operand is expected restarts `next()` on the
      comment itself, and `next()` on a comment comes straight back there:
      the recursion never ends. */
  lemma CommentRestarts(toks: seq<Token>, p: nat)
    requires p < |toks| && toks[p].Comment?
    ensures Primary(toks, p) == Restart(p)
    ensures Top(toks, p) == Restart(p)
  {
    assert Expression(toks, p) == Restart(p);
  }

  /** Whatever restart `next()` runs into, calling `next()` again from
      there runs into the same one: a restart is a fixed point. */
  lemma RestartIsAFixedPoint(toks: seq<Token>, p: nat)
    requires p <= |toks| && Top(toks, p).Restart?
    ensures Top(toks, Top(toks, p).pos) == Top(toks, p)
  {
    CommentRestarts(toks, Top(toks, p).pos);
  }

  /** Without comment tokens `parse()` always returns. */
  lemma {:induction false} NoCommentNoDivergence(toks: seq<Token>, p: nat)
    requires p <= |toks|
    requires forall k :: p <= k < |toks| ==> !toks[k].Comment?
    ensures !ParseFrom(toks, p).diverges
    decreases |toks| - p
  {
    if Top(toks, p).Ok? {
      NoCommentNoDivergence(toks, Top(toks, p).pos);
    }
  }

  /** An expression followed by a comment: the expression is yielded, and
      then `parse()` never returns. */
  lemma CommentAfterExpression(toks: seq<Token>, x: string, text: string)
    requires toks == [Identifier(x), Comment(text)]
    ensures Parse(toks) == Parsed([Expr.Function("", [], Variable(x))], true)
  {
    var f := Expr.Function("", [], Variable(x));
    ExpressionVariable(toks, 0);
    assert Top(toks, 0) == Ok(f, 1);
    CommentRestarts(toks, 1);
    assert ParseFrom(toks, 1) == Parsed([], true);
    assert [f] + [] == [f];
  }

  /** A comment where `)` is expected is an ordinary failure, not a
      restart. */
  lemma CommentInsteadOfCloseParenFails(toks: seq<Token>, id: string, a: string, text: string)
    requires toks == [Identifier(id), Mark(OpenParen), Identifier(a), Comment(text)]
    ensures Parse(toks) == Parsed([], false)
  {
    ExpressionVariable(toks, 2);
    assert Args(toks, 2) == Fail(3);
    assert IdentifierExpr(toks, 0) == Fail(3);
    assert Primary(toks, 0) == Fail(3);
    assert Expression(toks, 0) == Fail(3);
    assert Top(toks, 0) == Fail(3);
  }

  /** A lone comment line lexes to one comment token, on which `parse()`
      never returns. */
  lemma CommentLineNeverParses(s: string, voc: Vocabulary)
    requires |s| > 0 && s[0] == '#'
    requires forall k :: 0 <= k < |s| ==> s[k] != '\n' && s[k] != '\r'
    ensures Parse(Lex(s, voc)) == Parsed([], true)
  {
    LexerProperties.CommentLineIsOneToken(s, voc);
    CommentRestarts(Lex(s, voc), 0);
  }
}
