/**
  Locality of expression parsing: a successful parse reads only the tokens
  it consumes, plus the one token after them, and from that token it asks
  only whether it is `(` and whether it is a tabled operator. So a token run
  that parses on its own parses the same way wherever it is placed, as long
  as the token after it is neither `(` nor a tabled operator.
*/
module ParserLocality {
  import opened Wrappers
  import opened Tokens
  import opened Ast3
  import opened ParserSpec

  /** `s` occurs in `t` at offset `d`. */
  ghost predicate Embeds(s: seq<Token>, t: seq<Token>, d: nat)
  {
    && d + |s| <= |t|
    && forall k :: 0 <= k < |s| ==> t[d + k] == s[k]
  }

  /** The current token at `q` ends an expression as the end of the input
      would: it is not `(` and has no precedence. */
  predicate Clear(t: seq<Token>, q: nat)
  {
    Cur(t, q) != Some(Mark(OpenParen)) && Precedence(Cur(t, q)) < 0
  }

  /** A parse of `s` that ended at `j` reads the same in `t`: it ended
      inside `s`, or what follows `s` in `t` is clear. */
  ghost predicate EndsWell(s: seq<Token>, t: seq<Token>, d: nat, j: nat)
  {
    j < |s| || Clear(t, d + |s|)
  }

  /** Inside `s` the current token is the same in `t`; at the end of `s`
      the two agree on everything a successful parse asks there. Here and
      below `k` is the position in `t` of position `i`, `p` or `q` of `s`. */
  lemma Lookahead(s: seq<Token>, t: seq<Token>, d: nat, q: nat, k: nat)
    requires q <= |s| && Embeds(s, t, d) && k == d + q && EndsWell(s, t, d, q)
    ensures q < |s| ==> Cur(t, k) == Cur(s, q)
    ensures Precedence(Cur(t, k)) == Precedence(Cur(s, q))
    ensures Cur(t, k) == Some(Mark(OpenParen)) <==> Cur(s, q) == Some(Mark(OpenParen))
  {
    if q < |s| {
      assert t[d + q] == s[q];
    }
  }

  /** The operator at `p`, taken at level `prec`, has a right operand `rhs`
      ending at `q`, and the operator after it binds no more tightly. */
  ghost predicate Merges(toks: seq<Token>, p: nat, prec: int, op: BinaryOperator, rhs: Expr, q: nat)
  {
    && p < |toks| && toks[p] == Operator(op)
    && prec <= Precedence(Cur(toks, p))
    && Primary(toks, p + 1) == Ok(rhs, q)
    && Precedence(Cur(toks, q)) <= Precedence(Cur(toks, p))
  }

  /** The operator at `p`, of precedence `tokenPrec` and taken at level
      `prec`, has a right operand `rhs` ending at `q`; the operator after it
      binds more tightly and the loop one level up makes `rhs'` of it,
      ending at `s`. */
  ghost predicate Climbs(toks: seq<Token>, p: nat, prec: int, op: BinaryOperator, tokenPrec: int,
                         rhs: Expr, q: nat, rhs': Expr, s: nat)
  {
    && p < |toks| && toks[p] == Operator(op) && tokenPrec == Precedence(Cur(toks, p))
    && prec <= tokenPrec
    && Primary(toks, p + 1) == Ok(rhs, q)
    && tokenPrec < Precedence(Cur(toks, q))
    && BinOpRHS(toks, q, tokenPrec + 1, rhs) == Ok(rhs', s)
  }

  /** One turn of the loop of `parseBinOpRHS` when the operator after the
      right operand binds no more tightly: the operands are merged and the
      loop goes on after the right operand. */
  lemma MergeStep(toks: seq<Token>, p: nat, prec: int, op: BinaryOperator, lhs: Expr, rhs: Expr, q: nat)
    requires Merges(toks, p, prec, op, rhs, q)
    ensures q <= |toks|
    ensures BinOpRHS(toks, p, prec, lhs) == BinOpRHS(toks, q, prec, Expr.Binary(lhs, op, rhs))
  {
  }

  /** One turn of the loop of `parseBinOpRHS` when the operator after the
      right operand binds more tightly: that operator first takes the right
      operand as its left one, at a precedence one above the current
      operator's. */
  lemma ClimbStep(toks: seq<Token>, p: nat, prec: int, op: BinaryOperator, tokenPrec: int, lhs: Expr,
                  rhs: Expr, q: nat, rhs': Expr, s: nat)
    requires Climbs(toks, p, prec, op, tokenPrec, rhs, q, rhs', s)
    ensures s <= |toks|
    ensures BinOpRHS(toks, p, prec, lhs) == BinOpRHS(toks, s, prec, Expr.Binary(lhs, op, rhs'))
  {
  }

  /** `MergeStep`, read from the end of the turn back to its start. */
  lemma MergeStepTo(toks: seq<Token>, p: nat, prec: int, op: BinaryOperator, lhs: Expr, rhs: Expr, q: nat,
                    e: Expr, j: nat)
    requires Merges(toks, p, prec, op, rhs, q)
    requires BinOpRHS(toks, q, prec, Expr.Binary(lhs, op, rhs)) == Ok(e, j)
    ensures BinOpRHS(toks, p, prec, lhs) == Ok(e, j)
  {
  }

  /** `ClimbStep`, read from the end of the turn back to its start. */
  lemma ClimbStepTo(toks: seq<Token>, p: nat, prec: int, op: BinaryOperator, tokenPrec: int, lhs: Expr,
                    rhs: Expr, q: nat, rhs': Expr, s: nat, e: Expr, j: nat)
    requires Climbs(toks, p, prec, op, tokenPrec, rhs, q, rhs', s)
    requires BinOpRHS(toks, s, prec, Expr.Binary(lhs, op, rhs')) == Ok(e, j)
    ensures BinOpRHS(toks, p, prec, lhs) == Ok(e, j)
  {
  }

  /** `parseExpression()` succeeds in `t` exactly as in `s`. */
  lemma ExpressionEmbeds(s: seq<Token>, t: seq<Token>, d: nat, i: nat, k: nat, e: Expr, j: nat)
    requires i <= |s| && Embeds(s, t, d) && k == d + i
    requires Expression(s, i) == Ok(e, j) && EndsWell(s, t, d, j)
    ensures Expression(t, k) == Ok(e, d + j)
    decreases |s| - i, 7
  {
    var lhs := Primary(s, i);
    assert lhs.Ok?;
    PrimaryEmbeds(s, t, d, i, k, lhs.value, lhs.pos);
    BinOpRHSEmbeds(s, t, d, lhs.pos, d + lhs.pos, 0, lhs.value, e, j);
  }

  /** An expression followed by a token of `s` parses in `t` as in `s`, and
      `t` holds the same token after it. */
  lemma ExpressionFollowed(s: seq<Token>, t: seq<Token>, d: nat, p: nat, k: nat, e: Expr, q: nat)
    requires p <= |s| && Embeds(s, t, d) && k == d + p
    requires Expression(s, p) == Ok(e, q) && q < |s|
    ensures Expression(t, k) == Ok(e, d + q)
    ensures Cur(t, d + q) == Cur(s, q)
    decreases |s| - p, 8
  {
    ExpressionEmbeds(s, t, d, p, k, e, q);
    Lookahead(s, t, d, q, d + q);
  }

  /** The precedence-climbing loop succeeds in `t` exactly as in `s`. */
  lemma BinOpRHSEmbeds(s: seq<Token>, t: seq<Token>, d: nat, p: nat, k: nat, prec: int, lhs: Expr,
                       e: Expr, j: nat)
    requires p <= |s| && Embeds(s, t, d) && k == d + p
    requires BinOpRHS(s, p, prec, lhs) == Ok(e, j) && EndsWell(s, t, d, j)
    ensures BinOpRHS(t, k, prec, lhs) == Ok(e, d + j)
    decreases |s| - p, 6
  {
    Lookahead(s, t, d, p, k);
    if Precedence(Cur(s, p)) >= prec {
      var rhs := Primary(s, p + 1);
      assert rhs.Ok?;
      if Precedence(Cur(s, p)) < Precedence(Cur(s, rhs.pos)) {
        var inner := BinOpRHS(s, rhs.pos, Precedence(Cur(s, p)) + 1, rhs.value);
        assert inner.Ok?;
        ClimbEmbeds(s, t, d, p, k, prec, lhs, s[p].op, rhs.value, rhs.pos, inner.value, inner.pos, e, j);
      } else {
        MergeEmbeds(s, t, d, p, k, prec, lhs, s[p].op, rhs.value, rhs.pos, e, j);
      }
    }
  }

  /** A turn of the loop that merges the operands reads the same in `t`. */
  lemma MergeEmbeds(s: seq<Token>, t: seq<Token>, d: nat, p: nat, k: nat, prec: int, lhs: Expr,
                    op: BinaryOperator, rhs: Expr, q: nat, e: Expr, j: nat)
    requires Embeds(s, t, d) && k == d + p && Merges(s, p, prec, op, rhs, q)
    requires BinOpRHS(s, p, prec, lhs) == Ok(e, j) && EndsWell(s, t, d, j)
    ensures BinOpRHS(t, k, prec, lhs) == Ok(e, d + j)
    decreases |s| - p, 5
  {
    MergeStep(s, p, prec, op, lhs, rhs, q);
    MergeRest(s, t, d, p, k, prec, lhs, op, rhs, q, e, j);
  }

  /** After the merge in `s`, the loop goes on the same way in `t`. */
  lemma MergeRest(s: seq<Token>, t: seq<Token>, d: nat, p: nat, k: nat, prec: int, lhs: Expr,
                  op: BinaryOperator, rhs: Expr, q: nat, e: Expr, j: nat)
    requires Embeds(s, t, d) && k == d + p && Merges(s, p, prec, op, rhs, q)
    requires BinOpRHS(s, q, prec, Expr.Binary(lhs, op, rhs)) == Ok(e, j) && EndsWell(s, t, d, j)
    ensures BinOpRHS(t, k, prec, lhs) == Ok(e, d + j)
    decreases |s| - p, 4
  {
    BinOpRHSEmbeds(s, t, d, q, d + q, prec, Expr.Binary(lhs, op, rhs), e, j);
    MergeInT(s, t, d, p, k, prec, lhs, op, rhs, q, e, d + j);
  }

  /** The turn merges in `t` too. */
  lemma MergeInT(s: seq<Token>, t: seq<Token>, d: nat, p: nat, k: nat, prec: int, lhs: Expr,
                 op: BinaryOperator, rhs: Expr, q: nat, e: Expr, j: nat)
    requires Embeds(s, t, d) && k == d + p && Merges(s, p, prec, op, rhs, q) && EndsWell(s, t, d, q)
    requires d + q <= |t| && BinOpRHS(t, d + q, prec, Expr.Binary(lhs, op, rhs)) == Ok(e, j)
    ensures BinOpRHS(t, k, prec, lhs) == Ok(e, j)
    decreases |s| - p, 3
  {
    MergeInPlace(s, t, d, p, k, prec, op, rhs, q);
    MergeStepTo(t, k, prec, op, lhs, rhs, d + q, e, j);
  }

  /** The operator and its right operand read the same in `t`, so the turn
      merges there as well. */
  lemma MergeInPlace(s: seq<Token>, t: seq<Token>, d: nat, p: nat, k: nat, prec: int,
                     op: BinaryOperator, rhs: Expr, q: nat)
    requires Embeds(s, t, d) && k == d + p && Merges(s, p, prec, op, rhs, q) && EndsWell(s, t, d, q)
    ensures Merges(t, k, prec, op, rhs, d + q)
    decreases |s| - p, 2
  {
    OperandEmbeds(s, t, d, p, k, rhs, q);
  }

  /** The operand after the operator at `p` parses in `t` as in `s`, and
      the two agree on the operator and on the precedence after it. */
  lemma OperandEmbeds(s: seq<Token>, t: seq<Token>, d: nat, p: nat, k: nat, rhs: Expr, q: nat)
    requires p < |s| && Embeds(s, t, d) && k == d + p
    requires Primary(s, p + 1) == Ok(rhs, q) && EndsWell(s, t, d, q)
    ensures k < |t| && t[k] == s[p] && Cur(t, k) == Cur(s, p)
    ensures Primary(t, k + 1) == Ok(rhs, d + q)
    ensures Precedence(Cur(t, d + q)) == Precedence(Cur(s, q))
    decreases |s| - p, 0
  {
    assert t[k] == s[p];
    PrimaryEmbeds(s, t, d, p + 1, k + 1, rhs, q);
    Lookahead(s, t, d, q, d + q);
  }

  /** A turn of the loop that first lets a tighter operator take the right
      operand reads the same in `t`. */
  lemma ClimbEmbeds(s: seq<Token>, t: seq<Token>, d: nat, p: nat, k: nat, prec: int, lhs: Expr,
                    op: BinaryOperator, rhs: Expr, q: nat, rhs': Expr, u: nat, e: Expr, j: nat)
    requires Embeds(s, t, d) && k == d + p
    requires Climbs(s, p, prec, op, Precedence(Cur(s, p)), rhs, q, rhs', u)
    requires BinOpRHS(s, p, prec, lhs) == Ok(e, j) && EndsWell(s, t, d, j)
    ensures BinOpRHS(t, k, prec, lhs) == Ok(e, d + j)
    decreases |s| - p, 5
  {
    ClimbStep(s, p, prec, op, Precedence(Cur(s, p)), lhs, rhs, q, rhs', u);
    ClimbRest(s, t, d, p, k, prec, lhs, op, rhs, q, rhs', u, e, j);
  }

  /** After the climb in `s`, the loop goes on the same way in `t`. */
  lemma ClimbRest(s: seq<Token>, t: seq<Token>, d: nat, p: nat, k: nat, prec: int, lhs: Expr,
                  op: BinaryOperator, rhs: Expr, q: nat, rhs': Expr, u: nat, e: Expr, j: nat)
    requires Embeds(s, t, d) && k == d + p
    requires Climbs(s, p, prec, op, Precedence(Cur(s, p)), rhs, q, rhs', u)
    requires BinOpRHS(s, u, prec, Expr.Binary(lhs, op, rhs')) == Ok(e, j) && EndsWell(s, t, d, j)
    ensures BinOpRHS(t, k, prec, lhs) == Ok(e, d + j)
    decreases |s| - p, 4
  {
    BinOpRHSEmbeds(s, t, d, u, d + u, prec, Expr.Binary(lhs, op, rhs'), e, j);
    ClimbInT(s, t, d, p, k, prec, lhs, op, rhs, q, rhs', u, e, d + j);
  }

  /** The turn climbs in `t` too. */
  lemma ClimbInT(s: seq<Token>, t: seq<Token>, d: nat, p: nat, k: nat, prec: int, lhs: Expr,
                 op: BinaryOperator, rhs: Expr, q: nat, rhs': Expr, u: nat, e: Expr, j: nat)
    requires Embeds(s, t, d) && k == d + p
    requires Climbs(s, p, prec, op, Precedence(Cur(s, p)), rhs, q, rhs', u) && EndsWell(s, t, d, u)
    requires d + u <= |t| && BinOpRHS(t, d + u, prec, Expr.Binary(lhs, op, rhs')) == Ok(e, j)
    ensures BinOpRHS(t, k, prec, lhs) == Ok(e, j)
    decreases |s| - p, 3
  {
    ClimbInPlace(s, t, d, p, k, prec, op, rhs, q, rhs', u);
    ClimbStepTo(t, k, prec, op, Precedence(Cur(s, p)), lhs, rhs, d + q, rhs', d + u, e, j);
  }

  /** The operator, its right operand and the tighter operators after it
      read the same in `t`, so the turn climbs there as well. */
  lemma ClimbInPlace(s: seq<Token>, t: seq<Token>, d: nat, p: nat, k: nat, prec: int,
                     op: BinaryOperator, rhs: Expr, q: nat, rhs': Expr, u: nat)
    requires Embeds(s, t, d) && k == d + p
    requires Climbs(s, p, prec, op, Precedence(Cur(s, p)), rhs, q, rhs', u) && EndsWell(s, t, d, u)
    ensures Climbs(t, k, prec, op, Precedence(Cur(s, p)), rhs, d + q, rhs', d + u)
    decreases |s| - p, 2
  {
    ClimbOperand(s, t, d, p, k, prec, op, rhs, q, rhs', u);
  }

  /** The pieces of a climbing turn, one by one, in `t`. */
  lemma ClimbOperand(s: seq<Token>, t: seq<Token>, d: nat, p: nat, k: nat, prec: int,
                     op: BinaryOperator, rhs: Expr, q: nat, rhs': Expr, u: nat)
    requires Embeds(s, t, d) && k == d + p
    requires Climbs(s, p, prec, op, Precedence(Cur(s, p)), rhs, q, rhs', u) && EndsWell(s, t, d, u)
    ensures k < |t| && t[k] == s[p] && Precedence(Cur(t, k)) == Precedence(Cur(s, p))
    ensures Primary(t, k + 1) == Ok(rhs, d + q)
    ensures Precedence(Cur(s, p)) < Precedence(Cur(t, d + q))
    ensures BinOpRHS(t, d + q, Precedence(Cur(s, p)) + 1, rhs) == Ok(rhs', d + u)
    decreases |s| - p, 1
  {
    OperandEmbeds(s, t, d, p, k, rhs, q);
    BinOpRHSEmbeds(s, t, d, q, d + q, Precedence(Cur(s, p)) + 1, rhs, rhs', u);
  }

  /** `parsePrimary()` succeeds in `t` exactly as in `s`. */
  lemma PrimaryEmbeds(s: seq<Token>, t: seq<Token>, d: nat, i: nat, k: nat, e: Expr, j: nat)
    requires i <= |s| && Embeds(s, t, d) && k == d + i
    requires Primary(s, i) == Ok(e, j) && EndsWell(s, t, d, j)
    ensures Primary(t, k) == Ok(e, d + j)
    decreases |s| - i, 5
  {
    Lookahead(s, t, d, i, k);
    match s[i]
    case Identifier(_) => IdentifierExprEmbeds(s, t, d, i, k, e, j);
    case Mark(OpenParen) => ParenExprEmbeds(s, t, d, i, k, e, j);
    case Keyword(If) => IfExprEmbeds(s, t, d, i, k, e, j);
    case _ =>
  }

  /** `parseParenExpr()` succeeds in `t` exactly as in `s`; it reads
      nothing after its `)`. */
  lemma ParenExprEmbeds(s: seq<Token>, t: seq<Token>, d: nat, i: nat, k: nat, e: Expr, j: nat)
    requires i < |s| && Embeds(s, t, d) && k == d + i
    requires ParenExpr(s, i) == Ok(e, j)
    ensures ParenExpr(t, k) == Ok(e, d + j)
    decreases |s| - i, 2
  {
    var inner := Expression(s, i + 1);
    assert inner.Ok? && inner.pos < |s|;
    ExpressionFollowed(s, t, d, i + 1, k + 1, inner.value, inner.pos);
  }

  /** `parseIdentifierExpr()` succeeds in `t` exactly as in `s`. */
  lemma IdentifierExprEmbeds(s: seq<Token>, t: seq<Token>, d: nat, i: nat, k: nat, e: Expr, j: nat)
    requires i < |s| && Embeds(s, t, d) && k == d + i
    requires IdentifierExpr(s, i) == Ok(e, j) && EndsWell(s, t, d, j)
    ensures IdentifierExpr(t, k) == Ok(e, d + j)
    decreases |s| - i, 2
  {
    Lookahead(s, t, d, i, k);
    Lookahead(s, t, d, i + 1, k + 1);
    if Cur(s, i + 1) == Some(Mark(OpenParen)) {
      Lookahead(s, t, d, i + 2, k + 2);
      if Cur(s, i + 2) != Some(Mark(CloseParen)) {
        var args := Args(s, i + 2);
        assert args.Ok?;
        ArgsEmbeds(s, t, d, i + 2, k + 2, args.value, args.pos);
      }
    }
  }

  /** The argument loop succeeds in `t` exactly as in `s`; it reads nothing
      after the closing `)`. */
  lemma ArgsEmbeds(s: seq<Token>, t: seq<Token>, d: nat, p: nat, k: nat, es: seq<Expr>, j: nat)
    requires p <= |s| && Embeds(s, t, d) && k == d + p
    requires Args(s, p) == Ok(es, j)
    ensures Args(t, k) == Ok(es, d + j)
    decreases |s| - p, 9
  {
    var first := Expression(s, p);
    assert first.Ok? && first.pos < |s|;
    ExpressionFollowed(s, t, d, p, k, first.value, first.pos);
    if Cur(s, first.pos) != Some(Mark(CloseParen)) {
      var rest := Args(s, first.pos + 1);
      assert rest.Ok?;
      ArgsEmbeds(s, t, d, first.pos + 1, d + first.pos + 1, rest.value, rest.pos);
    }
  }

  /** `parseIfExpr()` succeeds in `t` exactly as in `s`. */
  lemma IfExprEmbeds(s: seq<Token>, t: seq<Token>, d: nat, i: nat, k: nat, e: Expr, j: nat)
    requires i < |s| && Embeds(s, t, d) && k == d + i && s[i] == Token.Keyword(Keyword.If)
    requires IfExpr(s, i) == Ok(e, j) && EndsWell(s, t, d, j)
    ensures IfExpr(t, k) == Ok(e, d + j)
    decreases |s| - i, 4
  {
    var c := Expression(s, i + 1);
    var th := Expression(s, c.pos + 1);
    var el := Expression(s, th.pos + 1);
    IfParts(s, i);
    IfEmbedsAt(s, t, d, i, k, c.value, c.pos, th.value, th.pos, el.value, el.pos);
  }

  /** An `if` read in `s` makes the same node in `t`. */
  lemma IfEmbedsAt(s: seq<Token>, t: seq<Token>, d: nat, i: nat, k: nat,
                   c: Expr, q: nat, th: Expr, r: nat, el: Expr, u: nat)
    requires Embeds(s, t, d) && k == d + i
    requires IfReads(s, i, c, q, th, r, el, u) && EndsWell(s, t, d, u)
    ensures IfExpr(t, k) == Ok(Expr.If(c, th, el), d + u)
    decreases |s| - i, 3
  {
    IfReadsEmbed(s, t, d, i, k, c, q, th, r, el, u);
    IfAssembled(t, k, c, d + q, th, d + r, el, d + u);
  }

  /** An `if` read in `s` is read the same way in `t`. */
  lemma IfReadsEmbed(s: seq<Token>, t: seq<Token>, d: nat, i: nat, k: nat,
                     c: Expr, q: nat, th: Expr, r: nat, el: Expr, u: nat)
    requires Embeds(s, t, d) && k == d + i
    requires IfReads(s, i, c, q, th, r, el, u) && EndsWell(s, t, d, u)
    ensures IfReads(t, k, c, d + q, th, d + r, el, d + u)
    decreases |s| - i, 2
  {
    IfPiecesEmbed(s, t, d, i, k, c, q, th, r, el, u);
  }

  /** The pieces of an `if` read in `s`, one by one, in `t`. */
  lemma IfPiecesEmbed(s: seq<Token>, t: seq<Token>, d: nat, i: nat, k: nat,
                      c: Expr, q: nat, th: Expr, r: nat, el: Expr, u: nat)
    requires Embeds(s, t, d) && k == d + i
    requires IfReads(s, i, c, q, th, r, el, u) && EndsWell(s, t, d, u)
    ensures k < |t| && t[k] == Token.Keyword(Keyword.If)
    ensures Expression(t, k + 1) == Ok(c, d + q) && d + q < |t| && t[d + q] == Token.Keyword(Then)
    ensures Expression(t, d + q + 1) == Ok(th, d + r) && d + r < |t| && t[d + r] == Token.Keyword(Else)
    ensures Expression(t, d + r + 1) == Ok(el, d + u)
    decreases |s| - i, 1
  {
    IfHeadEmbed(s, t, d, i, k, c, q, th, r);
    ExpressionEmbeds(s, t, d, r + 1, d + r + 1, el, u);
  }

  /** The `if`, its condition, `then`, the first branch and `else`, read
      in `s`, are read the same way in `t`. */
  lemma IfHeadEmbed(s: seq<Token>, t: seq<Token>, d: nat, i: nat, k: nat, c: Expr, q: nat, th: Expr, r: nat)
    requires i < |s| && Embeds(s, t, d) && k == d + i && s[i] == Token.Keyword(Keyword.If)
    requires Expression(s, i + 1) == Ok(c, q) && q < |s| && s[q] == Token.Keyword(Then)
    requires Expression(s, q + 1) == Ok(th, r) && r < |s| && s[r] == Token.Keyword(Else)
    ensures k < |t| && t[k] == Token.Keyword(Keyword.If)
    ensures Expression(t, k + 1) == Ok(c, d + q) && d + q < |t| && t[d + q] == Token.Keyword(Then)
    ensures Expression(t, d + q + 1) == Ok(th, d + r) && d + r < |t| && t[d + r] == Token.Keyword(Else)
    decreases |s| - i, 0
  {
    assert t[d + i] == s[i];
    ExpressionFollowed(s, t, d, i + 1, k + 1, c, q);
    ExpressionFollowed(s, t, d, q + 1, d + q + 1, th, r);
  }

  /** What a successful `parseIfExpr()` has read. */
  lemma IfParts(s: seq<Token>, i: nat)
    requires i < |s| && s[i] == Token.Keyword(Keyword.If) && IfExpr(s, i).Ok?
    ensures var c := Expression(s, i + 1);
            && c.Ok? && c.pos < |s| && Cur(s, c.pos) == Some(Keyword(Then))
            && var th := Expression(s, c.pos + 1);
            && th.Ok? && th.pos < |s| && Cur(s, th.pos) == Some(Keyword(Else))
            && var el := Expression(s, th.pos + 1);
            && el.Ok? && IfExpr(s, i) == Ok(Expr.If(c.value, th.value, el.value), el.pos)
            && IfReads(s, i, c.value, c.pos, th.value, th.pos, el.value, el.pos)
  {
  }

  /** From `p` on, the tokens read `if`, a condition `c` ending at `q`,
      `then`, a branch `th` ending at `r`, `else` and a branch `el` ending at
      `u`. */
  ghost predicate IfReads(t: seq<Token>, p: nat, c: Expr, q: nat, th: Expr, r: nat, el: Expr, u: nat)
  {
    && p < |t| && t[p] == Token.Keyword(Keyword.If)
    && Expression(t, p + 1) == Ok(c, q) && q < |t| && t[q] == Token.Keyword(Then)
    && Expression(t, q + 1) == Ok(th, r) && r < |t| && t[r] == Token.Keyword(Else)
    && Expression(t, r + 1) == Ok(el, u)
  }

  /** A condition, `then`, a branch, `else` and a branch make an `if`. */
  lemma IfAssembled(t: seq<Token>, p: nat, c: Expr, q: nat, th: Expr, r: nat, el: Expr, u: nat)
    requires IfReads(t, p, c, q, th, r, el, u)
    ensures IfExpr(t, p) == Ok(Expr.If(c, th, el), u)
    ensures Primary(t, p) == Ok(Expr.If(c, th, el), u)
  {
  }
}
