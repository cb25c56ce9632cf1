/** Properties of the `description` printer of the later syntax tree. */
module AstProperties {
  import opened Wrappers
  import opened Tokens
  import opened Ast

  /** `joined(separator:)` puts the separator between the last two parts. */
  lemma {:induction false} JoinSnoc(parts: seq<string>, last: string, sep: string)
    requires |parts| > 0
    ensures Join(parts + [last], sep) == Join(parts, sep) + sep + last
    decreases |parts|
  {
    if |parts| == 1 {
      assert (parts + [last])[1..] == [last];
    } else {
      assert (parts + [last])[1..] == parts[1..] + [last];
      JoinSnoc(parts[1..], last, sep);
      assert parts[0] + sep + (Join(parts[1..], sep) + sep + last)
             == parts[0] + sep + Join(parts[1..], sep) + sep + last;
    }
  }

  /** Describing one more argument adds its description at the end. */
  lemma {:induction false} DescribeAllSnoc(es: seq<Expr>, e: Expr, pr: Printers)
    ensures DescribeAll(es + [e], pr) == DescribeAll(es, pr) + [Describe(e, pr)]
    decreases |es|
  {
    if |es| == 0 {
      assert es + [e] == [e];
    } else {
      assert (es + [e])[1..] == es[1..] + [e];
      DescribeAllSnoc(es[1..], e, pr);
    }
  }

  /** A call prints its arguments in order, separated by one space and no
      comma: one more argument adds a space and its description before the
      closing parenthesis. */
  lemma CallArgumentsSpaced(name: string, args: seq<Expr>, e: Expr, pr: Printers)
    requires |args| > 0
    ensures var before := Describe(Call(name, args), pr);
            Describe(Call(name, args + [e]), pr)
            == before[..|before| - 1] + " " + Describe(e, pr) + ")"
  {
    var before := Describe(Call(name, args), pr);
    var inner := Join(DescribeAll(args, pr), " ");
    DescribeAllSnoc(args, e, pr);
    JoinSnoc(DescribeAll(args, pr), Describe(e, pr), " ");
    assert before == name + "(" + inner + ")";
    assert before[..|before| - 1] == name + "(" + inner;
  }

  /** `joined(separator:)` starts with the first part and ends with the
      last. */
  lemma {:induction false} JoinEnds(parts: seq<string>, sep: string)
    requires |parts| > 0
    ensures var r, first, last := Join(parts, sep), parts[0], parts[|parts| - 1];
            |r| >= |first| && r[..|first|] == first && |r| >= |last| && r[|r| - |last|..] == last
    decreases |parts|
  {
    if |parts| > 1 {
      var tail := Join(parts[1..], sep);
      JoinEnds(parts[1..], sep);
      assert parts[1..][|parts| - 2] == parts[|parts| - 1];
      assert Join(parts, sep) == parts[0] + (sep + tail);
    }
  }

  /** A call without arguments prints an empty pair of parentheses. */
  lemma CallWithoutArguments(name: string, pr: Printers)
    ensures Describe(Call(name, []), pr) == name + "()"
  {
  }

  /** A binary node is printed in parentheses, whatever its operands;
      inside them are the operands separated by the operator's case name
      with one space on each side. */
  lemma BinaryIsParenthesised(lhs: Expr, op: BinaryOperator, rhs: Expr, pr: Printers)
    ensures var d := Describe(Expr.Binary(lhs, op, rhs), pr);
            |d| >= 4 + |op.CaseName()| && d[0] == '(' && d[|d| - 1] == ')'
    ensures var d := Describe(Expr.Binary(lhs, op, rhs), pr);
            var l, o := Describe(lhs, pr), op.CaseName();
            && d[1..1 + |l|] == l
            && d[1 + |l|..3 + |l| + |o|] == " " + o + " "
            && d[3 + |l| + |o|..|d| - 1] == Describe(rhs, pr)
    ensures var d := Describe(Expr.Binary(lhs, op, rhs), pr);
            d[1..|d| - 1] == Describe(lhs, pr) + " " + op.CaseName() + " " + Describe(rhs, pr)
  {
    BinaryText(lhs, op, rhs, pr);
    Spaced(Describe(lhs, pr), op.CaseName(), Describe(rhs, pr));
  }

  /** One unfolding of the printer at a binary node. */
  lemma BinaryText(lhs: Expr, op: BinaryOperator, rhs: Expr, pr: Printers)
    ensures Describe(Expr.Binary(lhs, op, rhs), pr)
            == "(" + Describe(lhs, pr) + " " + op.CaseName() + " " + Describe(rhs, pr) + ")"
  {
  }

  /** Where the pieces of `(l o r)` sit. */
  lemma Spaced(l: string, o: string, r: string)
    ensures var d := "(" + l + " " + o + " " + r + ")";
            && |d| == |l| + |o| + |r| + 4 && d[0] == '(' && d[|d| - 1] == ')'
            && d[1..1 + |l|] == l
            && d[1 + |l|..3 + |l| + |o|] == " " + o + " "
            && d[3 + |l| + |o|..|d| - 1] == r
            && d[1..|d| - 1] == l + " " + o + " " + r
  {
    var d := "(" + l + " " + o + " " + r + ")";
    var spaced := " " + o + " ";
    assert d == ("(" + l) + spaced + (r + ")");
    assert d[1..1 + |l|] == ("(" + l)[1..];
    assert d[1 + |l|..3 + |l| + |o|] == spaced;
    assert d[3 + |l| + |o|..|d| - 1] == (r + ")")[..|r|];
    assert d == "(" + (l + " " + o + " " + r) + ")";
  }

  /** A prototype prints as an `extern` declaration whatever its kind and
      precedence. */
  lemma PrototypeIgnoresKind(p: Prototype, kind: Kind, precedence: int, pr: Printers)
    ensures Describe(Expr.Prototype(p.(kind := kind, precedence := precedence)), pr)
            == Describe(Expr.Prototype(p), pr)
    ensures Describe(Expr.Prototype(p), pr)[..7] == "extern "
  {
  }

  /** Functions and unary operators print alike, and neither shows its
      precedence. */
  lemma FunctionAndUnaryAlike(p: Prototype, precedence: int, body: Expr, pr: Printers)
    ensures Describe(Expr.Function(p.(kind := FunctionKind), body), pr)
            == Describe(Expr.Function(p.(kind := UnaryKind, precedence := precedence), body), pr)
  {
  }

  /** A binary operator's definition prints as a function's would, with its
      precedence and a space inserted between the name and the parameter
      list. */
  lemma BinaryShowsPrecedence(p: Prototype, body: Expr, pr: Printers)
    ensures var head := "def " + p.name;
            var plain := Describe(Expr.Function(p.(kind := FunctionKind), body), pr);
            Describe(Expr.Function(p.(kind := BinaryKind), body), pr)
            == head + " " + pr.precedence(p.precedence) + " " + plain[|head|..]
  {
    PrecedenceInserted(p.name, pr.precedence(p.precedence), Join(p.arguments, " "), Describe(body, pr));
  }

  /** The text of a binary operator's definition is that of a function's
      with the precedence inserted after the name. */
  lemma PrecedenceInserted(name: string, precedence: string, arguments: string, body: string)
    ensures var head := "def " + name;
            var plain := "def " + name + "(" + arguments + ") {\n" + body + "\n}";
            "def " + name + " " + precedence + " (" + arguments + ") {\n" + body + "\n}"
            == head + " " + precedence + " " + plain[|head|..]
  {
    var head := "def " + name;
    var rest := "(" + arguments + ") {\n" + body + "\n}";
    var plain := "def " + name + "(" + arguments + ") {\n" + body + "\n}";
    assert plain == head + rest;
    assert plain[|head|..] == rest;
    assert " (" == " " + "(";
  }

  /** A `for` loop prints `, step` after the end value exactly when it has
      a step, and is otherwise printed the same. */
  lemma ForStepOnlyWhenPresent(name: string, start: Expr, end: Expr, step: Expr, body: Expr, pr: Printers)
    ensures var without := Describe(Expr.For(name, start, end, None, body), pr);
            var k := |ForHead(name, start, end, pr)|;
            Describe(Expr.For(name, start, end, Some(step), body), pr)
            == without[..k] + ", " + Describe(step, pr) + without[k..]
  {
    ForParts(name, start, end, None, body, pr);
    ForParts(name, start, end, Some(step), body, pr);
    Inserted(ForHead(name, start, end, pr), ", " + Describe(step, pr), " in\n    " + Describe(body, pr));
  }

  /** The text of a `for` loop up to its end value. */
  function ForHead(name: string, start: Expr, end: Expr, pr: Printers): string
  {
    "for " + name + " = " + Describe(start, pr) + " , " + Describe(end, pr)
  }

  /** A `for` loop prints as its head, the step if any, and its body. */
  lemma ForParts(name: string, start: Expr, end: Expr, step: Option<Expr>, body: Expr, pr: Printers)
    ensures Describe(Expr.For(name, start, end, step, body), pr)
            == ForHead(name, start, end, pr) + (if step.Some? then ", " + Describe(step.value, pr) else "")
               + " in\n    " + Describe(body, pr)
  {
  }

  /** Splitting `head + tail` after `head` and inserting `middle` there. */
  lemma Inserted(head: string, middle: string, tail: string)
    ensures (head + tail)[..|head|] + middle + (head + tail)[|head|..] == head + middle + tail
  {
    assert (head + tail)[..|head|] == head;
    assert (head + tail)[|head|..] == tail;
  }

  /** An `if` node starts with `if `, the condition and ` then` followed
      by a new line and four spaces, and ends with `;`. */
  lemma IfLayout(c: Expr, t: Expr, f: Expr, pr: Printers)
    ensures var d := Describe(Expr.If(c, t, f), pr);
            var n := |Describe(c, pr)|;
            && |d| >= n + 14
            && d[..3] == "if " && d[3..3 + n] == Describe(c, pr)
            && d[3 + n..13 + n] == " then\n    " && d[|d| - 1] == ';'
  {
    IfText(Describe(c, pr), Describe(t, pr), Describe(f, pr));
  }

  /** Where the pieces of an `if` text sit. */
  lemma IfText(c: string, t: string, f: string)
    ensures var s := "if " + c + " then\n    " + t + "\nelse\n    " + f + ";";
            && |s| >= |c| + 14
            && s[..3] == "if " && s[3..3 + |c|] == c
            && s[3 + |c|..13 + |c|] == " then\n    " && s[|s| - 1] == ';'
  {
    var s := "if " + c + " then\n    " + t + "\nelse\n    " + f + ";";
    var rest := t + "\nelse\n    " + f + ";";
    assert s == "if " + (c + (" then\n    " + rest));
    assert s[3..] == c + (" then\n    " + rest);
    assert s[3 + |c|..] == " then\n    " + rest;
  }
}
