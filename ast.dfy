/**
  The later syntax tree, whose prototypes carry a kind and a precedence
  and which has a `for` loop node, together with its `description`
  printer. The parser does not build these nodes; this model stands on its
  own.

  How Swift prints a `Double` and a `Precedence` is left as parameters
  (`Printers`): the printer only places their text.
*/
module Ast {
  import opened Wrappers
  import opened Tokens

  /** `Prototype.Kind`. */
  datatype Kind = FunctionKind | UnaryKind | BinaryKind

  /** `Prototype`: its initialiser stores the four fields as given. */
  datatype Prototype = Prototype(name: string, arguments: seq<string>, kind: Kind, precedence: int)

  datatype Expr =
    | Number(value: real)
    | Variable(name: string)
    | Binary(lhs: Expr, op: BinaryOperator, rhs: Expr)
    | If(cond: Expr, thenBranch: Expr, elseBranch: Expr)
    | Call(callee: string, args: seq<Expr>)
    | Prototype(proto: Prototype)
    | Function(proto: Prototype, body: Expr)
    | For(variable: string, start: Expr, end: Expr, step: Option<Expr>, body: Expr)

  /** How a number and a precedence are printed. */
  datatype Printers = Printers(number: real -> string, precedence: int -> string)

  /** `joined(separator:)`. */
  function Join(parts: seq<string>, sep: string): string
    decreases |parts|
  {
    if |parts| == 0 then ""
    else if |parts| == 1 then parts[0]
    else parts[0] + sep + Join(parts[1..], sep)
  }

  /** `description`. Each kind of node has its own opening and closing
      text; the parameters of prototypes and definitions are joined by a
      space. */
  function Describe(e: Expr, pr: Printers): (r: string)
    ensures e.Binary? ==> |r| >= 4 && r[0] == '(' && r[|r| - 1] == ')'
    ensures e.If? ==> |r| >= 4 && r[0] == 'i' && r[1] == 'f' && r[|r| - 1] == ';'
    ensures e.Prototype? ==> |r| >= 9 && r[0] == 'e' && r[|r| - 1] == ')'
    ensures e.Function? ==> |r| >= 6 && r[0] == 'd' && r[|r| - 1] == '}'
    decreases e
  {
    match e
    case Number(n) => pr.number(n)
    case Variable(v) => v
    case Binary(lhs, op, rhs) =>
      "(" + Describe(lhs, pr) + " " + op.CaseName() + " " + Describe(rhs, pr) + ")"
    case If(c, t, f) =>
      "if " + Describe(c, pr) + " then\n    " + Describe(t, pr) + "\nelse\n    " + Describe(f, pr) + ";"
    case Call(name, args) =>
      name + "(" + Join(DescribeAll(args, pr), " ") + ")"
    case Prototype(proto) =>
      "extern " + proto.name + "(" + Join(proto.arguments, " ") + ")"
    case Function(proto, body) =>
      (match proto.kind
       case FunctionKind =>
         "def " + proto.name + "(" + Join(proto.arguments, " ") + ") {\n" + Describe(body, pr) + "\n}"
       case UnaryKind =>
         "def " + proto.name + "(" + Join(proto.arguments, " ") + ") {\n" + Describe(body, pr) + "\n}"
       case BinaryKind =>
         "def " + proto.name + " " + pr.precedence(proto.precedence) + " (" + Join(proto.arguments, " ") + ") {\n"
         + Describe(body, pr) + "\n}")
    case For(name, start, end, step, body) =>
      var stepText := match step case Some(s) => ", " + Describe(s, pr) case None => "";
      "for " + name + " = " + Describe(start, pr) + " , " + Describe(end, pr) + stepText + " in\n    "
      + Describe(body, pr)
  }

  /** `exprs.map { $0.description }`. */
  function DescribeAll(es: seq<Expr>, pr: Printers): (r: seq<string>)
    ensures |r| == |es|
    ensures forall i :: 0 <= i < |es| ==> r[i] == Describe(es[i], pr)
    decreases es
  {
    if |es| == 0 then [] else [Describe(es[0], pr)] + DescribeAll(es[1..], pr)
  }
}
