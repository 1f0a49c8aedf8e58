// The language of bc as its grammar (bc.y) sees it, and the byte code that the
// grammar actions emit, one item for each instruction, label or constant.
module BcSyntax {

  // A variable by its number, or an element of an array.
  datatype Named = Simple(name: nat) | Element(arr: nat, index: Expr)

  predicate IsComparison(c: char)
  {
    c == '=' || c == '#' || c == '<' || c == '{' || c == '>' || c == '}'
  }

  predicate IsArithmetic(c: char)
  {
    c == '+' || c == '-' || c == '*' || c == '/' || c == '%' || c == '^'
  }

  type RelOp = c: char | IsComparison(c) witness '='
  type BinOp = c: char | IsArithmetic(c) witness '+'
  type AssignOp = c: char | c == '=' || IsArithmetic(c) witness '='

  // The arguments of a call: values, or arrays by their numbers.
  datatype Exprs = NoExprs | MoreExprs(head: Expr, tail: Exprs) | MoreArrays(arr: nat, tail: Exprs)

  datatype Expr =
    | Number(text: string)
    | Value(n: Named)
    | Assign(n: Named, op: AssignOp, e: Expr)
    | And(a: Expr, b: Expr)
    | Or(a: Expr, b: Expr)
    | Not(a: Expr)
    | Relation(rel: RelOp, a: Expr, b: Expr)
    | Binary(bin: BinOp, a: Expr, b: Expr)
    | Negate(a: Expr)
    | Paren(a: Expr)
    | Before(step: char, n: Named)                // ++x, --x: step is + or -
    | AfterIt(n: Named, step: char)               // x++, x--
    | Special(fn: char, a: Expr)                // length, sqrt, scale
    | Call(f: nat, args: Exprs)

  datatype OptExpr = None | Some(e: Expr)

  datatype Stmts = NoStmts | MoreStmts(head: Stmt, tail: Stmts)

  datatype Stmt =
    | Expression(e: Expr)
    | Text(s: string)
    | Break
    | Continue
    | Halt
    | Return(result: OptExpr)
    | For(first: OptExpr, cond: OptExpr, step: OptExpr, body: Stmt)
    | If(c: Expr, yes: Stmt)
    | IfElse(c: Expr, yes: Stmt, no: Stmt)
    | While(c: Expr, body: Stmt)
    | Block(ss: Stmts)
    | PrintText(s: string)
    | PrintExpr(e: Expr)

  // A parameter: a variable, an array that is copied, or one that is shared.
  datatype Param = Scalar(name: nat) | Array(name: nat, byRef: bool)

  // Autos are variable numbers, or array numbers negated.
  datatype Function = Function(params: seq<Param>, autos: seq<int>, body: Stmts)

  // ---- The byte code -------------------------------------------------------------------

  datatype Item =
    | Plain(c: char)                  // an instruction without operand
    | OnVar(c: char, name: nat)       // d i l s, and A M L S for arrays
    | Jump(c: char, target: nat)      // B J Z
    | Label(id: nat)
    | Const(text: string)
    | Enter(f: nat, kinds: seq<bool>) // call a function; which arguments are arrays, the last one first
    | Builtin(c: char)
    | Str(c: char, s: string)         // w, O

  // ---- What the actions know about an expression -----------------------------------------

  // The bits of an expression's value: its last operation is no assignment (1),
  // a comparison is in it (2), it is in parentheses (4); 16 is a missing one.
  datatype Attr = Attr(value: bool, comparison: bool, paren: bool, missing: bool)

  function Either(x: Attr, y: Attr): Attr
  {
    Attr(x.value || y.value, x.comparison || y.comparison, false, x.missing || y.missing)
  }

  function AttrOf(e: Expr): Attr
  {
    match e
    case Assign(_, _, _) => Attr(false, false, false, false)
    case And(a, b) => Either(AttrOf(a), AttrOf(b))
    case Or(a, b) => Either(AttrOf(a), AttrOf(b))
    case Not(a) => AttrOf(a).(paren := false)
    case Relation(_, _, _) => Attr(true, true, false, false)
    case Binary(_, a, b) => Either(AttrOf(a), AttrOf(b))
    case Negate(a) => AttrOf(a).(paren := false)
    case Paren(a) => AttrOf(a).(value := true, paren := true)
    case _ => Attr(true, false, false, false)
  }

  function AttrOfOpt(o: OptExpr): Attr
  {
    if o.None? then Attr(false, false, false, true) else AttrOf(o.e)
  }

  // ---- The code of expressions -----------------------------------------------------------

  // How many labels an expression takes.
  function LabelsE(e: Expr): nat
  {
    match e
    case Number(_) => 0
    case Value(n) => LabelsN(n)
    case Assign(n, _, a) => LabelsN(n) + LabelsE(a)
    case And(a, b) => LabelsE(a) + 1 + LabelsE(b)
    case Or(a, b) => LabelsE(a) + 1 + LabelsE(b) + 1
    case Not(a) => LabelsE(a)
    case Relation(_, a, b) => LabelsE(a) + LabelsE(b)
    case Binary(_, a, b) => LabelsE(a) + LabelsE(b)
    case Negate(a) => LabelsE(a)
    case Paren(a) => LabelsE(a)
    case Before(_, n) => LabelsN(n)
    case AfterIt(n, _) => LabelsN(n)
    case Special(_, a) => LabelsE(a)
    case Call(_, args) => LabelsEs(args)
  }

  function LabelsN(n: Named): nat
  {
    match n case Simple(_) => 0 case Element(_, i) => LabelsE(i)
  }

  function LabelsEs(es: Exprs): nat
  {
    match es
    case NoExprs => 0
    case MoreExprs(e, more) => LabelsE(e) + LabelsEs(more)
    case MoreArrays(_, more) => LabelsEs(more)
  }

  // ---- Lists of arguments ----------------------------------------------------------------

  // nextarg puts a new element in front of the list.
  function NextArg<T>(list: seq<T>, x: T): seq<T>
  {
    [x] + list
  }

  // The list that the parser, or the loader, makes of elements in a row.
  function ListOf<T>(xs: seq<T>): (r: seq<T>)
    ensures |r| == |xs|
  {
    if xs == [] then [] else NextArg(ListOf(xs[..|xs| - 1]), xs[|xs| - 1])
  }

  // Which arguments are arrays, in source order.
  function Kinds(es: Exprs): seq<bool>
  {
    match es
    case NoExprs => []
    case MoreExprs(_, more) => [false] + Kinds(more)
    case MoreArrays(_, more) => [true] + Kinds(more)
  }

  // call_str: a mark for every argument, in the order of the list.
  function CallStr(es: Exprs): seq<bool>
  {
    ListOf(Kinds(es))
  }

  // The greatest number that is given to a name.
  const MAX_STORE: nat := 32767

  function Decimal(n: nat): (r: string)
    ensures |r| > 0 && forall i :: 0 <= i < |r| ==> '0' <= r[i] <= '9'
  {
    (if n < 10 then [] else Decimal(n / 10)) + [(n % 10 + 48) as char]
  }

  // The code of an expression whose first label is l.
  function CodeE(e: Expr, l: nat): seq<Item>
  {
    match e
    case Number(text) => if text == "0" then [Plain('0')] else if text == "1" then [Plain('1')] else [Const(text)]
    case Value(n) => CodeN(n, l) + [LoadOf(n)]
    case Assign(n, op, a) =>
      CodeN(n, l) + (if op == '=' then [] else FetchOf(n)) + CodeE(a, l + LabelsN(n))
      + (if op == '=' then [] else [Plain(op)]) + [StoreOf(n)]
    case And(a, b) =>
      var m := l + LabelsE(a);
      CodeE(a, l) + [Plain('D'), Jump('Z', m), Plain('p')] + CodeE(b, m + 1)
      + [Plain('D'), Jump('Z', m), Plain('p'), Plain('1'), Label(m)]
    case Or(a, b) =>
      var m := l + LabelsE(a);
      var t := m + 1 + LabelsE(b);
      CodeE(a, l) + [Jump('B', m)] + CodeE(b, m + 1)
      + [Jump('B', m), Plain('0'), Jump('J', t), Label(m), Plain('1'), Label(t)]
    case Not(a) => CodeE(a, l) + [Plain('!')]
    case Relation(op, a, b) => CodeE(a, l) + CodeE(b, l + LabelsE(a)) + [Plain(op)]
    case Binary(op, a, b) => CodeE(a, l) + CodeE(b, l + LabelsE(a)) + [Plain(op)]
    case Negate(a) => CodeE(a, l) + [Plain('n')]
    case Paren(a) => CodeE(a, l)
    case Before(op, n) => CodeN(n, l) + BeforeOf(op, n)
    case AfterIt(n, op) => CodeN(n, l) + AfterOf(op, n)
    case Special(fn, a) => CodeE(a, l) + [Builtin(fn)]
    case Call(f, args) => CodeEs(args, l) + [Enter(f, CallStr(args))]
  }

  // The subscript of an element; nothing for a simple variable.
  function CodeN(n: Named, l: nat): seq<Item>
  {
    match n case Simple(_) => [] case Element(_, i) => CodeE(i, l)
  }

  function CodeEs(es: Exprs, l: nat): seq<Item>
  {
    match es
    case NoExprs => []
    case MoreExprs(e, more) => CodeE(e, l) + CodeEs(more, l + LabelsE(e))
    case MoreArrays(a, more) => [Const(Decimal(a))] + CodeEs(more, l)
  }

  function LoadOf(n: Named): Item
  {
    match n case Simple(x) => OnVar('l', x) case Element(a, _) => OnVar('L', a)
  }

  function StoreOf(n: Named): Item
  {
    match n case Simple(x) => OnVar('s', x) case Element(a, _) => OnVar('S', a)
  }

  // The old value, with the subscript kept for the store.
  function FetchOf(n: Named): seq<Item>
  {
    match n case Simple(x) => [OnVar('l', x)] case Element(a, _) => [Plain('D'), OnVar('L', a)]
  }

  // Add or subtract one.
  function StepOf(step: char, n: Named): Item
  {
    match n
    case Simple(x) => OnVar(if step == '+' then 'i' else 'd', x)
    case Element(a, _) => OnVar(if step == '+' then 'A' else 'M', a)
  }

  function BeforeOf(step: char, n: Named): seq<Item>
  {
    if n.Simple? then [StepOf(step, n), LoadOf(n)] else [Plain('D'), StepOf(step, n), LoadOf(n)]
  }

  function AfterOf(step: char, n: Named): seq<Item>
  {
    if n.Simple? then [LoadOf(n), StepOf(step, n)] else [Plain('D'), LoadOf(n), Plain('x'), StepOf(step, n)]
  }

  // ---- The code of statements ------------------------------------------------------------

  function LabelsO(o: OptExpr): nat
  {
    match o case None => 0 case Some(e) => LabelsE(e)
  }

  function CodeO(o: OptExpr, l: nat): seq<Item>
  {
    match o case None => [] case Some(e) => CodeE(e, l)
  }

  function LabelsS(s: Stmt): nat
  {
    match s
    case Expression(e) => LabelsE(e)
    case Text(_) => 0
    case Break => 0
    case Continue => 0
    case Halt => 0
    case Return(o) => LabelsO(o)
    case For(a, b, c, body) => 4 + LabelsO(a) + LabelsO(b) + LabelsO(c) + LabelsS(body)
    case If(c, yes) => LabelsE(c) + 1 + LabelsS(yes)
    case IfElse(c, yes, no) => LabelsE(c) + 1 + LabelsS(yes) + 1 + LabelsS(no)
    case While(c, body) => 1 + LabelsE(c) + 1 + LabelsS(body)
    case Block(ss) => LabelsSs(ss)
    case PrintText(_) => 0
    case PrintExpr(e) => LabelsE(e)
  }

  function LabelsSs(ss: Stmts): nat
  {
    match ss case NoStmts => 0 case MoreStmts(s, more) => LabelsS(s) + LabelsSs(more)
  }

  // The labels of a for statement whose first label is l.
  datatype ForLabels = ForLabels(brk: nat, test: nat, body: nat, cont: nat, first: nat, cond: nat, step: nat,
      inner: nat)

  function LabelsOfFor(a: OptExpr, b: OptExpr, c: OptExpr, l: nat): ForLabels
  {
    var test := l + 1 + LabelsO(a);
    var body := test + 1 + LabelsO(b);
    ForLabels(l, test, body, body + 1, l + 1, test + 1, body + 2, body + 2 + LabelsO(c))
  }

  // The code of a statement whose first label is l; brk and cont are the labels
  // of the enclosing loop.  The actions generate a pop after the first
  // expression of a for, and no condition, even when the expressions are missing.
  function CodeS(s: Stmt, l: nat, brk: nat, cont: nat): seq<Item>
  {
    match s
    case Expression(e) => CodeE(e, l) + [Plain(if AttrOf(e).value then 'W' else 'p')]
    case Text(t) => [Str('w', t)]
    case Break => [Jump('J', brk)]
    case Continue => [Jump('J', cont)]
    case Halt => [Plain('h')]
    case Return(o) => (if o.None? then [Plain('0')] else CodeE(o.e, l)) + [Plain('R')]
    case For(a, b, c, body) =>
      var ls := LabelsOfFor(a, b, c, l);
      CodeO(a, ls.first) + [Plain('p'), Label(ls.test)]
      + CodeO(b, ls.cond) + [Jump('B', ls.body), Jump('J', ls.brk), Label(ls.cont)]
      + CodeO(c, ls.step) + (if AttrOfOpt(c).missing then [] else [Plain('p')]) + [Jump('J', ls.test), Label(ls.body)]
      + CodeS(body, ls.inner, ls.brk, ls.cont) + [Jump('J', ls.cont), Label(ls.brk)]
    case If(c, yes) =>
      var m := l + LabelsE(c);
      CodeE(c, l) + [Jump('Z', m)] + CodeS(yes, m + 1, brk, cont) + [Label(m)]
    case IfElse(c, yes, no) =>
      var m := l + LabelsE(c);
      var t := m + 1 + LabelsS(yes);
      CodeE(c, l) + [Jump('Z', m)] + CodeS(yes, m + 1, brk, cont) + [Jump('J', t), Label(m)]
      + CodeS(no, t + 1, brk, cont) + [Label(t)]
    case While(c, body) =>
      var m := l + 1 + LabelsE(c);
      [Label(l)] + CodeE(c, l + 1) + [Jump('Z', m)] + CodeS(body, m + 1, m, cont) + [Jump('J', l), Label(m)]
    case Block(ss) => CodeSs(ss, l, brk, cont)
    case PrintText(t) => [Str('O', t)]
    case PrintExpr(e) => CodeE(e, l) + [Plain('P')]
  }

  function CodeSs(ss: Stmts, l: nat, brk: nat, cont: nat): seq<Item>
  {
    match ss
    case NoStmts => []
    case MoreStmts(s, more) => CodeS(s, l, brk, cont) + CodeSs(more, l + LabelsS(s), brk, cont)
  }

  // The segments of a program: the main code, and for each function its body and
  // the return of zero at its end.  Labels are counted anew in each.
  function MainCode(main: Stmts): seq<Item>
  {
    CodeSs(main, 1, 0, 0)
  }

  function FunctionCode(f: Function): seq<Item>
  {
    CodeSs(f.body, 1, 0, 0) + [Plain('0'), Plain('R')]
  }
}
