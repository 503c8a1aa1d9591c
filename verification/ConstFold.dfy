/** Expression trees and the constant folder. */
module ConstFold {
  import opened Bytes
  import opened Wrappers

  datatype Operator = Add | Sub | Mul | Div | Mod | Eq | Ne | Lt | Gt | Le | Ge | And | Or | Not | Pipe | Concat

  /** A segment of a callee path: a plain name, or something computed at run time. */
  datatype Segment = Named(name: string) | Computed

  /** An expression with the identifier the parser gave it. */
  datatype Node = Node(id: nat, expr: Expr)

  /** `Other` stands for every shape the folder and the pruner leave alone (variables, lists, closures,
      matches and so on), with its child expressions. */
  datatype Expr =
    | Literal(value: ConstValue)
    | Binary(op: Operator, left: Node, right: Node)
    | Unary(unop: Operator, inner: Node)
    | Ternary(cond: Node, thn: Node, els: Node)
    | FnCall(path: seq<Segment>, args: seq<Node>)
    | Other(children: seq<Node>)

  datatype ConstValue = Int(i: i64) | Float(bits: u64) | Bool(b: bool) | Str(s: string)

  /** Floating-point arithmetic on bit patterns, the same wherever it is carried out. */
  datatype FloatOps = FloatOps(
    add: (u64, u64) -> u64, sub: (u64, u64) -> u64, mul: (u64, u64) -> u64, div: (u64, u64) -> u64,
    rem: (u64, u64) -> u64, neg: u64 -> u64, ofInt: i64 -> u64, isZero: u64 -> bool)

  function Children(n: Node): seq<Node> {
    match n.expr
    case Literal(_) => []
    case Binary(_, l, r) => [l, r]
    case Unary(_, x) => [x]
    case Ternary(c, t, e) => [c, t, e]
    case FnCall(_, args) => args
    case Other(cs) => cs
  }

  /** How deep a tree is; every walk over `Children` goes down in it. */
  function Height(n: Node): nat
    decreases n
  {
    match n.expr
    case Literal(_) => 1
    case Binary(_, l, r) => 1 + Height(l) + Height(r)
    case Unary(_, x) => 1 + Height(x)
    case Ternary(c, t, e) => 1 + Height(c) + Height(t) + Height(e)
    case FnCall(_, args) => 1 + HeightAll(args)
    case Other(cs) => 1 + HeightAll(cs)
  }

  function HeightAll(ns: seq<Node>): nat
    decreases ns
  {
    if ns == [] then 0 else Height(ns[0]) + HeightAll(ns[1..])
  }

  lemma HeightCons(n: Node, ns: seq<Node>)
    ensures HeightAll([n] + ns) == Height(n) + HeightAll(ns)
  {
    assert ([n] + ns)[1..] == ns;
  }

  lemma HeightChildren(n: Node)
    ensures HeightAll(Children(n)) < Height(n)
  {
    match n.expr
    case Literal(_) =>
    case Binary(_, l, r) =>
      HeightCons(l, [r]);
      HeightCons(r, []);
      assert [l, r] == [l] + [r] && [r] == [r] + [];
    case Unary(_, x) =>
      HeightCons(x, []);
      assert [x] == [x] + [];
    case Ternary(c, t, e) =>
      HeightCons(c, [t, e]);
      HeightCons(t, [e]);
      HeightCons(e, []);
      assert [c, t, e] == [c] + [t, e] && [t, e] == [t] + [e] && [e] == [e] + [];
    case FnCall(_, _) =>
    case Other(_) =>
  }

  datatype FoldError = DivByZero | Overflow

  type Folded = Result<Option<ConstValue>, FoldError>

  /** The integer result of a checked operation. */
  function Checked(x: int): Folded {
    if -0x8000_0000_0000_0000 <= x < 0x8000_0000_0000_0000 then Ok(Some(Int(x))) else Err(Overflow)
  }

  /** Division truncating toward zero. */
  function TruncDiv(a: int, b: int): int
    requires b != 0
  {
    if a >= 0 then a / b else -(-a / b)
  }

  function TruncRem(a: int, b: int): int
    requires b != 0
  {
    a - b * TruncDiv(a, b)
  }

  /** A remainder overflows where the quotient does. */
  function CheckedRem(a: i64, b: i64): Folded
    requires b != 0
  {
    if Checked(TruncDiv(a, b)).Err? then Err(Overflow) else Checked(TruncRem(a, b))
  }

  function AsFloat(c: ConstValue, fo: FloatOps): u64
    requires c.Int? || c.Float?
  {
    if c.Int? then fo.ofInt(c.i) else c.bits
  }

  function ApplyBinary(op: Operator, l: ConstValue, r: ConstValue, fo: FloatOps): Folded {
    if l.Int? && r.Int? then
      match op
      case Add => Checked(l.i + r.i)
      case Sub => Checked(l.i - r.i)
      case Mul => Checked(l.i * r.i)
      case Div => if r.i == 0 then Err(DivByZero) else Checked(TruncDiv(l.i, r.i))
      case Mod => if r.i == 0 then Err(DivByZero) else CheckedRem(l.i, r.i)
      case _ => Ok(None)
    else if (l.Int? || l.Float?) && (r.Int? || r.Float?) then
      var a, b := AsFloat(l, fo), AsFloat(r, fo);
      match op
      case Add => Ok(Some(Float(fo.add(a, b))))
      case Sub => Ok(Some(Float(fo.sub(a, b))))
      case Mul => Ok(Some(Float(fo.mul(a, b))))
      case Div => Ok(Some(Float(fo.div(a, b))))
      case Mod => Ok(Some(Float(fo.rem(a, b))))
      case _ => Ok(None)
    else if l.Bool? && r.Bool? then
      match op
      case And => Ok(Some(Bool(l.b && r.b)))
      case Or => Ok(Some(Bool(l.b || r.b)))
      case _ => Ok(None)
    else if l.Str? && r.Str? && (op.Add? || op.Concat?) then Ok(Some(Str(l.s + r.s)))
    else Ok(None)
  }

  function ApplyUnary(op: Operator, v: ConstValue, fo: FloatOps): Folded {
    if op.Sub? && v.Int? then Checked(0 - v.i)
    else if op.Sub? && v.Float? then Ok(Some(Float(fo.neg(v.bits))))
    else if op.Not? && v.Bool? then Ok(Some(Bool(!v.b)))
    else Ok(None)
  }

  /** Folds a tree whose relevant leaves are literals; an error is statically broken arithmetic. */
  function TryFold(n: Node, fo: FloatOps): Folded
    decreases n
  {
    match n.expr
    case Literal(c) => Ok(Some(c))
    case Binary(op, l, r) =>
      var lv :- TryFold(l, fo);
      var rv :- TryFold(r, fo);
      if lv.Some? && rv.Some? then ApplyBinary(op, lv.value, rv.value, fo) else Ok(None)
    case Unary(op, x) =>
      var v :- TryFold(x, fo);
      if v.Some? then ApplyUnary(op, v.value, fo) else Ok(None)
    case Ternary(c, t, e) =>
      var cv :- TryFold(c, fo);
      if cv == Some(Bool(true)) then TryFold(t, fo)
      else if cv == Some(Bool(false)) then TryFold(e, fo)
      else Ok(None)
    case _ => Ok(None)
  }
}
