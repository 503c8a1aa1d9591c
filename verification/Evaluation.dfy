/** Short-circuit evaluation as a relation over whole runs.

    A run records which children of a node were evaluated, in what order, and what came of each. The
    rules fix what the language fixes: operators, short circuits, branch selection, argument order.
    Everything else, such as what a variable holds, what a call returns, or which parts of a match or
    closure execute and how often, is left to the run. */
module Evaluation {
  import opened Wrappers
  import opened ConstFold

  /** A run-time value: one the folder knows about, or any other, of which only truthiness matters. */
  datatype RtValue = Const(c: ConstValue) | Opaque(tag: nat, truthy: bool)

  datatype Outcome = Value(v: RtValue) | Failed

  datatype Run = Run(out: Outcome, subs: seq<Sub>)

  datatype Sub = Sub(child: nat, run: Run)

  predicate Truthy(v: RtValue, fo: FloatOps) {
    match v
    case Const(Bool(b)) => b
    case Const(Int(i)) => i != 0
    case Const(Float(f)) => !fo.isZero(f)
    case Const(Str(s)) => s != ""
    case Opaque(_, t) => t
  }

  /** The result of an arithmetic operator on two constants, as the evaluator computes it. */
  function Arithmetic(op: Operator, l: ConstValue, r: ConstValue, fo: FloatOps): Option<Outcome> {
    if (l.Int? || l.Float?) && (r.Int? || r.Float?) then
      var a, b := AsFloat(l, fo), AsFloat(r, fo);
      match op
      case Add => Some(if l.Int? && r.Int? then OfChecked(l.i + r.i) else Value(Const(Float(fo.add(a, b)))))
      case Sub => Some(if l.Int? && r.Int? then OfChecked(l.i - r.i) else Value(Const(Float(fo.sub(a, b)))))
      case Mul => Some(if l.Int? && r.Int? then OfChecked(l.i * r.i) else Value(Const(Float(fo.mul(a, b)))))
      case Div =>
        if fo.isZero(b) || (r.Int? && r.i == 0) then Some(Failed)
        else Some(if l.Int? && r.Int? then OfChecked(TruncDiv(l.i, r.i)) else Value(Const(Float(fo.div(a, b)))))
      case Mod =>
        if fo.isZero(b) || (r.Int? && r.i == 0) then Some(Failed)
        else if l.Int? && r.Int? then
          Some(if OfChecked(TruncDiv(l.i, r.i)).Failed? then Failed else OfChecked(TruncRem(l.i, r.i)))
        else Some(Value(Const(Float(fo.rem(a, b)))))
      case Concat => Some(Failed)
      case _ => None
    else if op.Add? && l.Str? && r.Str? then Some(Value(Const(Str(l.s + r.s))))
    else if op.Concat? then Some(Failed)
    else None
  }

  function OfChecked(x: int): Outcome {
    if -0x8000_0000_0000_0000 <= x < 0x8000_0000_0000_0000 then Value(Const(Int(x))) else Failed
  }

  /** What a unary operator makes of its operand; any other outcome is left open. */
  function UnaryOutcome(op: Operator, v: RtValue, fo: FloatOps): Option<Outcome> {
    if op.Not? then Some(Value(Const(Bool(!Truthy(v, fo)))))
    else if op.Sub? && v.Const? && v.c.Int? then Some(OfChecked(0 - v.c.i))
    else if op.Sub? && v.Const? && v.c.Float? then Some(Value(Const(Float(fo.neg(v.c.bits)))))
    else None
  }

  /** Child `k` ran as the `i`-th sub-run. */
  predicate Ran(run: Run, i: nat, k: nat) {
    i < |run.subs| && run.subs[i].child == k
  }

  /** First child 0; then, if it came to a value that says so, exactly the child `next`, whose outcome
      is the node's; a stop keeps the first child's own outcome. */
  predicate Chooses(run: Run, next: RtValue -> Option<nat>) {
    && Ran(run, 0, 0)
    && var first := run.subs[0].run.out;
    if first.Failed? then |run.subs| == 1 && run.out.Failed?
    else
      match next(first.v)
      case None => |run.subs| == 1 && run.out == first
      case Some(k) => |run.subs| == 2 && Ran(run, 1, k) && run.out == run.subs[1].run.out
  }

  /** Both operands left to right, stopping at a failure. */
  predicate BothOperands(run: Run) {
    && Ran(run, 0, 0)
    && if run.subs[0].run.out.Failed? then |run.subs| == 1 && run.out.Failed?
       else |run.subs| == 2 && Ran(run, 1, 1) && (run.subs[1].run.out.Failed? ==> run.out.Failed?)
  }

  predicate OperandsDone(run: Run) {
    |run.subs| == 2 && run.subs[0].run.out.Value? && run.subs[1].run.out.Value?
  }

  /** Two constants combine as the operator says; what any other pair makes is left open. */
  predicate Combines(op: Operator, run: Run, fo: FloatOps)
    requires OperandsDone(run)
  {
    var l, r := run.subs[0].run.out.v, run.subs[1].run.out.v;
    l.Const? && r.Const? && Arithmetic(op, l.c, r.c, fo).Some? ==> run.out == Arithmetic(op, l.c, r.c, fo).value
  }

  /** Arguments left to right, stopping at a failure. */
  predicate ArgumentsInOrder(run: Run, n: nat) {
    && |run.subs| <= n
    && (forall i :: 0 <= i < |run.subs| ==> run.subs[i].child == i)
    && (forall i :: 0 <= i < |run.subs| - 1 ==> run.subs[i].run.out.Value?)
    && (|run.subs| < n ==> |run.subs| > 0 && run.subs[|run.subs| - 1].run.out.Failed?)
    && (|run.subs| > 0 && run.subs[|run.subs| - 1].run.out.Failed? ==> run.out.Failed?)
  }

  /** What evaluating a node of this shape may do with its children. */
  predicate Control(n: Node, run: Run, fo: FloatOps) {
    match n.expr
    case Literal(c) => run == Run(Value(Const(c)), [])
    case Binary(And, _, _) => Chooses(run, v => if Truthy(v, fo) then Some(1) else None)
    case Binary(Or, _, _) => Chooses(run, v => if Truthy(v, fo) then None else Some(1))
    case Ternary(_, _, _) => Chooses(run, v => if Truthy(v, fo) then Some(1) else Some(2))
    case Binary(op, _, _) => BothOperands(run) && (OperandsDone(run) ==> Combines(op, run, fo))
    case Unary(op, _) =>
      && Ran(run, 0, 0) && |run.subs| == 1
      && (if run.subs[0].run.out.Failed? then run.out.Failed?
          else UnaryOutcome(op, run.subs[0].run.out.v, fo).Some? ==>
            run.out == UnaryOutcome(op, run.subs[0].run.out.v, fo).value)
    case FnCall(_, args) => ArgumentsInOrder(run, |args|)
    case Other(_) => true
  }

  /** `run` is a possible evaluation of `n`. */
  predicate Legal(n: Node, run: Run, fo: FloatOps)
    decreases run
  {
    Control(n, run, fo) && LegalSubs(Children(n), run.subs, fo)
  }

  predicate LegalSubs(cs: seq<Node>, subs: seq<Sub>, fo: FloatOps)
    decreases subs
  {
    subs != [] ==> LegalSub(cs, subs[0], fo) && LegalSubs(cs, subs[1..], fo)
  }

  predicate LegalSub(cs: seq<Node>, s: Sub, fo: FloatOps)
    decreases s
  {
    s.child < |cs| && Legal(cs[s.child], s.run, fo)
  }

  lemma {:induction false} LegalSubAt(cs: seq<Node>, subs: seq<Sub>, fo: FloatOps, i: nat)
    requires LegalSubs(cs, subs, fo) && i < |subs|
    ensures LegalSub(cs, subs[i], fo)
    decreases i
  {
    if i > 0 { LegalSubAt(cs, subs[1..], fo, i - 1); }
  }

  // ----- the calls a run makes -----

  /** A call is made once all of its arguments came to values. */
  predicate Called(n: Node, run: Run) {
    n.expr.FnCall? && |run.subs| == |n.expr.args| && forall i :: 0 <= i < |run.subs| ==> run.subs[i].run.out.Value?
  }

  ghost function Calls(n: Node, run: Run): set<nat>
    decreases run
  {
    (if Called(n, run) then {n.id} else {}) + SubCalls(Children(n), run.subs)
  }

  ghost function SubCalls(cs: seq<Node>, subs: seq<Sub>): set<nat>
    decreases subs
  {
    if subs == [] then {} else CallsOf(cs, subs[0]) + SubCalls(cs, subs[1..])
  }

  ghost function CallsOf(cs: seq<Node>, s: Sub): set<nat>
    decreases s
  {
    if s.child < |cs| then Calls(cs[s.child], s.run) else {}
  }
}
