/** What folds, and so what is pruned: literal arithmetic within 64 bits, literal truth values, and every
    branch such a condition decides against. */
module Folding {
  import opened Wrappers
  import opened ConstFold
  import opened Evaluation
  import opened Pruning

  // ----- division -----

  function Abs(x: int): nat {
    if x < 0 then -x else x
  }

  lemma Negated(b: int, q: int)
    ensures b * -q == -(b * q)
  {
  }

  lemma DivMod(m: nat, b: int)
    requires b != 0
    ensures m == b * (m / b) + m % b && 0 <= m % b < Abs(b)
  {
  }

  /** The quotient is rounded toward zero: the remainder is smaller than the divisor and takes the sign of
      the dividend. */
  lemma DivisionTruncates(a: int, b: int)
    requires b != 0
    ensures a == b * TruncDiv(a, b) + TruncRem(a, b)
    ensures Abs(TruncRem(a, b)) < Abs(b)
    ensures (a >= 0 ==> TruncRem(a, b) >= 0) && (a <= 0 ==> TruncRem(a, b) <= 0)
  {
    var m := Abs(a);
    var q, r := m / b, m % b;
    DivMod(m, b);
    Negated(b, q);
    assert TruncDiv(a, b) == if a >= 0 then q else -q;
    assert TruncRem(a, b) == if a >= 0 then r else -r;
  }

  // ----- integers -----

  predicate In64(x: int) {
    -0x8000_0000_0000_0000 <= x < 0x8000_0000_0000_0000
  }

  function Within(x: int): Option<int> {
    if In64(x) then Some(x) else None
  }

  predicate IntTree(n: Node)
    decreases n
  {
    match n.expr
    case Literal(c) => c.Int?
    case Binary(op, l, r) => (op.Add? || op.Sub? || op.Mul? || op.Div? || op.Mod?) && IntTree(l) && IntTree(r)
    case Unary(op, x) => op.Sub? && IntTree(x)
    case _ => false
  }

  /** The integer an arithmetic tree stands for; none if a divisor is zero or some part leaves 64 bits. */
  function IntVal(n: Node): (r: Option<int>)
    requires IntTree(n)
    ensures r.Some? ==> In64(r.value)
    decreases n
  {
    match n.expr
    case Literal(c) => Some(c.i)
    case Unary(_, x) =>
      var v :- IntVal(x);
      Within(-v)
    case Binary(op, l, r) =>
      var a :- IntVal(l);
      var b :- IntVal(r);
      match op
      case Add => Within(a + b)
      case Sub => Within(a - b)
      case Mul => Within(a * b)
      case Div => if b == 0 then None else Within(TruncDiv(a, b))
      case Mod => if b == 0 || !In64(TruncDiv(a, b)) then None else Within(TruncRem(a, b))
  }

  /** An arithmetic tree over integer literals folds exactly to the integer it stands for, and is reported
      broken exactly when it stands for none. */
  lemma {:induction false} IntegersFold(n: Node, fo: FloatOps)
    requires IntTree(n)
    ensures TryFold(n, fo).Ok? <==> IntVal(n).Some?
    ensures IntVal(n).Some? ==> TryFold(n, fo) == Ok(Some(ConstValue.Int(IntVal(n).value)))
    decreases n
  {
    hide TruncDiv, TruncRem;
    match n.expr
    case Literal(c) =>
    case Unary(_, x) => IntegersFold(x, fo);
    case Binary(_, l, r) =>
      IntegersFold(l, fo);
      IntegersFold(r, fo);
  }

  // ----- truth values -----

  /** The truth value of a tree of boolean literals. */
  function BoolVal(n: Node): Option<bool>
    decreases n
  {
    match n.expr
    case Literal(c) => if c.Bool? then Some(c.b) else None
    case Unary(op, x) =>
      var b :- BoolVal(x);
      if op.Not? then Some(!b) else None
    case Binary(op, l, r) =>
      var a :- BoolVal(l);
      var b :- BoolVal(r);
      if op.And? then Some(a && b) else if op.Or? then Some(a || b) else None
    case Ternary(c, t, e) =>
      var b :- BoolVal(c);
      if b then BoolVal(t) else BoolVal(e)
    case _ => None
  }

  lemma {:induction false} BooleansFold(n: Node, fo: FloatOps)
    requires BoolVal(n).Some?
    ensures TryFold(n, fo) == Ok(Some(ConstValue.Bool(BoolVal(n).value)))
    decreases n
  {
    match n.expr
    case Literal(c) =>
    case Unary(_, x) => BooleansFold(x, fo);
    case Binary(_, l, r) =>
      BooleansFold(l, fo);
      BooleansFold(r, fo);
    case Ternary(c, t, e) =>
      BooleansFold(c, fo);
      if BoolVal(c).value { BooleansFold(t, fo); } else { BooleansFold(e, fo); }
  }

  /** Every successful evaluation of such a tree gives that truth value. */
  lemma BooleansEvaluate(n: Node, run: Run, fo: FloatOps)
    requires BoolVal(n).Some? && Legal(n, run, fo) && run.out.Value?
    ensures run.out == Value(Const(ConstValue.Bool(BoolVal(n).value)))
  {
    BooleansFold(n, fo);
    FoldSound(n, run, fo);
  }

  // ----- dead branches -----

  /** Which child a condition with truth value `b` decides against. */
  function Against(e: Expr, b: bool): Option<nat> {
    match e
    case Ternary(_, _, _) => Some(if b then 2 else 1)
    case Binary(And, _, _) => if b then None else Some(1)
    case Binary(Or, _, _) => if b then Some(1) else None
    case _ => None
  }

  /** A literal condition prunes exactly the branch it decides against: the right side of `false && r` and
      of `true || r`, and the branch of a ternary not taken. */
  lemma DecidedIsPruned(n: Node, fo: FloatOps)
    requires Children(n) != [] && BoolVal(Children(n)[0]).Some?
    requires n.expr.Ternary? || (n.expr.Binary? && (n.expr.op.And? || n.expr.op.Or?))
    ensures DeadChild(n, fo) == Against(n.expr, BoolVal(Children(n)[0]).value)
  {
    BooleansFold(Children(n)[0], fo);
  }

  /** The pruned branch, with everything inside it, is exactly what the report leaves out on account of
      this node. */
  lemma PrunedIds(n: Node, fo: FloatOps)
    requires Children(n) != [] && BoolVal(Children(n)[0]).Some?
    requires n.expr.Ternary? || (n.expr.Binary? && (n.expr.op.And? || n.expr.op.Or?))
    ensures match Against(n.expr, BoolVal(Children(n)[0]).value)
      case None => OwnDead(n, fo) == {}
      case Some(k) => k < |Children(n)| && OwnDead(n, fo) == Ids(Children(n)[k]) && OwnDead(n, fo) <= DeadIds(n, fo)
  {
    hide Ids, DeadAll;
    DecidedIsPruned(n, fo);
  }

  // ----- live branches -----

  /** Child 0, then child `k`, whose outcome is the node's. */
  function Then(first: Run, k: nat, second: Run): Run {
    Run(second.out, [Sub.Sub(0, first), Sub.Sub(k, second)])
  }

  lemma OnceLegal(cs: seq<Node>, k: nat, run: Run, fo: FloatOps)
    requires k < |cs| && Legal(cs[k], run, fo)
    ensures LegalSubs(cs, [Sub.Sub(k, run)], fo)
  {
    hide Legal;
    assert [Sub.Sub(k, run)][1..] == [];
  }

  lemma ThenLegal(cs: seq<Node>, first: Run, k: nat, second: Run, fo: FloatOps)
    requires 0 < |cs| && k < |cs| && Legal(cs[0], first, fo) && Legal(cs[k], second, fo)
    ensures LegalSubs(cs, Then(first, k, second).subs, fo)
  {
    hide Legal;
    OnceLegal(cs, k, second, fo);
    var subs := Then(first, k, second).subs;
    assert subs[0] == Sub.Sub(0, first) && subs[1..] == [Sub.Sub(k, second)];
    assert LegalSub(cs, subs[0], fo);
  }

  /** A tree of boolean literals does evaluate. */
  lemma {:induction false} BooleansRun(n: Node, fo: FloatOps) returns (run: Run)
    requires BoolVal(n).Some?
    ensures Legal(n, run, fo) && run.out == Value(Const(ConstValue.Bool(BoolVal(n).value)))
    decreases n
  {
    hide LegalSubs;
    match n.expr
    case Literal(c) =>
      run := Run(Value(Const(c)), []);
      assert LegalSubs(Children(n), [], fo) by { NoneLegal(Children(n), fo); }
    case Unary(op, x) =>
      var first := BooleansRun(x, fo);
      run := Run(Value(Const(ConstValue.Bool(BoolVal(n).value))), [Sub.Sub(0, first)]);
      OnceLegal(Children(n), 0, first, fo);
    case Binary(op, l, r) =>
      var first := BooleansRun(l, fo);
      if BoolVal(l).value == op.And? {
        var second := BooleansRun(r, fo);
        run := Then(first, 1, second);
        ThenLegal(Children(n), first, 1, second, fo);
      } else {
        run := Run(first.out, [Sub.Sub(0, first)]);
        OnceLegal(Children(n), 0, first, fo);
      }
    case Ternary(c, t, e) =>
      var first := BooleansRun(c, fo);
      var k := if BoolVal(c).value then 1 else 2;
      var second := BooleansRun(Children(n)[k], fo);
      run := Then(first, k, second);
      ThenLegal(Children(n), first, k, second, fo);
  }

  lemma NoneLegal(cs: seq<Node>, fo: FloatOps)
    ensures LegalSubs(cs, [], fo)
  {
  }

  /** The branch a literal condition decides for does run: whatever it may do alone it may do here, with the same
      outcome and the same calls. */
  lemma DecidedRuns(n: Node, k: nat, branch: Run, fo: FloatOps) returns (run: Run)
    requires n.expr.Ternary? || (n.expr.Binary? && (n.expr.op.And? || n.expr.op.Or?))
    requires BoolVal(Children(n)[0]).Some? && 0 < k < |Children(n)|
    requires Against(n.expr, BoolVal(Children(n)[0]).value) != Some(k) && Legal(Children(n)[k], branch, fo)
    ensures Legal(n, run, fo) && run.out == branch.out && Calls(Children(n)[k], branch) <= Calls(n, run)
  {
    var cs := Children(n);
    var first := BooleansRun(cs[0], fo);
    run := Then(first, k, branch);
    ThenLegal(cs, first, k, branch, fo);
    ThenCalls(cs, first, k, branch);
    hide LegalSubs, SubCalls, Calls, BoolVal;
    assert Control(n, run, fo);
    assert Calls(n, run) >= SubCalls(cs, run.subs) by { CallsHold(n, run); }
  }

  lemma CallsHold(n: Node, run: Run)
    ensures SubCalls(Children(n), run.subs) <= Calls(n, run)
  {
  }

  lemma ThenCalls(cs: seq<Node>, first: Run, k: nat, second: Run)
    requires k < |cs|
    ensures Calls(cs[k], second) <= SubCalls(cs, Then(first, k, second).subs)
  {
    hide Calls;
    var subs := Then(first, k, second).subs;
    assert subs[1..] == [Sub.Sub(k, second)];
    assert Calls(cs[k], second) == CallsOf(cs, subs[1]);
    assert CallsOf(cs, subs[1..][0]) <= SubCalls(cs, subs[1..]);
  }

  /** A call whose arguments come to values is made, whatever it then returns. */
  lemma CallMade(n: Node, out: Outcome, subs: seq<Sub>, fo: FloatOps)
    requires n.expr.FnCall? && LegalSubs(n.expr.args, subs, fo) && |subs| == |n.expr.args|
    requires forall i :: 0 <= i < |subs| ==> subs[i].child == i && subs[i].run.out.Value?
    ensures Legal(n, Run(out, subs), fo) && n.id in Calls(n, Run(out, subs))
  {
    hide LegalSubs, SubCalls;
  }
}
