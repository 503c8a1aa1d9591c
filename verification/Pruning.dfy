/** Soundness of folding and of pruning: what the folder calls constant is constant in every run, and
    no run ever evaluates a branch the pruner calls dead. */
module Pruning {
  import opened Wrappers
  import opened ConstFold
  import opened Evaluation

  // ----- folding -----

  lemma ArithmeticMatchesFold(op: Operator, l: ConstValue, r: ConstValue, fo: FloatOps)
    requires !op.And? && !op.Or? && ApplyBinary(op, l, r, fo).Ok? && ApplyBinary(op, l, r, fo).value.Some?
    ensures Arithmetic(op, l, r, fo).Some?
    ensures var out := Arithmetic(op, l, r, fo).value;
      out.Failed? || out == Value(Const(ApplyBinary(op, l, r, fo).value.value))
  {
  }

  /** If a tree folds to a constant, every evaluation that succeeds yields it, whatever the environment. */
  lemma {:induction false} FoldSound(n: Node, run: Run, fo: FloatOps)
    requires Legal(n, run, fo) && TryFold(n, fo).Ok? && TryFold(n, fo).value.Some? && run.out.Value?
    ensures run.out == Value(Const(TryFold(n, fo).value.value))
    decreases n
  {
    match n.expr
    case Literal(_) =>
    case Binary(op, l, r) =>
      OperandFolds(n, run, fo, 0);
      if |run.subs| > 1 { OperandFolds(n, run, fo, 1); }
      if !op.And? && !op.Or? {
        ArithmeticMatchesFold(op, TryFold(l, fo).value.value, TryFold(r, fo).value.value, fo);
      }
    case Unary(_, _) => OperandFolds(n, run, fo, 0);
    case Ternary(_, _, _) =>
      OperandFolds(n, run, fo, 0);
      if |run.subs| > 1 { OperandFolds(n, run, fo, 1); }
  }

  /** The folder's verdict on the child that ran as the `i`-th sub-run. */
  lemma {:induction false} OperandFolds(n: Node, run: Run, fo: FloatOps, i: nat)
    requires Legal(n, run, fo) && i < |run.subs|
    ensures run.subs[i].child < |Children(n)|
    ensures var child := Children(n)[run.subs[i].child];
      TryFold(child, fo).Ok? && TryFold(child, fo).value.Some? && run.subs[i].run.out.Value? ==>
        run.subs[i].run.out == Value(Const(TryFold(child, fo).value.value))
    decreases n, 0
  {
    LegalSubAt(Children(n), run.subs, fo, i);
    var child := Children(n)[run.subs[i].child];
    assert child in Children(n);
    if TryFold(child, fo).Ok? && TryFold(child, fo).value.Some? && run.subs[i].run.out.Value? {
      FoldSound(child, run.subs[i].run, fo);
    }
  }

  // ----- identifiers -----

  function Ids(n: Node): set<nat>
    decreases Height(n), 0
  {
    HeightChildren(n);
    {n.id} + IdsAll(Children(n))
  }

  function IdsAll(ns: seq<Node>): set<nat>
    decreases HeightAll(ns), |ns|
  {
    if ns == [] then {} else Ids(ns[0]) + IdsAll(ns[1..])
  }

  /** No two nodes of the tree share an identifier. */
  predicate Unique(n: Node)
    decreases Height(n), 0
  {
    HeightChildren(n);
    n.id !in IdsAll(Children(n)) && UniqueAll(Children(n))
  }

  predicate UniqueAll(ns: seq<Node>)
    decreases HeightAll(ns), |ns|
  {
    ns != [] ==> Unique(ns[0]) && Ids(ns[0]) !! IdsAll(ns[1..]) && UniqueAll(ns[1..])
  }

  lemma {:induction false} IdsAt(ns: seq<Node>, i: nat)
    requires i < |ns|
    ensures Ids(ns[i]) <= IdsAll(ns)
    decreases i
  {
    hide Ids;
    if i > 0 { IdsAt(ns[1..], i - 1); }
  }

  lemma {:induction false} UniqueAt(ns: seq<Node>, i: nat)
    requires UniqueAll(ns) && i < |ns|
    ensures Unique(ns[i])
    decreases i
  {
    hide Ids, Unique;
    if i > 0 { UniqueAt(ns[1..], i - 1); }
  }

  lemma {:induction false} SiblingsApart(ns: seq<Node>, i: nat, j: nat)
    requires UniqueAll(ns) && i < j < |ns|
    ensures Ids(ns[i]) !! Ids(ns[j])
    decreases i
  {
    hide Ids, Unique;
    if i == 0 {
      IdsAt(ns[1..], j - 1);
    } else {
      SiblingsApart(ns[1..], i - 1, j - 1);
    }
  }

  // ----- dead branches -----

  function ConstBool(cond: Node, fo: FloatOps): Option<bool> {
    match TryFold(cond, fo)
    case Ok(Some(Bool(b))) => Some(b)
    case _ => None
  }

  /** The child a control-flow node can never evaluate, if its decision is statically known. */
  function DeadChild(n: Node, fo: FloatOps): (r: Option<nat>)
    ensures r.Some? ==> r.value < |Children(n)|
  {
    match n.expr
    case Ternary(c, _, _) =>
      (match ConstBool(c, fo)
       case None => None
       case Some(b) => Some(if b then 2 else 1))
    case Binary(And, l, _) => if ConstBool(l, fo) == Some(false) then Some(1) else None
    case Binary(Or, l, _) => if ConstBool(l, fo) == Some(true) then Some(1) else None
    case _ => None
  }

  /** Identifiers inside the dead branch of this node alone. */
  function OwnDead(n: Node, fo: FloatOps): set<nat> {
    match DeadChild(n, fo)
    case None => {}
    case Some(k) => Ids(Children(n)[k])
  }

  /** Identifiers inside any dead branch of the tree. */
  function DeadIds(n: Node, fo: FloatOps): set<nat>
    decreases Height(n), 0
  {
    HeightChildren(n);
    OwnDead(n, fo) + DeadAll(Children(n), fo)
  }

  function DeadAll(ns: seq<Node>, fo: FloatOps): set<nat>
    decreases HeightAll(ns), |ns|
  {
    if ns == [] then {} else DeadIds(ns[0], fo) + DeadAll(ns[1..], fo)
  }

  lemma {:induction false} DeadWithin(n: Node, fo: FloatOps)
    ensures DeadIds(n, fo) <= IdsAll(Children(n))
    decreases Height(n), 0
  {
    HeightChildren(n);
    DeadAllWithin(Children(n), fo);
    var k := DeadChild(n, fo);
    if k.Some? { IdsAt(Children(n), k.value); }
  }

  lemma {:induction false} DeadAllWithin(ns: seq<Node>, fo: FloatOps)
    ensures DeadAll(ns, fo) <= IdsAll(ns)
    decreases HeightAll(ns), |ns|
  {
    if ns != [] {
      DeadWithin(ns[0], fo);
      DeadAllWithin(ns[1..], fo);
    }
  }

  lemma {:induction false} DeadAllAt(ns: seq<Node>, fo: FloatOps, id: nat)
    requires id in DeadAll(ns, fo)
    ensures exists i :: 0 <= i < |ns| && id in DeadIds(ns[i], fo)
    decreases |ns|
  {
    hide DeadIds;
    if id !in DeadIds(ns[0], fo) {
      DeadAllAt(ns[1..], fo, id);
      var i :| 0 <= i < |ns[1..]| && id in DeadIds(ns[1..][i], fo);
      assert id in DeadIds(ns[i + 1], fo);
    }
  }

  lemma {:induction false} CallsWithin(n: Node, run: Run)
    ensures Calls(n, run) <= Ids(n)
    decreases run
  {
    SubCallsWithin(Children(n), run.subs);
  }

  lemma {:induction false} SubCallsWithin(cs: seq<Node>, subs: seq<Sub>)
    ensures SubCalls(cs, subs) <= IdsAll(cs)
    decreases subs
  {
    if subs != [] {
      CallsOfWithin(cs, subs[0]);
      SubCallsWithin(cs, subs[1..]);
    }
  }

  lemma {:induction false} CallsOfWithin(cs: seq<Node>, s: Sub)
    ensures CallsOf(cs, s) <= IdsAll(cs)
    ensures s.child < |cs| ==> CallsOf(cs, s) <= Ids(cs[s.child])
    decreases s
  {
    if s.child < |cs| {
      CallsWithin(cs[s.child], s.run);
      IdsAt(cs, s.child);
    }
  }

  lemma {:induction false} SubCallAt(cs: seq<Node>, subs: seq<Sub>, id: nat)
    requires id in SubCalls(cs, subs)
    ensures exists i :: 0 <= i < |subs| && id in CallsOf(cs, subs[i])
    decreases |subs|
  {
    hide CallsOf;
    if id !in CallsOf(cs, subs[0]) {
      SubCallAt(cs, subs[1..], id);
      var i :| 0 <= i < |subs[1..]| && id in CallsOf(cs, subs[1..][i]);
      assert id in CallsOf(cs, subs[i + 1]);
    }
  }

  /** A legal run never evaluates the dead child. */
  lemma DeadChildNotRun(n: Node, run: Run, fo: FloatOps, i: nat)
    requires Legal(n, run, fo) && i < |run.subs| && DeadChild(n, fo).Some?
    ensures run.subs[i].child != DeadChild(n, fo).value
  {
    OperandFolds(n, run, fo, 0);
  }

  /** No call made in any run lies in a dead branch. */
  lemma {:induction false} ReachedIsLive(n: Node, run: Run, fo: FloatOps, id: nat)
    requires Unique(n) && Legal(n, run, fo) && id in Calls(n, run)
    ensures id !in DeadIds(n, fo)
    decreases run
  {
    hide Ids, Legal, Called, DeadChild, IdsAll, UniqueAll, DeadAll, Calls;
    var cs := Children(n);
    DeadWithin(n, fo);
    if id in DeadIds(n, fo) {
      assert id != n.id by { OwnIdApart(n); }
      assert id in SubCalls(cs, run.subs) by { CallsSplit(n, run, id); }
      SubCallAt(cs, run.subs, id);
      var i :| 0 <= i < |run.subs| && id in CallsOf(cs, run.subs[i]);
      SubReachedIsLive(n, run, fo, i, id);
    }
  }

  lemma OwnIdApart(n: Node)
    requires Unique(n)
    ensures n.id !in IdsAll(Children(n)) && UniqueAll(Children(n))
  {
  }

  lemma CallsSplit(n: Node, run: Run, id: nat)
    requires id in Calls(n, run) && id != n.id
    ensures id in SubCalls(Children(n), run.subs)
  {
  }

  lemma {:induction false} SubReachedIsLive(n: Node, run: Run, fo: FloatOps, i: nat, id: nat)
    requires Unique(n) && Legal(n, run, fo) && i < |run.subs| && id in CallsOf(Children(n), run.subs[i])
    ensures id !in DeadIds(n, fo)
    decreases run, 0
  {
    var cs, s := Children(n), run.subs[i];
    LegalSubAt(cs, run.subs, fo, i);
    UniqueAt(cs, s.child);
    hide Ids, IdsAll, UniqueAll, Unique, Legal, Calls, DeadChild;
    OwnIdApart(n);
    CallsOfWithin(cs, s);
    ChildReachedIsLive(s, cs, fo, id);
    if id in OwnDead(n, fo) {
      DeadChildNotRun(n, run, fo, i);
      SiblingIds(cs, s.child, DeadChild(n, fo).value);
    }
    if id in DeadAll(cs, fo) {
      DeadAllAt(cs, fo, id);
      var j :| 0 <= j < |cs| && id in DeadIds(cs[j], fo);
      DeadIdsWithin(cs[j], fo);
      if j != s.child { SiblingIds(cs, s.child, j); }
    }
  }

  lemma {:induction false} ChildReachedIsLive(s: Sub, cs: seq<Node>, fo: FloatOps, id: nat)
    requires s.child < |cs| && Unique(cs[s.child]) && Legal(cs[s.child], s.run, fo) && id in CallsOf(cs, s)
    ensures id !in DeadIds(cs[s.child], fo)
    decreases s
  {
    ReachedIsLive(cs[s.child], s.run, fo, id);
  }

  lemma DeadIdsWithin(n: Node, fo: FloatOps)
    ensures DeadIds(n, fo) <= Ids(n)
  {
    DeadWithin(n, fo);
  }

  lemma SiblingIds(cs: seq<Node>, i: nat, j: nat)
    requires UniqueAll(cs) && i < |cs| && j < |cs| && i != j
    ensures Ids(cs[i]) !! Ids(cs[j])
  {
    if i < j { SiblingsApart(cs, i, j); } else { SiblingsApart(cs, j, i); }
  }
}
