/** The static capability check: every call that a run could make without the capabilities its callee
    declares is reported, and calls that only dead branches contain are not. */
module CapabilityCheck {
  import opened Wrappers
  import opened ConstFold
  import opened Evaluation
  import opened Pruning

  datatype Capability = ReadsFs | WritesFs | Network | ReadsClock | ReadsEnv | UsesRng

  /** The bits a native function declares, or a host grants. */
  type Bits = set<Capability>

  const DECLARATION_ORDER: seq<Capability> := [ReadsFs, WritesFs, Network, ReadsClock, ReadsEnv, UsesRng]

  datatype Diagnostic = CapabilityRequired(id: nat, fnName: string, capability: Capability)

  /** The bits a gate requires that are not granted, in declaration order. */
  function MissingBits(gate: Bits, caps: Bits, order: seq<Capability>): (r: seq<Capability>)
    ensures forall c :: c in r <==> c in order && c in gate && c !in caps
  {
    if order == [] then []
    else
      var rest := MissingBits(gate, caps, order[1..]);
      if order[0] in gate && order[0] !in caps then [order[0]] + rest else rest
  }

  /** The order the bits are declared in. */
  function Rank(c: Capability): nat {
    match c
    case ReadsFs => 0
    case WritesFs => 1
    case Network => 2
    case ReadsClock => 3
    case ReadsEnv => 4
    case UsesRng => 5
  }

  predicate Ascending(bits: seq<Capability>) {
    forall i, j :: 0 <= i < j < |bits| ==> Rank(bits[i]) < Rank(bits[j])
  }

  lemma {:induction false} MissingAscending(gate: Bits, caps: Bits, order: seq<Capability>)
    requires Ascending(order)
    ensures Ascending(MissingBits(gate, caps, order))
    decreases |order|
  {
    if order != [] {
      MissingAscending(gate, caps, order[1..]);
      var rest := MissingBits(gate, caps, order[1..]);
      forall j | 0 <= j < |rest| ensures Rank(order[0]) < Rank(rest[j]) {
        assert rest[j] in order[1..];
        var i :| 0 <= i < |order[1..]| && order[1..][i] == rest[j];
        assert order[i + 1] == rest[j];
      }
    }
  }

  lemma EveryBitDeclared(c: Capability)
    ensures c in DECLARATION_ORDER
  {
    match c
    case ReadsFs => assert DECLARATION_ORDER[0] == c;
    case WritesFs => assert DECLARATION_ORDER[1] == c;
    case Network => assert DECLARATION_ORDER[2] == c;
    case ReadsClock => assert DECLARATION_ORDER[3] == c;
    case ReadsEnv => assert DECLARATION_ORDER[4] == c;
    case UsesRng => assert DECLARATION_ORDER[5] == c;
  }

  /** The dotted callee name; `None` when any segment is computed. */
  function NativeFunctionName(path: seq<Segment>): Option<string> {
    if path == [] then Some("")
    else if path[0].Computed? then None
    else if |path| == 1 then Some(path[0].name)
    else
      match NativeFunctionName(path[1..])
      case None => None
      case Some(rest) => Some(path[0].name + "." + rest)
  }

  predicate AllNamed(path: seq<Segment>) {
    forall i :: 0 <= i < |path| ==> path[i].Named?
  }

  /** The names joined with dots. */
  function Dotted(path: seq<Segment>): string
    requires AllNamed(path)
    decreases |path|
  {
    var n := |path| - 1;
    if path == [] then "" else if n == 0 then path[0].name else Dotted(path[..n]) + "." + path[n].name
  }

  /** A callee has a static name exactly when every segment is a plain name; it is the dotted one. */
  lemma {:induction false} NameIs(path: seq<Segment>)
    ensures NativeFunctionName(path).Some? <==> AllNamed(path)
    ensures AllNamed(path) ==> NativeFunctionName(path) == Some(Dotted(path))
    decreases |path|
  {
    if path != [] {
      NameIs(path[1..]);
      assert forall i :: 0 < i < |path| ==> path[i] == path[1..][i - 1];
      if AllNamed(path) && |path| > 1 { DottedHead(path); }
    }
  }

  lemma {:induction false} DottedHead(path: seq<Segment>)
    requires AllNamed(path) && |path| > 1
    ensures Dotted(path) == path[0].name + "." + Dotted(path[1..])
    decreases |path|
  {
    var n := |path| - 1;
    if n > 1 {
      DottedHead(path[..n]);
      assert path[..n][1..] == path[1..][..n - 1] && path[1..][n - 1] == path[n];
      var rest := Dotted(path[1..][..n - 1]);
      assert (path[0].name + "." + rest) + "." + path[n].name == path[0].name + "." + (rest + "." + path[n].name);
    } else {
      assert path[..1][0] == path[0] && path[1..][0] == path[1];
    }
  }

  /** The name of a path is its parts' names with a dot between. */
  lemma NameJoins(a: seq<Segment>, b: seq<Segment>)
    requires a != [] && b != [] && AllNamed(a) && AllNamed(b)
    ensures NativeFunctionName(a).Some? && NativeFunctionName(b).Some?
    ensures NativeFunctionName(a + b) == Some(NativeFunctionName(a).value + "." + NativeFunctionName(b).value)
  {
    hide NativeFunctionName, Dotted;
    NameIs(a);
    NameIs(b);
    NameIs(a + b);
    DottedJoins(a, b);
  }

  lemma DottedSnoc(a: seq<Segment>, x: Segment)
    requires a != [] && AllNamed(a) && x.Named?
    ensures AllNamed(a + [x]) && Dotted(a + [x]) == Dotted(a) + "." + x.name
  {
    var p := a + [x];
    assert p[..|a|] == a && p[|a|] == x;
  }

  lemma {:induction false} DottedJoins(a: seq<Segment>, b: seq<Segment>)
    requires a != [] && b != [] && AllNamed(a) && AllNamed(b)
    ensures Dotted(a + b) == Dotted(a) + "." + Dotted(b)
    decreases |b|
  {
    var n := |b| - 1;
    var front, last := b[..n], b[n];
    if n == 0 {
      assert b == [last];
      DottedSnoc(a, last);
    } else {
      hide Dotted;
      DottedJoins(a, front);
      assert front + [last] == b && (a + front) + [last] == a + b;
      DottedSnoc(front, last);
      DottedSnoc(a + front, last);
      JoinAssoc(Dotted(a), Dotted(front), last.name);
    }
  }

  lemma JoinAssoc(x: string, y: string, z: string)
    ensures (x + "." + y) + "." + z == x + "." + (y + "." + z)
  {
  }

  // ----- the specification: no cache -----

  function Labels(id: nat, name: string, bits: seq<Capability>): (r: seq<Diagnostic>)
    ensures forall d :: d in r <==> d.id == id && d.fnName == name && d.capability in bits
  {
    if bits == [] then [] else [CapabilityRequired(id, name, bits[0])] + Labels(id, name, bits[1..])
  }

  /** The diagnostics of one call node. */
  function CheckNode(n: Node, caps: Bits, gates: map<string, Bits>): seq<Diagnostic> {
    if !n.expr.FnCall? then []
    else
      match NativeFunctionName(n.expr.path)
      case None => []
      case Some(name) =>
        if name !in gates then [] else Labels(n.id, name, MissingBits(gates[name], caps, DECLARATION_ORDER))
  }

  /** The diagnostics a call gets: one for each required bit that is not granted, in declaration order. */
  ghost predicate Labelled(ds: seq<Diagnostic>, id: nat, name: string, gate: Bits, caps: Bits) {
    && (forall i :: 0 <= i < |ds| ==> ds[i].id == id && ds[i].fnName == name)
    && (forall i, j :: 0 <= i < j < |ds| ==> Rank(ds[i].capability) < Rank(ds[j].capability))
    && (forall c :: (c in gate && c !in caps) <==> exists i :: 0 <= i < |ds| && ds[i].capability == c)
  }

  lemma {:induction false} LabelsAre(id: nat, name: string, bits: seq<Capability>)
    ensures var ds := Labels(id, name, bits);
      |ds| == |bits| && forall i :: 0 <= i < |ds| ==> ds[i] == CapabilityRequired(id, name, bits[i])
    decreases |bits|
  {
    if bits != [] { LabelsAre(id, name, bits[1..]); }
  }

  /** Nothing for anything but a call, a computed callee or one without a gate; for a gated callee exactly
      the missing bits, each once, in declaration order. */
  lemma CheckNodeExact(n: Node, caps: Bits, gates: map<string, Bits>)
    ensures
      if n.expr.FnCall? && AllNamed(n.expr.path) && Dotted(n.expr.path) in gates then
        var name := Dotted(n.expr.path); Labelled(CheckNode(n, caps, gates), n.id, name, gates[name], caps)
      else CheckNode(n, caps, gates) == []
  {
    hide NativeFunctionName, Labels, MissingBits, Dotted;
    if n.expr.FnCall? {
      NameIs(n.expr.path);
      if AllNamed(n.expr.path) && Dotted(n.expr.path) in gates {
        var name := Dotted(n.expr.path);
        var bits := MissingBits(gates[name], caps, DECLARATION_ORDER);
        LabelsAre(n.id, name, bits);
        DeclaredAscending();
        MissingAscending(gates[name], caps, DECLARATION_ORDER);
        var ds := CheckNode(n, caps, gates);
        forall c ensures (c in gates[name] && c !in caps) <==> exists i :: 0 <= i < |ds| && ds[i].capability == c {
          EveryBitDeclared(c);
          assert c in bits <==> c in gates[name] && c !in caps;
          if c in bits {
            var i :| 0 <= i < |bits| && bits[i] == c;
            assert ds[i].capability == c;
          }
        }
      }
    }
  }

  lemma DeclaredAscending()
    ensures Ascending(DECLARATION_ORDER)
  {
  }

  /** Identifiers inside the dead branches of the nodes of an index. */
  function DeadOf(index: seq<Node>, fo: FloatOps): set<nat> {
    if index == [] then {} else OwnDead(index[0], fo) + DeadOf(index[1..], fo)
  }

  /** The diagnostics of the live call nodes of an index, in its order. */
  function ReportLive(index: seq<Node>, dead: set<nat>, caps: Bits, gates: map<string, Bits>): seq<Diagnostic> {
    if index == [] then []
    else
      (if index[0].id in dead then [] else CheckNode(index[0], caps, gates)) + ReportLive(index[1..], dead, caps, gates)
  }

  function Report(index: seq<Node>, caps: Bits, gates: map<string, Bits>, fo: FloatOps): seq<Diagnostic> {
    ReportLive(index, DeadOf(index, fo), caps, gates)
  }

  /** Every node of the tree, each once. */
  function Nodes(n: Node): seq<Node>
    decreases Height(n), 0
  {
    HeightChildren(n);
    [n] + NodesAll(Children(n))
  }

  function NodesAll(ns: seq<Node>): seq<Node>
    decreases HeightAll(ns), |ns|
  {
    if ns == [] then [] else Nodes(ns[0]) + NodesAll(ns[1..])
  }

  /** `index` lists the nodes of the trees, in any order: a module's own tree and the schema bodies
      mirrored beside it. */
  predicate Indexes(index: seq<Node>, trees: seq<Node>) {
    multiset(index) == multiset(NodesAll(trees))
  }

  /** `index` lists the nodes of one tree among others that share no identifier with it. */
  predicate IndexesAmong(index: seq<Node>, root: Node) {
    && (forall n :: n in Nodes(root) ==> n in index)
    && (forall n :: n in index ==> n in Nodes(root) || Ids(n) !! Ids(root))
  }

  // ----- what is reported, exactly -----

  lemma {:induction false} ReportedIff(
    index: seq<Node>, dead: set<nat>, caps: Bits, gates: map<string, Bits>, d: Diagnostic)
    ensures d in ReportLive(index, dead, caps, gates) <==>
      exists n :: n in index && n.id !in dead && d in CheckNode(n, caps, gates)
    decreases |index|
  {
    hide CheckNode;
    if index != [] {
      ReportedIff(index[1..], dead, caps, gates, d);
      assert index == [index[0]] + index[1..];
    }
  }

  lemma {:induction false} DeadOfIff(index: seq<Node>, fo: FloatOps, id: nat)
    ensures id in DeadOf(index, fo) <==> exists n :: n in index && id in OwnDead(n, fo)
    decreases |index|
  {
    hide OwnDead;
    if index != [] {
      DeadOfIff(index[1..], fo, id);
      assert index == [index[0]] + index[1..];
    }
  }

  /** The dead identifiers of a full index are those of the tree. */
  lemma {:induction false} DeadOfTree(n: Node, fo: FloatOps, id: nat)
    ensures (exists m :: m in Nodes(n) && id in OwnDead(m, fo)) <==> id in DeadIds(n, fo)
    decreases Height(n), 0
  {
    HeightChildren(n);
    DeadOfTrees(Children(n), fo, id);
    assert Nodes(n) == [n] + NodesAll(Children(n));
  }

  lemma {:induction false} DeadOfTrees(ns: seq<Node>, fo: FloatOps, id: nat)
    ensures (exists m :: m in NodesAll(ns) && id in OwnDead(m, fo)) <==> id in DeadAll(ns, fo)
    decreases HeightAll(ns), |ns|
  {
    hide OwnDead;
    if ns != [] {
      DeadOfTree(ns[0], fo, id);
      DeadOfTrees(ns[1..], fo, id);
      assert NodesAll(ns) == Nodes(ns[0]) + NodesAll(ns[1..]);
    }
  }

  lemma IndexMember(index: seq<Node>, trees: seq<Node>, n: Node)
    requires Indexes(index, trees)
    ensures n in index <==> n in NodesAll(trees)
  {
    assert n in index <==> n in multiset(index);
    assert n in NodesAll(trees) <==> n in multiset(NodesAll(trees));
  }

  lemma DeadOfIndex(index: seq<Node>, trees: seq<Node>, fo: FloatOps, id: nat)
    requires Indexes(index, trees)
    ensures id in DeadOf(index, fo) <==> id in DeadAll(trees, fo)
  {
    hide OwnDead, Indexes;
    DeadOfIff(index, fo, id);
    DeadOfTrees(trees, fo, id);
    forall n ensures n in index <==> n in NodesAll(trees) { IndexMember(index, trees, n); }
  }

  lemma OwnDeadInside(n: Node, fo: FloatOps)
    ensures OwnDead(n, fo) <= Ids(n)
  {
    hide Ids;
    var k := DeadChild(n, fo);
    if k.Some? { IdsAt(Children(n), k.value); }
    assert IdsAll(Children(n)) <= Ids(n) by { IdsOfChildren(n); }
  }

  lemma IdsOfChildren(n: Node)
    ensures n.id in Ids(n) && IdsAll(Children(n)) <= Ids(n)
  {
  }

  /** Foreign nodes of the index make no identifier of the tree dead. */
  lemma DeadAmong(index: seq<Node>, root: Node, fo: FloatOps, id: nat)
    requires IndexesAmong(index, root) && id in Ids(root)
    ensures id in DeadOf(index, fo) <==> id in DeadIds(root, fo)
  {
    hide OwnDead, Nodes, Ids, DeadOf, DeadIds;
    DeadOfIff(index, fo, id);
    DeadOfTree(root, fo, id);
    if id in DeadOf(index, fo) {
      var n :| n in index && id in OwnDead(n, fo);
      OwnDeadInside(n, fo);
    }
  }

  /** The check reports a missing capability of exactly the calls outside every dead branch. */
  lemma ReportExact(
    index: seq<Node>, trees: seq<Node>, caps: Bits, gates: map<string, Bits>, fo: FloatOps, d: Diagnostic)
    requires Indexes(index, trees)
    ensures d in Report(index, caps, gates, fo) <==>
      exists n :: n in NodesAll(trees) && n.id !in DeadAll(trees, fo) && d in CheckNode(n, caps, gates)
  {
    hide CheckNode, Indexes, DeadOf, DeadAll, ReportLive;
    ReportedIff(index, DeadOf(index, fo), caps, gates, d);
    forall n ensures n in index <==> n in NodesAll(trees) { IndexMember(index, trees, n); }
    forall n | n in index ensures n.id in DeadOf(index, fo) <==> n.id in DeadAll(trees, fo) {
      DeadOfIndex(index, trees, fo, n.id);
    }
  }

  // ----- soundness over every run -----

  /** The node of a call made in a run. */
  lemma {:induction false} CallNode(n: Node, run: Run, id: nat)
    requires id in Calls(n, run)
    ensures exists m :: m in Nodes(n) && m.id == id && m.expr.FnCall?
    decreases run
  {
    assert Nodes(n) == [n] + NodesAll(Children(n));
    if !(Called(n, run) && id == n.id) {
      SubCallNode(Children(n), run.subs, id);
    }
  }

  lemma {:induction false} SubCallNode(cs: seq<Node>, subs: seq<Sub>, id: nat)
    requires id in SubCalls(cs, subs)
    ensures exists m :: m in NodesAll(cs) && m.id == id && m.expr.FnCall?
    decreases subs
  {
    if id in CallsOf(cs, subs[0]) {
      CallOfNode(cs, subs[0], id);
    } else {
      SubCallNode(cs, subs[1..], id);
    }
  }

  lemma {:induction false} CallOfNode(cs: seq<Node>, s: Sub, id: nat)
    requires id in CallsOf(cs, s)
    ensures exists m :: m in NodesAll(cs) && m.id == id && m.expr.FnCall?
    decreases s
  {
    CallNode(cs[s.child], s.run, id);
    var m :| m in Nodes(cs[s.child]) && m.id == id && m.expr.FnCall?;
    NodesAt(cs, s.child, m);
  }

  lemma {:induction false} NodesAt(ns: seq<Node>, i: nat, m: Node)
    requires i < |ns| && m in Nodes(ns[i])
    ensures m in NodesAll(ns)
    decreases i
  {
    hide Nodes;
    if i > 0 { NodesAt(ns[1..], i - 1, m); }
  }

  /** Whatever run the program takes, a gated call it makes with a capability missing is reported, for
      every order in which the index lists the nodes and whatever other trees it lists besides. */
  lemma DeniedCallReported(
    root: Node, run: Run, index: seq<Node>, caps: Bits, gates: map<string, Bits>, fo: FloatOps,
    n: Node, name: string, c: Capability)
    requires Unique(root) && IndexesAmong(index, root) && Legal(root, run, fo)
    requires n in Nodes(root) && n.expr.FnCall? && n.id in Calls(root, run)
    requires AllNamed(n.expr.path) && name == Dotted(n.expr.path) && name in gates && c in gates[name] && c !in caps
    ensures CapabilityRequired(n.id, name, c) in Report(index, caps, gates, fo)
  {
    NameIs(n.expr.path);
    MissingBitLabelled(n, caps, gates, name, c);
    hide CheckNode, DeadIds, DeadOf, ReportLive, Legal, Calls, Unique, Nodes, Ids;
    ReachedIsLive(root, run, fo, n.id);
    NodeIds(root, n);
    DeadAmong(index, root, fo, n.id);
    ReportedIff(index, DeadOf(index, fo), caps, gates, CapabilityRequired(n.id, name, c));
  }

  /** What `CheckNode` gives a gated call: one diagnostic for each missing bit. */
  lemma MissingBitLabelled(n: Node, caps: Bits, gates: map<string, Bits>, name: string, c: Capability)
    requires n.expr.FnCall? && NativeFunctionName(n.expr.path) == Some(name) && name in gates
    ensures CapabilityRequired(n.id, name, c) in CheckNode(n, caps, gates) <==> c in gates[name] && c !in caps
  {
    EveryBitDeclared(c);
  }

  // ----- order of the index -----

  lemma {:induction false} ReportLiveSplit(
    a: seq<Node>, b: seq<Node>, dead: set<nat>, caps: Bits, gates: map<string, Bits>)
    ensures ReportLive(a + b, dead, caps, gates) == ReportLive(a, dead, caps, gates) + ReportLive(b, dead, caps, gates)
    decreases |a|
  {
    hide CheckNode;
    if a == [] {
      assert a + b == b;
    } else {
      assert (a + b)[1..] == a[1..] + b;
      ReportLiveSplit(a[1..], b, dead, caps, gates);
    }
  }

  lemma RemoveFirst(xs: seq<Node>, ys: seq<Node>, k: nat)
    requires xs != [] && multiset(xs) == multiset(ys) && k < |ys| && ys[k] == xs[0]
    ensures multiset(xs[1..]) == multiset(ys[..k] + ys[k + 1..])
  {
    assert xs == [xs[0]] + xs[1..];
    assert ys == ys[..k] + [ys[k]] + ys[k + 1..];
    assert multiset(xs) == multiset{xs[0]} + multiset(xs[1..]);
    assert multiset(ys) == multiset(ys[..k]) + multiset{ys[k]} + multiset(ys[k + 1..]);
    assert multiset(xs[1..]) == multiset(xs) - multiset{xs[0]};
    assert multiset(ys[..k] + ys[k + 1..]) == multiset(ys) - multiset{ys[k]};
  }

  lemma {:induction false} ReportLiveOrder(
    xs: seq<Node>, ys: seq<Node>, dead: set<nat>, caps: Bits, gates: map<string, Bits>)
    requires multiset(xs) == multiset(ys)
    ensures multiset(ReportLive(xs, dead, caps, gates)) == multiset(ReportLive(ys, dead, caps, gates))
    decreases |xs|
  {
    hide CheckNode, ReportLive;
    if xs == [] {
      assert |multiset(ys)| == |multiset(xs)| == 0;
      assert ys == [];
    } else {
      var x := xs[0];
      assert x in multiset(xs);
      assert x in multiset(ys);
      var k :| 0 <= k < |ys| && ys[k] == x;
      var before, after := ys[..k], ys[k + 1..];
      RemoveFirst(xs, ys, k);
      ReportLiveOrder(xs[1..], before + after, dead, caps, gates);
      assert xs == [x] + xs[1..] && ys == before + ([x] + after);
      ReportLiveSplit([x], xs[1..], dead, caps, gates);
      ReportLiveSplit(before, [x] + after, dead, caps, gates);
      ReportLiveSplit([x], after, dead, caps, gates);
      ReportLiveSplit(before, after, dead, caps, gates);
    }
  }

  /** The index order changes the order of the diagnostics and nothing else. */
  lemma OrderIrrelevant(xs: seq<Node>, ys: seq<Node>, caps: Bits, gates: map<string, Bits>, fo: FloatOps)
    requires multiset(xs) == multiset(ys)
    ensures multiset(Report(xs, caps, gates, fo)) == multiset(Report(ys, caps, gates, fo))
  {
    hide OwnDead, ReportLive;
    forall id
      ensures id in DeadOf(xs, fo) <==> id in DeadOf(ys, fo)
    {
      DeadOfIff(xs, fo, id);
      DeadOfIff(ys, fo, id);
      forall n ensures n in xs <==> n in ys {
        assert n in xs <==> n in multiset(xs);
        assert n in ys <==> n in multiset(ys);
      }
    }
    assert DeadOf(xs, fo) == DeadOf(ys, fo);
    ReportLiveOrder(xs, ys, DeadOf(xs, fo), caps, gates);
  }

  // ----- the walk as it runs -----

  /** The fold cache agrees with folding: each entry is what its node folds to. */
  ghost predicate CacheAgrees(cache: map<nat, Option<ConstValue>>, known: set<Node>, fo: FloatOps) {
    forall n :: n in known && n.id in cache ==> cache[n.id] == FoldOrNothing(n, fo)
  }

  function FoldOrNothing(n: Node, fo: FloatOps): Option<ConstValue> {
    match TryFold(n, fo)
    case Ok(v) => v
    case Err(_) => None
  }

  /** Distinct nodes have distinct identifiers. */
  ghost predicate DistinctIds(known: set<Node>) {
    forall m, n :: m in known && n in known && m.id == n.id ==> m == n
  }

  /** The first operand of a node is among the known nodes. */
  ghost predicate FirstChildKnown(known: set<Node>) {
    forall n :: n in known && Children(n) != [] ==> Children(n)[0] in known
  }

  class Walker {
    const fo: FloatOps
    ghost const known: set<Node>
    var deadIds: set<nat>
    var fnCalls: seq<Node>
    var foldCache: map<nat, Option<ConstValue>>
    var diagnostics: seq<Diagnostic>

    constructor (fo: FloatOps, ghost known: set<Node>, diagnostics: seq<Diagnostic>)
      requires DistinctIds(known) && FirstChildKnown(known)
      ensures Valid() && this.fo == fo && this.known == known && this.diagnostics == diagnostics
      ensures deadIds == {} && fnCalls == []
    {
      this.fo, this.known, this.diagnostics := fo, known, diagnostics;
      deadIds, fnCalls, foldCache := {}, [], map[];
    }

    ghost predicate Valid()
      reads this
    {
      DistinctIds(known) && FirstChildKnown(known) && CacheAgrees(foldCache, known, fo)
    }

    /** A condition's static truth value, folded at most once per identifier. */
    method ConstBoolCached(cond: Node) returns (r: Option<bool>)
      requires Valid() && cond in known
      modifies this`foldCache
      ensures Valid() && r == ConstBool(cond, fo)
    {
      if cond.id !in foldCache {
        foldCache := foldCache[cond.id := FoldOrNothing(cond, fo)];
      }
      match foldCache[cond.id]
      case Some(Bool(b)) => return Some(b);
      case _ => return None;
    }

    method DeadBranchOfCached(n: Node) returns (dead: Option<Node>)
      requires Valid() && n in known
      modifies this`foldCache
      ensures Valid()
      ensures dead == (match DeadChild(n, fo) case None => None case Some(k) => Some(Children(n)[k]))
    {
      match n.expr
      case Ternary(c, t, e) =>
        assert Children(n)[0] == c;
        var b := ConstBoolCached(c);
        return if b.None? then None else if b.value then Some(e) else Some(t);
      case Binary(And, l, r) =>
        assert Children(n)[0] == l;
        var b := ConstBoolCached(l);
        return if b == Some(false) then Some(r) else None;
      case Binary(Or, l, r) =>
        assert Children(n)[0] == l;
        var b := ConstBoolCached(l);
        return if b == Some(true) then Some(r) else None;
      case _ => return None;
    }

    /** Adds the identifiers of a subtree. */
    method CollectDescendantIds(n: Node)
      modifies this`deadIds
      ensures deadIds == old(deadIds) + Ids(n)
      decreases Height(n), 0
    {
      HeightChildren(n);
      deadIds := deadIds + {n.id};
      var cs := Children(n);
      assert cs[0..] == cs;
      for i := 0 to |cs|
        invariant old(deadIds) + Ids(n) == deadIds + IdsAll(cs[i..])
      {
        HeightAt(cs, i);
        assert cs[i..][0] == cs[i] && cs[i..][1..] == cs[i + 1..];
        CollectDescendantIds(cs[i]);
      }
    }

    /** One pass over the index collects dead branches and calls; a second reports the live calls. */
    method Walk(index: seq<Node>, caps: Bits, gates: map<string, Bits>)
      requires Valid() && deadIds == {} && fnCalls == [] && forall n :: n in index ==> n in known
      modifies this
      ensures Valid() && diagnostics == old(diagnostics) + Report(index, caps, gates, fo)
    {
      hide DeadOf, CallsIn, ReportLive, CacheAgrees;
      Collect(index);
      ReportCalls(caps, gates);
      CallsSuffice(index, deadIds, caps, gates);
    }

    method Collect(index: seq<Node>)
      requires Valid() && deadIds == {} && fnCalls == [] && forall n :: n in index ==> n in known
      modifies this`foldCache, this`deadIds, this`fnCalls
      ensures Valid() && deadIds == DeadOf(index, fo) && fnCalls == CallsIn(index)
    {
      hide OwnDead, Ids;
      assert index[0..] == index;
      for i := 0 to |index|
        invariant Valid() && DeadOf(index, fo) == deadIds + DeadOf(index[i..], fo)
        invariant fnCalls == CallsIn(index[..i])
      {
        var n := index[i];
        assert index[i..][0] == n && index[i..][1..] == index[i + 1..];
        CallsInStep(index, i);
        if n.expr.FnCall? {
          fnCalls := fnCalls + [n];
        }
        var dead := DeadBranchOfCached(n);
        OwnDeadOf(n, fo);
        if dead.Some? {
          CollectDescendantIds(dead.value);
        }
      }
      assert index[|index|..] == [] && index[..|index|] == index;
    }

    method ReportCalls(caps: Bits, gates: map<string, Bits>)
      modifies this`diagnostics
      ensures diagnostics == old(diagnostics) + ReportLive(fnCalls, deadIds, caps, gates)
    {
      hide CheckNode, ReportLive;
      assert fnCalls[..0] == [];
      ReportLiveNone(deadIds, caps, gates);
      for i := 0 to |fnCalls|
        invariant diagnostics == old(diagnostics) + ReportLive(fnCalls[..i], deadIds, caps, gates)
      {
        ReportLiveStep(fnCalls, i, deadIds, caps, gates);
        if fnCalls[i].id !in deadIds {
          diagnostics := diagnostics + CheckNode(fnCalls[i], caps, gates);
        }
      }
      assert fnCalls[..|fnCalls|] == fnCalls;
    }
  }

  function CallOnly(n: Node): seq<Node> {
    if n.expr.FnCall? then [n] else []
  }

  function CallsIn(index: seq<Node>): seq<Node> {
    if index == [] then [] else CallOnly(index[0]) + CallsIn(index[1..])
  }

  lemma {:induction false} CallsInSplit(a: seq<Node>, b: seq<Node>)
    ensures CallsIn(a + b) == CallsIn(a) + CallsIn(b)
    decreases |a|
  {
    hide CallOnly;
    if a == [] {
      assert a + b == b;
    } else {
      assert (a + b)[1..] == a[1..] + b;
      CallsInSplit(a[1..], b);
    }
  }

  lemma CallsInStep(index: seq<Node>, i: nat)
    requires i < |index|
    ensures CallsIn(index[..i + 1]) == CallsIn(index[..i]) + CallOnly(index[i])
  {
    hide CallOnly;
    CallsInSplit(index[..i], [index[i]]);
    assert index[..i + 1] == index[..i] + [index[i]];
    assert [index[i]][1..] == [];
  }

  lemma OwnDeadOf(n: Node, fo: FloatOps)
    ensures OwnDead(n, fo) == (match DeadChild(n, fo) case None => {} case Some(k) => Ids(Children(n)[k]))
  {
  }

  /** Only call nodes produce diagnostics. */
  lemma {:induction false} CallsSuffice(index: seq<Node>, dead: set<nat>, caps: Bits, gates: map<string, Bits>)
    ensures ReportLive(CallsIn(index), dead, caps, gates) == ReportLive(index, dead, caps, gates)
    decreases |index|
  {
    if index != [] {
      CallsSuffice(index[1..], dead, caps, gates);
      if index[0].expr.FnCall? {
        assert CallsIn(index)[1..] == CallsIn(index[1..]);
      } else {
        assert CallsIn(index) == CallsIn(index[1..]);
        assert ReportLive(index, dead, caps, gates) == ReportLive(index[1..], dead, caps, gates);
      }
    }
  }

  lemma ReportLiveNone(dead: set<nat>, caps: Bits, gates: map<string, Bits>)
    ensures ReportLive([], dead, caps, gates) == []
  {
  }

  lemma ReportLiveStep(calls: seq<Node>, i: nat, dead: set<nat>, caps: Bits, gates: map<string, Bits>)
    requires i < |calls|
    ensures ReportLive(calls[..i + 1], dead, caps, gates) ==
      ReportLive(calls[..i], dead, caps, gates) + if calls[i].id in dead then [] else CheckNode(calls[i], caps, gates)
  {
    hide CheckNode;
    ReportLiveSplit(calls[..i], [calls[i]], dead, caps, gates);
    assert calls[..i + 1] == calls[..i] + [calls[i]];
    assert [calls[i]][1..] == [];
  }

  lemma {:induction false} HeightAt(ns: seq<Node>, i: nat)
    requires i < |ns|
    ensures Height(ns[i]) <= HeightAll(ns)
    decreases i
  {
    hide Height;
    if i > 0 { HeightAt(ns[1..], i - 1); }
  }

  // ----- from a tree to its walk -----

  lemma {:induction false} NodeIds(n: Node, m: Node)
    requires m in Nodes(n)
    ensures m.id in Ids(n)
    decreases Height(n), 0
  {
    HeightChildren(n);
    if m != n { NodeIdsAll(Children(n), m); }
  }

  lemma {:induction false} NodeIdsAll(ns: seq<Node>, m: Node)
    requires m in NodesAll(ns)
    ensures m.id in IdsAll(ns)
    decreases HeightAll(ns), |ns|
  {
    if m in Nodes(ns[0]) { NodeIds(ns[0], m); } else { NodeIdsAll(ns[1..], m); }
  }

  lemma {:induction false} UniqueNodes(n: Node, m: Node, m': Node)
    requires Unique(n) && m in Nodes(n) && m' in Nodes(n) && m.id == m'.id
    ensures m == m'
    decreases Height(n), 0
  {
    HeightChildren(n);
    var cs := Children(n);
    if m in NodesAll(cs) { NodeIdsAll(cs, m); }
    if m' in NodesAll(cs) { NodeIdsAll(cs, m'); }
    if m in NodesAll(cs) && m' in NodesAll(cs) { UniqueNodesAll(cs, m, m'); }
  }

  lemma {:induction false} UniqueNodesAll(ns: seq<Node>, m: Node, m': Node)
    requires UniqueAll(ns) && m in NodesAll(ns) && m' in NodesAll(ns) && m.id == m'.id
    ensures m == m'
    decreases HeightAll(ns), |ns|
  {
    if m in Nodes(ns[0]) { NodeIds(ns[0], m); } else { NodeIdsAll(ns[1..], m); }
    if m' in Nodes(ns[0]) { NodeIds(ns[0], m'); } else { NodeIdsAll(ns[1..], m'); }
    if m in Nodes(ns[0]) {
      UniqueNodes(ns[0], m, m');
    } else {
      UniqueNodesAll(ns[1..], m, m');
    }
  }

  lemma {:induction false} ChildNode(n: Node, m: Node)
    requires m in Nodes(n) && Children(m) != []
    ensures Children(m)[0] in Nodes(n)
    decreases Height(n), 0
  {
    HeightChildren(n);
    if m == n {
      var c := Children(n)[0];
      assert c in Nodes(c);
      NodesAt(Children(n), 0, c);
    } else {
      ChildNodeAll(Children(n), m);
    }
  }

  lemma {:induction false} ChildNodeAll(ns: seq<Node>, m: Node)
    requires m in NodesAll(ns) && Children(m) != []
    ensures Children(m)[0] in NodesAll(ns)
    decreases HeightAll(ns), |ns|
  {
    if m in Nodes(ns[0]) { ChildNode(ns[0], m); } else { ChildNodeAll(ns[1..], m); }
  }

  ghost function Known(trees: seq<Node>): set<Node> {
    set n | n in NodesAll(trees)
  }

  lemma TreesKnown(trees: seq<Node>)
    requires UniqueAll(trees)
    ensures DistinctIds(Known(trees)) && FirstChildKnown(Known(trees))
  {
    hide NodesAll, UniqueAll;
    forall m, n | m in Known(trees) && n in Known(trees) && m.id == n.id ensures m == n { UniqueNodesAll(trees, m, n); }
    forall n | n in Known(trees) && Children(n) != [] ensures Children(n)[0] in Known(trees) { ChildNodeAll(trees, n); }
  }

  /** A module of the workspace: its trees and the index of their nodes. */
  datatype Module = Module(trees: seq<Node>, index: seq<Node>)

  predicate WellIndexed(m: Module) {
    UniqueAll(m.trees) && Indexes(m.index, m.trees)
  }

  /** Each tree of a module is indexed among the others. */
  lemma WellIndexedAmong(m: Module, i: nat)
    requires WellIndexed(m) && i < |m.trees|
    ensures Unique(m.trees[i]) && IndexesAmong(m.index, m.trees[i])
  {
    hide Unique, UniqueAll, Indexes, Nodes, NodesAll, Ids;
    var trees, root := m.trees, m.trees[i];
    UniqueAt(trees, i);
    forall n | n in Nodes(root) ensures n in m.index {
      NodesAt(trees, i, n);
      IndexMember(m.index, trees, n);
    }
    forall n | n in m.index ensures n in Nodes(root) || Ids(n) !! Ids(root) {
      IndexMember(m.index, trees, n);
      var j := TreeOf(trees, n);
      SubtreeIds(trees[j], n);
      if j < i { SiblingsApart(trees, j, i); } else if i < j { SiblingsApart(trees, i, j); }
    }
  }

  lemma {:induction false} TreeOf(ns: seq<Node>, m: Node) returns (j: nat)
    requires m in NodesAll(ns)
    ensures j < |ns| && m in Nodes(ns[j])
    decreases |ns|
  {
    hide Nodes;
    if m in Nodes(ns[0]) {
      j := 0;
    } else {
      j := TreeOf(ns[1..], m);
      j := j + 1;
    }
  }

  lemma {:induction false} SubtreeIds(n: Node, m: Node)
    requires m in Nodes(n)
    ensures Ids(m) <= Ids(n)
    decreases Height(n), 0
  {
    HeightChildren(n);
    if m != n { SubtreeIdsAll(Children(n), m); }
  }

  lemma {:induction false} SubtreeIdsAll(ns: seq<Node>, m: Node)
    requires m in NodesAll(ns)
    ensures Ids(m) <= IdsAll(ns)
    decreases HeightAll(ns), |ns|
  {
    if m in Nodes(ns[0]) { SubtreeIds(ns[0], m); } else { SubtreeIdsAll(ns[1..], m); }
  }

  method CheckTree(m: Module, caps: Bits, gates: map<string, Bits>, fo: FloatOps, diagnostics: seq<Diagnostic>)
    returns (out: seq<Diagnostic>)
    requires WellIndexed(m)
    ensures out == diagnostics + Report(m.index, caps, gates, fo)
  {
    hide UniqueAll, Indexes, NodesAll;
    TreesKnown(m.trees);
    forall n | n in m.index ensures n in Known(m.trees) { IndexMember(m.index, m.trees, n); }
    var w := new Walker(fo, Known(m.trees), diagnostics);
    w.Walk(m.index, caps, gates);
    out := w.diagnostics;
  }

  function ReportAll(ms: seq<Module>, caps: Bits, gates: map<string, Bits>, fo: FloatOps): seq<Diagnostic> {
    if ms == [] then [] else ReportAll(ms[..|ms| - 1], caps, gates, fo) + Report(ms[|ms| - 1].index, caps, gates, fo)
  }

  lemma {:induction false} ReportedByModule(
    ms: seq<Module>, i: nat, caps: Bits, gates: map<string, Bits>, fo: FloatOps, d: Diagnostic)
    requires i < |ms| && d in Report(ms[i].index, caps, gates, fo)
    ensures d in ReportAll(ms, caps, gates, fo)
    decreases |ms|
  {
    hide Report;
    if i < |ms| - 1 { ReportedByModule(ms[..|ms| - 1], i, caps, gates, fo, d); }
  }

  /** Soundness of the check of a workspace: a gated call made with a capability missing, in any run of any
      tree of any module, is reported. */
  lemma DeniedInWorkspace(
    ms: seq<Module>, i: nat, j: nat, run: Run, caps: Bits, gates: map<string, Bits>, fo: FloatOps,
    n: Node, name: string, c: Capability)
    requires i < |ms| && WellIndexed(ms[i]) && j < |ms[i].trees| && Legal(ms[i].trees[j], run, fo)
    requires n in Nodes(ms[i].trees[j]) && n.expr.FnCall? && n.id in Calls(ms[i].trees[j], run)
    requires AllNamed(n.expr.path) && name == Dotted(n.expr.path) && name in gates && c in gates[name] && c !in caps
    ensures CapabilityRequired(n.id, name, c) in ReportAll(ms, caps, gates, fo)
  {
    hide WellIndexed, Legal, Calls, Nodes, Unique, IndexesAmong, Report, ReportAll;
    WellIndexedAmong(ms[i], j);
    DeniedCallReported(ms[i].trees[j], run, ms[i].index, caps, gates, fo, n, name, c);
    ReportedByModule(ms, i, caps, gates, fo, CapabilityRequired(n.id, name, c));
  }

  /** Every module is checked against the entry module's capabilities and gates. */
  method CheckWorkspace(
    ms: seq<Module>, caps: Bits, gates: map<string, Bits>, fo: FloatOps)
    returns (out: seq<Diagnostic>)
    requires forall i :: 0 <= i < |ms| ==> WellIndexed(ms[i])
    ensures out == ReportAll(ms, caps, gates, fo)
  {
    hide WellIndexed, Report;
    out := [];
    for i := 0 to |ms|
      invariant out == ReportAll(ms[..i], caps, gates, fo)
    {
      assert ms[..i + 1][..i] == ms[..i];
      out := CheckTree(ms[i], caps, gates, fo, out);
    }
    assert ms[..|ms|] == ms;
  }
}
