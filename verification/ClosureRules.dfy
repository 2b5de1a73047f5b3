/** What the closure table holds, from the graph alone: rules for how a closure reaches a node at an
    access path, each with finitely many uses of them behind it. The computed table has exactly the
    entries that are asked for and exactly the facts the rules give. */
module ClosureRules {
  import opened Wrappers
  import opened FlowGraph
  import opened ClosureSpec

  /** Which closures are known where. */
  type Known = (NodeId, Path, GraphId) -> bool

  /** The longest access path that is followed. */
  const LONGEST: nat := 8

  /** Node `n` is a function constant of graph `t`, or a FILL that closes over one. */
  predicate Makes(g: Graph, n: NodeId, t: GraphId) {
    && n in g.node
    && (|| g.node[n].kind == Data(Function(Some(t)))
        || (g.node[n].kind.Fill? && g.node[n].norms != [] && g.node[n].norms[0] in g.node
            && g.node[g.node[n].norms[0]].kind == Data(Function(Some(t)))))
  }

  ghost predicate MakesClosure(g: Graph, n: NodeId) {
    exists t :: Makes(g, n, t)
  }

  /** FILL `n` fills a flat template with these slots, one per WITH input. */
  predicate Keyed(g: Graph, n: NodeId, keys: seq<Key>) {
    && n in g.node && g.node[n].kind.Fill? && g.node[n].norms != [] && g.node[n].norms[0] in g.node
    && g.node[g.node[n].norms[0]].kind.Data?
    && var t := g.node[g.node[n].norms[0]].kind.constant;
       t.Template? && t.plain && t.keys == keys && |keys| == |g.node[n].withs|
  }

  /** Key `k` means slot `j`: the first slot of that name, or the position if no slot has the name. */
  predicate Meant(keys: seq<Key>, k: Key, j: nat) {
    j < |keys| && if k in keys then keys[j] == k && k !in keys[..j] else k == Index(j)
  }

  /** A CALL whose callee may be a closure of `h`. */
  predicate Reaching(g: Graph, known: Known, c: NodeId, h: GraphId) {
    c in g.node && g.node[c].kind.Call? && g.node[c].withs != [] && known(g.node[c].withs[0], [], h)
  }

  /** The argument a call site passes for a parameter; a CALL's first WITH input is its callee. */
  predicate Passes(g: Graph, s: NodeId, kind: PortKind, index: nat, a: NodeId) {
    && s in g.node
    && var args := if kind.Norm? then g.node[s].norms
                   else if g.node[s].kind.Call? && g.node[s].withs != [] then g.node[s].withs[1..] else g.node[s].withs;
       index < |args| && args[index] == a
  }

  /** Site `s` may enter the graph of parameter `k` and passes `a` for it. */
  predicate PassesTo(g: Graph, known: Known, s: NodeId, k: PortKey, a: NodeId) {
    && s in g.node && Passes(g, s, k.kind, k.index, a)
    && (g.node[s].kind == Func(Some(k.graph)) || Reaching(g, known, s, k.graph))
  }

  /** FILL `f` makes closures of the graph of capture port `n`, which is its `j`-th. */
  predicate Captures(g: Graph, f: NodeId, n: NodeId, j: nat)
    requires n in g.node
  {
    var h := g.node[n].graph;
    Makes(g, f, h) && g.node[f].kind.Fill? && j < |CPorts(g, h)| && CPorts(g, h)[j] == n && j < |g.node[f].withs|
  }

  /** The closures of node `n` at `path` come from node `a` at `q`. */
  ghost predicate ComesFrom(g: Graph, known: Known, n: NodeId, path: Path, a: NodeId, q: Path)
    requires n in g.node
  {
    var node := g.node[n];
    match node.kind
    case Accs(k) => node.norms != [] && a == node.norms[0] && q == [k] + path
    case Fill(_) =>
      if exists keys :: Keyed(g, n, keys) then
        path != [] && q == path[1..] && exists keys, j: nat :: Keyed(g, n, keys) && Meant(keys, path[0], j) && a == node.withs[j]
      else a in node.withs && (q == path || (path != [] && q == path[1..]))
    case Func(t) => t.Some? && t.value in g.exitSrc && a == g.exitSrc[t.value] && q == path
    case Call => q == path && exists h :: Reaching(g, known, n, h) && h in g.exitSrc && a == g.exitSrc[h]
    case Port(slot) =>
      slot.Some? && q == path && exists s :: PassesTo(g, known, s, slot.value, a)
    case ClosurePort =>
      q == path && exists f, j: nat :: Captures(g, f, n, j) && a == g.node[f].withs[j]
    case Join => a in node.withs && q == path
    case Gate => a in node.withs + node.norms && q == path
    case _ => false
  }

  /** Graph `h` is among the closures of node `n` at `path`, given what is known elsewhere. */
  ghost predicate Rule(g: Graph, known: Known, n: NodeId, path: Path, h: GraphId) {
    && n in g.node && |path| <= LONGEST
    && if MakesClosure(g, n) then path == [] && Makes(g, n, h)
       else exists a, q :: ComesFrom(g, known, n, path, a, q) && known(a, q, h)
  }

  /** Looking at entry (`n`, `path`) looks at (`a`, `q`): where its closures come from, and the callees
      that decide where that is. */
  ghost predicate LooksAt(g: Graph, known: Known, n: NodeId, path: Path, a: NodeId, q: Path) {
    && n in g.node && |path| <= LONGEST && !MakesClosure(g, n)
    && (|| ComesFrom(g, known, n, path, a, q)
        || (g.node[n].kind.Call? && Callee(g, n, a) && q == [])
        || (g.node[n].kind.Port? && g.node[n].kind.slot.Some? && q == [] && exists c :: Callee(g, c, a)))
  }

  predicate Callee(g: Graph, c: NodeId, a: NodeId) {
    c in g.node && g.node[c].kind.Call? && g.node[c].withs != [] && a == g.node[c].withs[0]
  }

  // ---- the functions the fixpoint uses

  function InTable(m: Memo): Known {
    (n: NodeId, path: Path, h: GraphId) => h in Look(m, (n, path))
  }

  lemma TargetIs(g: Graph, n: NodeId, t: GraphId)
    requires n in g.node
    ensures ClosureTarget(g, n) == Some(t) <==> Makes(g, n, t)
    ensures ClosureTarget(g, n).Some? <==> MakesClosure(g, n)
  {
    if ClosureTarget(g, n).Some? { assert Makes(g, n, ClosureTarget(g, n).value); }
  }

  lemma KeysAre(g: Graph, n: NodeId, keys: seq<Key>)
    requires n in g.node && g.node[n].kind.Fill?
    ensures FillKeys(g, n) == Some(keys) <==> Keyed(g, n, keys)
    ensures FillKeys(g, n).Some? <==> exists ks :: Keyed(g, n, ks)
  {
    if FillKeys(g, n).Some? { assert Keyed(g, n, FillKeys(g, n).value); }
  }

  lemma SlotIs(keys: seq<Key>, k: Key, j: nat)
    ensures SlotOf(keys, k) == Some(j) <==> Meant(keys, k, j)
  {
    if k in keys {
      var i := IndexIn(keys, k);
      assert i < j < |keys| ==> keys[..j][i] == k;
    }
  }

  lemma CallIs(g: Graph, m: Memo, c: NodeId, h: GraphId)
    ensures MayCall(g, m, c, h) <==> Reaching(g, InTable(m), c, h)
  {
  }

  lemma PortSourceIs(g: Graph, m: Memo, k: PortKey, path: Path, a: NodeId, q: Path)
    ensures (a, q) in PortSources(g, m, k, path) <==>
      q == path && exists s :: PassesTo(g, InTable(m), s, k, a)
  {
    hide Look;
    forall c ensures MayCall(g, m, c, k.graph) <==> Reaching(g, InTable(m), c, k.graph) { CallIs(g, m, c, k.graph); }
    hide MayCall, Reaching;
    if s :| PassesTo(g, InTable(m), s, k, a) {
      SitePasses(g, m, k, path, s, a);
    }
    if (a, q) in PortSources(g, m, k, path) {
      var s := PassingSite(g, m, k, path, a, q);
      assert PassesTo(g, InTable(m), s, k, a);
    }
  }

  lemma SitePasses(g: Graph, m: Memo, k: PortKey, path: Path, s: NodeId, a: NodeId)
    requires s in g.node && Passes(g, s, k.kind, k.index, a)
    requires g.node[s].kind == Func(Some(k.graph)) || MayCall(g, m, s, k.graph)
    ensures (a, path) in PortSources(g, m, k, path)
  {
    if g.node[s].kind == Func(Some(k.graph)) {
      assert s in FuncSites(g, k.graph) && FuncArgs(g, s, k.kind)[k.index] == a;
    } else {
      assert s in Calls(g) && CallArgs(g, s, k.kind)[k.index] == a;
    }
  }

  lemma PassingSite(g: Graph, m: Memo, k: PortKey, path: Path, a: NodeId, q: Path) returns (s: NodeId)
    requires (a, q) in PortSources(g, m, k, path)
    ensures q == path && s in g.node && Passes(g, s, k.kind, k.index, a)
    ensures g.node[s].kind == Func(Some(k.graph)) || MayCall(g, m, s, k.graph)
  {
    if f :| f in FuncSites(g, k.graph) && k.index < |FuncArgs(g, f, k.kind)| && (a, q) == (FuncArgs(g, f, k.kind)[k.index], path) {
      s := f;
    } else {
      s :| s in Calls(g) && MayCall(g, m, s, k.graph) && k.index < |CallArgs(g, s, k.kind)|
           && (a, q) == (CallArgs(g, s, k.kind)[k.index], path);
    }
  }

  lemma CaptureSourceIs(g: Graph, m: Memo, n: NodeId, path: Path, a: NodeId, q: Path)
    requires WellFormed(g) && n in g.node && g.node[n].kind.ClosurePort?
    ensures (a, q) in Sources(g, m, n, path) <==> ComesFrom(g, InTable(m), n, path, a, q)
  {
    var h := g.node[n].graph;
    var ports := CPorts(g, h);
    assert NodeOk(g, n);
    var i := IndexIn(ports, n);
    forall j: nat | j < |ports| && ports[j] == n ensures j == i {}
    forall f | f in g.node ensures f in FillsOf(g, h) <==> g.node[f].kind.Fill? && Makes(g, f, h) { TargetIs(g, f, h); }
  }

  lemma FillSourceIs(g: Graph, m: Memo, n: NodeId, path: Path, a: NodeId, q: Path)
    requires n in g.node && g.node[n].kind.Fill?
    ensures (a, q) in FillSources(g, n, path) <==> ComesFrom(g, InTable(m), n, path, a, q)
  {
    hide Keyed, FillKeys, SlotOf, Meant;
    forall ks ensures FillKeys(g, n) == Some(ks) <==> Keyed(g, n, ks) { KeysAre(g, n, ks); }
    KeysAre(g, n, []);
    if FillKeys(g, n).Some? && path != [] {
      forall j: nat ensures SlotOf(FillKeys(g, n).value, path[0]) == Some(j) <==> Meant(FillKeys(g, n).value, path[0], j) {
        SlotIs(FillKeys(g, n).value, path[0], j);
      }
    }
  }

  /** The sources the fixpoint reads are the ones the rules name. */
  lemma SourceIs(g: Graph, m: Memo, n: NodeId, path: Path, a: NodeId, q: Path)
    requires WellFormed(g) && n in g.node && !MakesClosure(g, n)
    ensures (a, q) in Sources(g, m, n, path) <==> ComesFrom(g, InTable(m), n, path, a, q)
  {
    TargetIs(g, n, 0);
    match g.node[n].kind
    case Fill(_) => FillSourceIs(g, m, n, path, a, q);
    case Port(slot) => if slot.Some? { PortSourceIs(g, m, slot.value, path, a, q); }
    case ClosurePort => CaptureSourceIs(g, m, n, path, a, q);
    case Call => forall h ensures MayCall(g, m, n, h) <==> Reaching(g, InTable(m), n, h) { CallIs(g, m, n, h); }
    case _ =>
  }

  lemma StepIs(g: Graph, m: Memo, k: MemoKey, h: GraphId)
    requires WellFormed(g) && k.0 in g.node
    ensures h in Step(g, m, k) <==> Rule(g, InTable(m), k.0, k.1, h)
  {
    hide Sources, ComesFrom, ClosureTarget, Makes;
    TargetIs(g, k.0, h);
    if !MakesClosure(g, k.0) {
      forall a: NodeId, q: Path ensures (a, q) in Sources(g, m, k.0, k.1) <==> ComesFrom(g, InTable(m), k.0, k.1, a, q) {
        SourceIs(g, m, k.0, k.1, a, q);
      }
      if s :| s in Sources(g, m, k.0, k.1) && h in Look(m, s) { assert s == (s.0, s.1); }
    } else if ClosureTarget(g, k.0).Some? {
      TargetIs(g, k.0, ClosureTarget(g, k.0).value);
    }
  }

  // ---- the computed table satisfies the rules exactly

  /** One round of evaluations of all entries. */
  function Stepped(g: Graph, m: Memo): Memo
    requires KeysInside(g, m)
  {
    map k | k in m :: Step(g, m, k)
  }

  lemma LeastIsSettled(g: Graph, m: Memo, k: MemoKey)
    requires LeastSolution(g, m) && k in m
    ensures k.0 in g.node && Step(g, m, k) == m[k]
  {
    hide Reads, Step, Seeds;
    var m' := Stepped(g, m);
    assert Below(m', m);
    forall x | x in m' ensures Reads(g, m', x) <= m'.Keys && Step(g, m', x) <= m'[x] { StepMonotone(g, m', m, x); }
    assert Solution(g, m');
    assert Below(m, m');
  }

  /** An entry holds exactly what the rules give from the other entries. */
  lemma TableEquation(g: Graph, m: Memo, k: MemoKey, h: GraphId)
    requires WellFormed(g) && LeastSolution(g, m) && k in m
    ensures h in m[k] <==> Rule(g, InTable(m), k.0, k.1, h)
  {
    hide Rule, Step;
    LeastIsSettled(g, m, k);
    StepIs(g, m, k, h);
  }

  /** The entries read are the ones the rules look at. */
  lemma ReadIs(g: Graph, m: Memo, k: MemoKey, a: NodeId, q: Path)
    requires WellFormed(g) && k.0 in g.node
    ensures !MakesClosure(g, k.0) ==> ((a, q) in Reads(g, m, k) <==> LooksAt(g, InTable(m), k.0, k.1, a, q))
    ensures MakesClosure(g, k.0) ==> Reads(g, m, k) == {}
  {
    hide Sources, ComesFrom, Controls, MakesClosure, WellFormed, ClosureTarget;
    TargetIs(g, k.0, 0);
    if MakesClosure(g, k.0) {
      NoSources(g, m, k);
    } else {
      SourceIs(g, m, k.0, k.1, a, q);
      ControlIs(g, k.0, a, q);
    }
  }

  lemma ControlIs(g: Graph, n: NodeId, a: NodeId, q: Path)
    requires n in g.node
    ensures (a, q) in Controls(g, n) <==>
      q == [] && ((g.node[n].kind.Call? && Callee(g, n, a))
                  || (g.node[n].kind.Port? && g.node[n].kind.slot.Some? && exists c :: Callee(g, c, a)))
  {
    hide Seeds;
    SeedIs(g, a);
  }

  lemma NoSources(g: Graph, m: Memo, k: MemoKey)
    requires k.0 in g.node && ClosureTarget(g, k.0).Some?
    ensures Reads(g, m, k) == {}
  {
  }

  lemma SeedIs(g: Graph, a: NodeId)
    ensures (a, []) in Seeds(g) <==> exists c :: Callee(g, c, a)
    ensures forall k :: k in Seeds(g) ==> k.1 == []
  {
    if c :| Callee(g, c, a) { assert c in Calls(g); }
    if (a, []) in Seeds(g) {
      var c :| c in Calls(g) && g.node[c].withs != [] && a == g.node[c].withs[0];
      assert Callee(g, c, a);
    }
  }

  // ---- from the graph alone

  /** Graph `h` is among the closures of node `n` at `path` by at most `r` rounds of rules. */
  ghost predicate Flows(g: Graph, r: nat, n: NodeId, path: Path, h: GraphId)
    decreases r, 0
  {
    r > 0 && Rule(g, FlowsIn(g, r - 1), n, path, h)
  }

  ghost function FlowsIn(g: Graph, r: nat): Known
    decreases r, 1
  {
    (a: NodeId, q: Path, t: GraphId) => Flows(g, r, a, q, t)
  }

  ghost predicate EverFlows(g: Graph, n: NodeId, path: Path, h: GraphId) {
    exists r :: Flows(g, r, n, path, h)
  }

  ghost function Ever(g: Graph): Known {
    (a: NodeId, q: Path, t: GraphId) => EverFlows(g, a, q, t)
  }

  ghost predicate Implies(p: Known, q: Known) {
    forall n, path, h :: p(n, path, h) ==> q(n, path, h)
  }

  lemma ComesMonotone(g: Graph, p: Known, q: Known, n: NodeId, path: Path, a: NodeId, b: Path)
    requires Implies(p, q) && n in g.node && ComesFrom(g, p, n, path, a, b)
    ensures ComesFrom(g, q, n, path, a, b)
  {
    forall c, h | Reaching(g, p, c, h) ensures Reaching(g, q, c, h) {}
    if g.node[n].kind.Port? {
      var s :| PassesTo(g, p, s, g.node[n].kind.slot.value, a);
      assert PassesTo(g, q, s, g.node[n].kind.slot.value, a);
    }
  }

  lemma RuleMonotone(g: Graph, p: Known, q: Known, n: NodeId, path: Path, h: GraphId)
    requires Implies(p, q) && Rule(g, p, n, path, h)
    ensures Rule(g, q, n, path, h)
  {
    hide ComesFrom;
    if !MakesClosure(g, n) {
      var a: NodeId, b: Path :| ComesFrom(g, p, n, path, a, b) && p(a, b, h);
      ComesMonotone(g, p, q, n, path, a, b);
    }
  }

  lemma {:induction false} FlowsLonger(g: Graph, r: nat, n: NodeId, path: Path, h: GraphId)
    requires Flows(g, r, n, path, h)
    ensures Flows(g, r + 1, n, path, h)
  {
    hide Rule;
    forall a, q, t | FlowsIn(g, r - 1)(a, q, t) ensures FlowsIn(g, r)(a, q, t) { FlowsLonger(g, r - 1, a, q, t); }
    RuleMonotone(g, FlowsIn(g, r - 1), FlowsIn(g, r), n, path, h);
  }

  lemma {:induction false} FlowsMore(g: Graph, r: nat, r': nat, n: NodeId, path: Path, h: GraphId)
    requires r <= r' && Flows(g, r, n, path, h)
    ensures Flows(g, r', n, path, h)
    decreases r'
  {
    hide Rule;
    if r < r' {
      FlowsMore(g, r, r' - 1, n, path, h);
      FlowsLonger(g, r' - 1, n, path, h);
    }
  }

  lemma FlowsUpTo(g: Graph, r: nat, r': nat)
    requires r <= r'
    ensures Implies(FlowsIn(g, r), FlowsIn(g, r'))
  {
    hide Rule;
    forall n, path, h | FlowsIn(g, r)(n, path, h) ensures FlowsIn(g, r')(n, path, h) { FlowsMore(g, r, r', n, path, h); }
  }

  /** One callee at most decides where closures come from, so finitely many rounds do. */
  lemma ComesFinitely(g: Graph, n: NodeId, path: Path, a: NodeId, q: Path) returns (r: nat)
    requires n in g.node && ComesFrom(g, Ever(g), n, path, a, q)
    ensures ComesFrom(g, FlowsIn(g, r), n, path, a, q)
  {
    hide Flows;
    r := 0;
    match g.node[n].kind
    case Call =>
      var h :| Reaching(g, Ever(g), n, h) && h in g.exitSrc && a == g.exitSrc[h];
      r :| Flows(g, r, g.node[n].withs[0], [], h);
      assert Reaching(g, FlowsIn(g, r), n, h);
    case Port(slot) =>
      var s :| PassesTo(g, Ever(g), s, slot.value, a);
      if g.node[s].kind != Func(Some(slot.value.graph)) {
        r :| Flows(g, r, g.node[s].withs[0], [], slot.value.graph);
        assert Reaching(g, FlowsIn(g, r), s, slot.value.graph);
      }
      assert PassesTo(g, FlowsIn(g, r), s, slot.value, a);
    case _ =>
  }

  lemma RuleFinitely(g: Graph, n: NodeId, path: Path, h: GraphId)
    requires Rule(g, Ever(g), n, path, h)
    ensures EverFlows(g, n, path, h)
  {
    hide ComesFrom, Flows;
    if MakesClosure(g, n) {
      assert Flows(g, 1, n, path, h) by { MadeFlows(g, n, path, h); }
    } else {
      var a: NodeId, q: Path :| ComesFrom(g, Ever(g), n, path, a, q) && Ever(g)(a, q, h);
      var r := ComesFinitely(g, n, path, a, q);
      var r': nat :| Flows(g, r', a, q, h);
      var most := if r < r' then r' else r;
      FlowsUpTo(g, r, most);
      FlowsMore(g, r', most, a, q, h);
      ComesMonotone(g, FlowsIn(g, r), FlowsIn(g, most), n, path, a, q);
      assert Flows(g, most + 1, n, path, h) by { NextFlows(g, most, n, path, h, a, q); }
    }
  }

  lemma MadeFlows(g: Graph, n: NodeId, path: Path, h: GraphId)
    requires Rule(g, Ever(g), n, path, h) && MakesClosure(g, n)
    ensures Flows(g, 1, n, path, h)
  {
  }

  lemma NextFlows(g: Graph, r: nat, n: NodeId, path: Path, h: GraphId, a: NodeId, q: Path)
    requires n in g.node && |path| <= LONGEST && !MakesClosure(g, n)
    requires ComesFrom(g, FlowsIn(g, r), n, path, a, q) && Flows(g, r, a, q, h)
    ensures Flows(g, r + 1, n, path, h)
  {
    hide ComesFrom;
    assert FlowsIn(g, r)(a, q, h);
  }

  // ---- the table is what the rules give

  /** The part of the table that the rules account for. */
  ghost function Accounted(g: Graph, m: Memo): Memo {
    map k | k in m && EverAsked(g, k.0, k.1) :: set h | h in m[k] && EverFlows(g, k.0, k.1, h)
  }

  /** Entry (`n`, `path`) is asked for by at most `r` looks: a CALL asks for its callee, and an entry
      asks for what it looks at. */
  ghost predicate Asked(g: Graph, r: nat, n: NodeId, path: Path) {
    r > 0 && (|| (path == [] && exists c :: Callee(g, c, n))
              || exists a, q :: Asked(g, r - 1, a, q) && LooksAt(g, Ever(g), a, q, n, path))
  }

  ghost predicate EverAsked(g: Graph, n: NodeId, path: Path) {
    exists r :: Asked(g, r, n, path)
  }

  /** What the table knows where it has an entry carries a rule over to the table. */
  lemma RuleCarries(g: Graph, known: Known, m: Memo, k: MemoKey, h: GraphId)
    requires WellFormed(g) && Solution(g, m) && k in m && Rule(g, known, k.0, k.1, h)
    requires forall s, t :: s in m && known(s.0, s.1, t) ==> t in m[s]
    ensures h in m[k]
  {
    hide Reads, Step, ComesFrom;
    assert k.0 in g.node;
    if MakesClosure(g, k.0) {
      assert Rule(g, InTable(m), k.0, k.1, h);
    } else {
      var a: NodeId, q: Path :| ComesFrom(g, known, k.0, k.1, a, q) && known(a, q, h);
      ComesCarries(g, known, m, k, a, q);
      ReadIs(g, m, k, a, q);
      assert (a, q) in m;
      assert InTable(m)(a, q, h);
    }
    StepIs(g, m, k, h);
  }

  lemma ComesCarries(g: Graph, known: Known, m: Memo, k: MemoKey, a: NodeId, q: Path)
    requires WellFormed(g) && Solution(g, m) && k in m && k.0 in g.node && ComesFrom(g, known, k.0, k.1, a, q)
    requires forall s, t :: s in m && known(s.0, s.1, t) ==> t in m[s]
    ensures ComesFrom(g, InTable(m), k.0, k.1, a, q)
  {
    hide Reads, Step, WellFormed, Keyed, Meant, Makes;
    forall c, h | Reaching(g, known, c, h) ensures Reaching(g, InTable(m), c, h) {
      assert Callee(g, c, g.node[c].withs[0]);
      SeedIs(g, g.node[c].withs[0]);
      var s: MemoKey := (g.node[c].withs[0], []);
      assert s in m && known(s.0, s.1, h);
    }
    if g.node[k.0].kind.Port? {
      var s :| PassesTo(g, known, s, g.node[k.0].kind.slot.value, a);
      assert PassesTo(g, InTable(m), s, g.node[k.0].kind.slot.value, a);
    }
  }

  lemma {:induction false} FlowsInTable(g: Graph, m: Memo, r: nat, k: MemoKey, h: GraphId)
    requires WellFormed(g) && Solution(g, m) && k in m && Flows(g, r, k.0, k.1, h)
    ensures h in m[k]
    decreases r
  {
    hide Rule, Solution;
    forall s, t | s in m && FlowsIn(g, r - 1)(s.0, s.1, t) ensures t in m[s] { FlowsInTable(g, m, r - 1, s, t); }
    RuleCarries(g, FlowsIn(g, r - 1), m, k, h);
  }

  lemma LooksMonotone(g: Graph, p: Known, q: Known, n: NodeId, path: Path, a: NodeId, b: Path)
    requires Implies(p, q) && LooksAt(g, p, n, path, a, b)
    ensures LooksAt(g, q, n, path, a, b)
  {
    hide ComesFrom;
    if ComesFrom(g, p, n, path, a, b) { ComesMonotone(g, p, q, n, path, a, b); }
  }

  lemma AccountedBelow(g: Graph, m: Memo)
    ensures Below(Accounted(g, m), m) && Implies(InTable(Accounted(g, m)), Ever(g))
  {
    hide EverFlows, EverAsked;
  }

  lemma AskedNext(g: Graph, n: NodeId, path: Path, a: NodeId, q: Path)
    requires EverAsked(g, n, path) && LooksAt(g, Ever(g), n, path, a, q)
    ensures EverAsked(g, a, q)
  {
    hide LooksAt;
    var r: nat :| Asked(g, r, n, path);
    assert Asked(g, r + 1, a, q);
  }

  lemma SeedAsked(g: Graph, m: Memo, k: MemoKey)
    requires Seeds(g) <= m.Keys && k in Seeds(g)
    ensures k in Accounted(g, m)
  {
    SeedIs(g, k.0);
    assert k == (k.0, []);
    assert Asked(g, 1, k.0, []);
  }

  lemma AccountedReads(g: Graph, m: Memo, k: MemoKey, s: MemoKey)
    requires WellFormed(g) && Solution(g, m) && k in Accounted(g, m) && s in Reads(g, Accounted(g, m), k)
    ensures s in Accounted(g, m)
  {
    hide Reads, Step, LooksAt, Asked;
    var f := Accounted(g, m);
    AccountedBelow(g, m);
    StepMonotone(g, f, m, k);
    ReadIs(g, f, k, s.0, s.1);
    LooksMonotone(g, InTable(f), Ever(g), k.0, k.1, s.0, s.1);
    AskedNext(g, k.0, k.1, s.0, s.1);
  }

  lemma AccountedSteps(g: Graph, m: Memo, k: MemoKey)
    requires WellFormed(g) && Solution(g, m) && k in Accounted(g, m)
    ensures Step(g, Accounted(g, m), k) <= Accounted(g, m)[k]
  {
    hide Reads, Step, Rule, EverAsked;
    var f := Accounted(g, m);
    AccountedBelow(g, m);
    StepMonotone(g, f, m, k);
    forall h | h in Step(g, f, k) ensures h in f[k] {
      StepIs(g, f, k, h);
      RuleMonotone(g, InTable(f), Ever(g), k.0, k.1, h);
      RuleFinitely(g, k.0, k.1, h);
    }
  }

  lemma AccountedSolves(g: Graph, m: Memo)
    requires WellFormed(g) && Solution(g, m)
    ensures Solution(g, Accounted(g, m))
  {
    hide Reads, Step, Seeds, Accounted, WellFormed;
    var f := Accounted(g, m);
    AccountedBelow(g, m);
    assert Seeds(g) <= f.Keys by {
      forall k | k in Seeds(g) ensures k in f { SeedAsked(g, m, k); }
    }
    forall k | k in f ensures k.0 in g.node && Reads(g, f, k) <= f.Keys && Step(g, f, k) <= f[k] { AccountedEntry(g, m, k); }
  }

  lemma AccountedEntry(g: Graph, m: Memo, k: MemoKey)
    requires WellFormed(g) && Solution(g, m) && k in Accounted(g, m)
    ensures k.0 in g.node && Reads(g, Accounted(g, m), k) <= Accounted(g, m).Keys
    ensures Step(g, Accounted(g, m), k) <= Accounted(g, m)[k]
  {
    hide Reads, Step, Seeds, Accounted, WellFormed;
    var f := Accounted(g, m);
    AccountedBelow(g, m);
    forall s | s in Reads(g, f, k) ensures s in f { AccountedReads(g, m, k, s); }
    AccountedSteps(g, m, k);
  }

  /** Which closures an entry of the computed table lists: those that flow there. */
  lemma TableExact(g: Graph, m: Memo, k: MemoKey, h: GraphId)
    requires WellFormed(g) && LeastSolution(g, m) && k in m
    ensures h in m[k] <==> EverFlows(g, k.0, k.1, h)
  {
    hide Solution, Flows;
    AccountedSolves(g, m);
    assert Below(m, Accounted(g, m));
    if r: nat :| Flows(g, r, k.0, k.1, h) { FlowsInTable(g, m, r, k, h); }
  }

  lemma {:induction false} AskedInTable(g: Graph, m: Memo, r: nat, n: NodeId, path: Path)
    requires WellFormed(g) && Solution(g, m) && Asked(g, r, n, path)
    ensures (n, path) in m
    decreases r
  {
    hide Reads, Step, ComesFrom, Flows;
    if path == [] && exists c :: Callee(g, c, n) {
      SeedIs(g, n);
    } else {
      var a: NodeId, q: Path :| Asked(g, r - 1, a, q) && LooksAt(g, Ever(g), a, q, n, path);
      AskedInTable(g, m, r - 1, a, q);
      var k: MemoKey := (a, q);
      forall s, t | s in m && Ever(g)(s.0, s.1, t) ensures t in m[s] {
        var r': nat :| Flows(g, r', s.0, s.1, t);
        FlowsInTable(g, m, r', s, t);
      }
      if ComesFrom(g, Ever(g), a, q, n, path) { ComesCarries(g, Ever(g), m, k, n, path); }
      ReadIs(g, m, k, n, path);
    }
  }

  /** Which entries the computed table has: those that are asked for. Closure resolution overflows
      exactly when an access path longer than the limit is asked for. */
  lemma KeysExact(g: Graph, m: Memo, n: NodeId, path: Path)
    requires WellFormed(g) && LeastSolution(g, m)
    ensures (n, path) in m <==> EverAsked(g, n, path)
  {
    hide Solution, Asked;
    AccountedSolves(g, m);
    assert Below(m, Accounted(g, m));
    if r: nat :| Asked(g, r, n, path) { AskedInTable(g, m, r, n, path); }
  }

  /** The CALLs list exactly the graphs whose closures flow to their callee. */
  lemma CalleesExact(g: Graph, m: Memo, c: NodeId, h: GraphId)
    requires WellFormed(g) && LeastSolution(g, m) && c in g.node && g.node[c].kind.Call?
    ensures h in Callees(g, m, c) <==> g.node[c].withs != [] && EverFlows(g, g.node[c].withs[0], [], h)
  {
    hide EverFlows, Reads, Step;
    if g.node[c].withs != [] {
      assert Callee(g, c, g.node[c].withs[0]);
      SeedIs(g, g.node[c].withs[0]);
      TableExact(g, m, (g.node[c].withs[0], []), h);
    }
  }

  // ---- the equations, kind by kind

  lemma SlotRule(g: Graph, known: Known, n: NodeId, path: Path, keys: seq<Key>, h: GraphId)
    requires Keyed(g, n, keys) && |path| <= LONGEST
    ensures Rule(g, known, n, path, h) <==>
      path != [] && exists j: nat :: Meant(keys, path[0], j) && known(g.node[n].withs[j], path[1..], h)
  {
    KeyedOnce(g, n, keys);
    if path != [] {
      if j: nat :| Meant(keys, path[0], j) && known(g.node[n].withs[j], path[1..], h) {
        assert ComesFrom(g, known, n, path, g.node[n].withs[j], path[1..]);
      }
    }
  }

  lemma SlotLook(g: Graph, m: Memo, n: NodeId, path: Path, keys: seq<Key>, j: nat)
    requires WellFormed(g) && Solution(g, m) && (n, path) in m && Keyed(g, n, keys) && 0 < |path| <= LONGEST
    requires Meant(keys, path[0], j)
    ensures (g.node[n].withs[j], path[1..]) in m
  {
    hide Reads, Step, WellFormed, Meant;
    KeyedOnce(g, n, keys);
    MeantOnce(keys, path[0], j, j);
    assert ComesFrom(g, InTable(m), n, path, g.node[n].withs[j], path[1..]);
    hide ComesFrom;
    ReadIs(g, m, (n, path), g.node[n].withs[j], path[1..]);
  }

  /** A record read at a slot is the input of that slot, and nothing at a slot it does not have. */
  lemma SlotEntry(g: Graph, m: Memo, n: NodeId, path: Path, keys: seq<Key>)
    requires WellFormed(g) && LeastSolution(g, m) && (n, path) in m && Keyed(g, n, keys) && |path| <= LONGEST
    ensures path == [] ==> m[(n, path)] == {}
    ensures path != [] ==> forall j: nat :: Meant(keys, path[0], j) ==>
      (g.node[n].withs[j], path[1..]) in m && m[(n, path)] == m[(g.node[n].withs[j], path[1..])]
    ensures path != [] && (forall j: nat :: !Meant(keys, path[0], j)) ==> m[(n, path)] == {}
  {
    hide Reads, Step, Rule, Meant, WellFormed;
    forall h ensures h in m[(n, path)] <==>
      path != [] && exists j: nat :: Meant(keys, path[0], j) && j < |g.node[n].withs| && h in Look(m, (g.node[n].withs[j], path[1..]))
    {
      TableEquation(g, m, (n, path), h);
      SlotRule(g, InTable(m), n, path, keys, h);
      if path != [] {
        forall j: nat | Meant(keys, path[0], j) ensures j < |g.node[n].withs| { MeantOnce(keys, path[0], j, j); }
      }
    }
    if path != [] {
      forall j: nat | Meant(keys, path[0], j)
        ensures j < |g.node[n].withs| && (g.node[n].withs[j], path[1..]) in m && m[(n, path)] == m[(g.node[n].withs[j], path[1..])]
      {
        MeantOnce(keys, path[0], j, j);
        SlotLook(g, m, n, path, keys, j);
        forall i: nat | Meant(keys, path[0], i) ensures i == j { MeantOnce(keys, path[0], i, j); }
      }
    }
  }

  lemma KeyedOnce(g: Graph, n: NodeId, keys: seq<Key>)
    requires Keyed(g, n, keys)
    ensures !MakesClosure(g, n) && forall ks :: Keyed(g, n, ks) ==> ks == keys
  {
  }

  lemma MeantOnce(keys: seq<Key>, k: Key, i: nat, j: nat)
    requires Meant(keys, k, i) && Meant(keys, k, j)
    ensures i == j < |keys|
  {
    SlotIs(keys, k, i);
    SlotIs(keys, k, j);
  }

  /** The one place the closures of an access or a direct call come from. */
  predicate OneSource(g: Graph, n: NodeId, path: Path, s: MemoKey) {
    && n in g.node
    && (|| (g.node[n].kind.Accs? && g.node[n].norms != [] && s == (g.node[n].norms[0], [g.node[n].kind.key] + path))
        || (g.node[n].kind.Func? && g.node[n].kind.callee.Some? && g.node[n].kind.callee.value in g.exitSrc
            && s == (g.exitSrc[g.node[n].kind.callee.value], path)))
  }

  lemma OneRule(g: Graph, known: Known, n: NodeId, path: Path, s: MemoKey, h: GraphId)
    requires OneSource(g, n, path, s) && |path| <= LONGEST
    ensures Rule(g, known, n, path, h) <==> known(s.0, s.1, h)
    ensures LooksAt(g, known, n, path, s.0, s.1)
  {
    assert ComesFrom(g, known, n, path, s.0, s.1);
  }

  /** An access holds what its operand holds at the longer path, a direct call what the result of the
      graph called holds. */
  lemma PassedEntry(g: Graph, m: Memo, n: NodeId, path: Path, s: MemoKey)
    requires WellFormed(g) && LeastSolution(g, m) && (n, path) in m && |path| <= LONGEST && OneSource(g, n, path, s)
    ensures s in m && m[(n, path)] == m[s]
  {
    hide Reads, Step, Rule, LooksAt, WellFormed, OneSource;
    assert n in g.node;
    OneRule(g, InTable(m), n, path, s, 0);
    ReadIs(g, m, (n, path), s.0, s.1);
    forall h ensures h in m[(n, path)] <==> h in m[s] {
      TableEquation(g, m, (n, path), h);
      OneRule(g, InTable(m), n, path, s, h);
    }
  }

  /** A JOIN holds what its arms hold, a CALL what the results of its callees hold. */
  lemma GatheredEntry(g: Graph, m: Memo, n: NodeId, path: Path, h: GraphId)
    requires WellFormed(g) && LeastSolution(g, m) && (n, path) in m && n in g.node && |path| <= LONGEST
    ensures g.node[n].kind.Join? ==> (h in m[(n, path)] <==> exists w :: w in g.node[n].withs && h in Look(m, (w, path)))
    ensures g.node[n].kind.Call? && g.node[n].withs != [] ==>
      (h in m[(n, path)] <==>
        exists t :: t in Look(m, (g.node[n].withs[0], [])) && t in g.exitSrc && h in Look(m, (g.exitSrc[t], path)))
  {
    hide Look;
    TableEquation(g, m, (n, path), h);
    if g.node[n].kind.Join? {
      if w :| w in g.node[n].withs && h in Look(m, (w, path)) {
        assert ComesFrom(g, InTable(m), n, path, w, path) && InTable(m)(w, path, h);
      }
    }
    if g.node[n].kind.Call? && g.node[n].withs != [] {
      if t :| t in Look(m, (g.node[n].withs[0], [])) && t in g.exitSrc && h in Look(m, (g.exitSrc[t], path)) {
        assert Reaching(g, InTable(m), n, t);
        assert ComesFrom(g, InTable(m), n, path, g.exitSrc[t], path) && InTable(m)(g.exitSrc[t], path, h);
      }
    }
  }
}
