/** Copies and conversions that hand a closure on. The analysis does not know them: it sees an unknown
    node, which closures do not pass. Its answer is right all the same if a second resolution, which
    follows closures through them, finds that none of them holds one; that is a check of the graph. */
module Copies {
  import opened Wrappers
  import opened FlowGraph
  import opened Semantics
  import opened ClosureSpec
  import opened ClosureSoundness
  import opened Demand
  import opened DemandSoundness

  /** The copies are nodes that pass a value on. */
  ghost predicate ArePassing(g: Graph, copies: set<NodeId>) {
    forall n :: n in copies ==> n in g.node && g.node[n].kind.Gate?
  }

  /** The graph as the analysis reads it: the copies are unknown nodes. */
  function Opaque(g: Graph, copies: set<NodeId>): Graph {
    g.(node := map n | n in g.node :: if n in copies then g.node[n].(kind := Oper) else g.node[n])
  }

  /** No copy holds a closure, anywhere in its value. */
  predicate Clear(copies: set<NodeId>, m: Memo) {
    forall k :: k in m && k.0 in copies ==> m[k] == {}
  }

  // ---- the same equations elsewhere

  lemma OpaqueNodes(g: Graph, copies: set<NodeId>, n: NodeId)
    requires ArePassing(g, copies)
    ensures var a := Opaque(g, copies);
      && (n in a.node <==> n in g.node)
      && (n in g.node ==> TemplateOf(a, n) == TemplateOf(g, n) && a.node[n].withs == g.node[n].withs
                          && a.node[n].norms == g.node[n].norms && a.node[n].graph == g.node[n].graph)
      && (n in g.node && n !in copies ==> a.node[n] == g.node[n])
      && (n in g.node && n in copies ==> a.node[n].kind == Oper && g.node[n].kind.Gate?)
  {
  }

  lemma OpaqueTargets(g: Graph, copies: set<NodeId>, n: NodeId)
    requires ArePassing(g, copies) && n in g.node
    ensures n in Opaque(g, copies).node
    ensures ClosureTarget(Opaque(g, copies), n) == ClosureTarget(g, n) && FillKeys(Opaque(g, copies), n) == FillKeys(g, n)
  {
    hide Opaque;
    OpaqueNodes(g, copies, n);
  }

  lemma OpaqueSets(g: Graph, copies: set<NodeId>, h: GraphId)
    requires ArePassing(g, copies)
    ensures var a := Opaque(g, copies);
      && Calls(a) == Calls(g) && Seeds(a) == Seeds(g) && ClosureGraphs(a) == ClosureGraphs(g)
      && FuncSites(a, h) == FuncSites(g, h) && FillsOf(a, h) == FillsOf(g, h)
  {
    hide Opaque, ClosureTarget;
    forall n ensures n in Opaque(g, copies).node <==> n in g.node { OpaqueNodes(g, copies, n); }
    forall n | n in g.node
      ensures ClosureTarget(Opaque(g, copies), n) == ClosureTarget(g, n)
      ensures Opaque(g, copies).node[n].withs == g.node[n].withs
      ensures n !in copies ==> Opaque(g, copies).node[n] == g.node[n]
      ensures n in copies ==> Opaque(g, copies).node[n].kind == Oper && g.node[n].kind.Gate?
    {
      OpaqueNodes(g, copies, n);
      OpaqueTargets(g, copies, n);
    }
    assert Calls(Opaque(g, copies)) == Calls(g);
    forall c | c in Calls(g) ensures Opaque(g, copies).node[c] == g.node[c] {}
  }

  lemma OpaqueCalls(g: Graph, copies: set<NodeId>, m: Memo, c: NodeId, h: GraphId)
    requires ArePassing(g, copies)
    ensures MayCall(Opaque(g, copies), m, c, h) == MayCall(g, m, c, h)
  {
    hide Opaque;
    OpaqueNodes(g, copies, c);
  }

  lemma OpaquePortSources(g: Graph, copies: set<NodeId>, m: Memo, k: PortKey, path: Path)
    requires ArePassing(g, copies)
    ensures PortSources(Opaque(g, copies), m, k, path) == PortSources(g, m, k, path)
  {
    hide Opaque, MayCall;
    var a := Opaque(g, copies);
    OpaqueSets(g, copies, k.graph);
    forall n | n in g.node ensures n in a.node && a.node[n].withs == g.node[n].withs && a.node[n].norms == g.node[n].norms {
      OpaqueNodes(g, copies, n);
    }
    forall c ensures MayCall(a, m, c, k.graph) == MayCall(g, m, c, k.graph) { OpaqueCalls(g, copies, m, c, k.graph); }
  }

  lemma OpaqueCaptures(g: Graph, copies: set<NodeId>, m: Memo, n: NodeId, path: Path)
    requires ArePassing(g, copies) && n in g.node && n !in copies && g.node[n].kind.ClosurePort?
    ensures n in Opaque(g, copies).node && Sources(Opaque(g, copies), m, n, path) == Sources(g, m, n, path)
  {
    hide Opaque, ClosureTarget, CPorts;
    var a, h := Opaque(g, copies), g.node[n].graph;
    OpaqueNodes(g, copies, n);
    OpaqueSets(g, copies, h);
    SamePorts(g, copies, h);
    forall f | f in FillsOf(g, h) ensures f in a.node && a.node[f].withs == g.node[f].withs { OpaqueNodes(g, copies, f); }
    assert Sources(a, m, n, path) == Sources(g, m, n, path);
  }

  lemma OpaqueSources(g: Graph, copies: set<NodeId>, m: Memo, n: NodeId, path: Path)
    requires ArePassing(g, copies) && n in g.node && n !in copies
    ensures n in Opaque(g, copies).node && Sources(Opaque(g, copies), m, n, path) == Sources(g, m, n, path)
  {
    hide Opaque, PortSources, MayCall, FillKeys, ClosureTarget, FillsOf;
    var a := Opaque(g, copies);
    OpaqueNodes(g, copies, n);
    OpaqueTargets(g, copies, n);
    forall h ensures MayCall(a, m, n, h) == MayCall(g, m, n, h) { OpaqueCalls(g, copies, m, n, h); }
    match g.node[n].kind
    case Port(slot) => if slot.Some? { OpaquePortSources(g, copies, m, slot.value, path); }
    case ClosurePort => OpaqueCaptures(g, copies, m, n, path);
    case _ => SameExits(g, copies);
  }

  lemma SamePorts(g: Graph, copies: set<NodeId>, h: GraphId)
    ensures CPorts(Opaque(g, copies), h) == CPorts(g, h)
  {
  }

  lemma SameExits(g: Graph, copies: set<NodeId>)
    ensures Opaque(g, copies).exitSrc == g.exitSrc && Opaque(g, copies).port == g.port
  {
  }

  /** Outside the copies an entry reads and adds the same; at a copy, the analysis reads nothing. */
  lemma OpaqueStep(g: Graph, copies: set<NodeId>, m: Memo, k: MemoKey)
    requires ArePassing(g, copies) && k.0 in g.node
    ensures var a := Opaque(g, copies);
      && k.0 in a.node
      && (k.0 !in copies ==> Reads(a, m, k) == Reads(g, m, k) && Step(a, m, k) == Step(g, m, k))
      && (k.0 in copies ==> Reads(a, m, k) == {} && Step(a, m, k) == {})
  {
    hide Opaque, Sources, Seeds, ClosureTarget;
    var a := Opaque(g, copies);
    OpaqueNodes(g, copies, k.0);
    OpaqueTargets(g, copies, k.0);
    OpaqueSets(g, copies, 0);
    if k.0 !in copies {
      OpaqueSources(g, copies, m, k.0, k.1);
    } else {
      NoSources(a, m, k.0, k.1);
      NoTarget(g, k.0);
    }
  }

  lemma NoSources(a: Graph, m: Memo, n: NodeId, path: Path)
    requires n in a.node && a.node[n].kind == Oper
    ensures Sources(a, m, n, path) == {} && Controls(a, n) == {}
  {
  }

  lemma NoTarget(g: Graph, n: NodeId)
    requires n in g.node && g.node[n].kind.Gate?
    ensures ClosureTarget(g, n) == None
  {
  }

  // ---- the two tables agree

  /** The analysis' table where it has an entry, the finer one elsewhere. */
  function Merged(m: Memo, fine: Memo): Memo {
    map k | k in fine :: if k in m then m[k] else fine[k]
  }

  /** What the finer resolution finds solves the analysis' equations too. */
  lemma FineSolves(g: Graph, copies: set<NodeId>, fine: Memo)
    requires ArePassing(g, copies) && Solution(g, fine)
    ensures Solution(Opaque(g, copies), fine)
  {
    hide Opaque, Reads, Step, Seeds;
    var a := Opaque(g, copies);
    OpaqueSets(g, copies, 0);
    forall k | k in fine ensures k.0 in a.node && Reads(a, fine, k) <= fine.Keys && Step(a, fine, k) <= fine[k] {
      OpaqueStep(g, copies, fine, k);
    }
  }

  /** Both tables are the computed ones, and no copy holds a closure. */
  ghost predicate Checked(g: Graph, copies: set<NodeId>, m: Memo, fine: Memo) {
    ArePassing(g, copies) && LeastSolution(Opaque(g, copies), m) && LeastSolution(g, fine) && Clear(copies, fine)
  }

  lemma MergedBelow(g: Graph, copies: set<NodeId>, m: Memo, fine: Memo)
    requires Checked(g, copies, m, fine)
    ensures Below(m, fine) && Below(Merged(m, fine), fine) && Below(m, Merged(m, fine))
    ensures forall k :: k in m ==> Look(Merged(m, fine), k) == Look(m, k)
  {
    hide Solution, Opaque;
    FineSolves(g, copies, fine);
  }

  /** An entry of the analysis' table sees the same sources in the merged one. */
  lemma MergedSources(a: Graph, m: Memo, t: Memo, k: MemoKey)
    requires Solution(a, m) && k in m && k.0 in a.node && Below(m, t) && forall x :: x in m ==> Look(t, x) == Look(m, x)
    ensures Step(a, t, k) == Step(a, m, k)
  {
    if !Cut(k.1) {
      forall c, h ensures MayCall(a, t, c, h) == MayCall(a, m, c, h) {
        if c in a.node && a.node[c].kind.Call? && a.node[c].withs != [] {
          assert c in Calls(a) && (a.node[c].withs[0], []) in Seeds(a);
        }
      }
      SameSources(a, m, t, k);
      assert Sources(a, m, k.0, k.1) <= m.Keys by { assert Reads(a, m, k) <= m.Keys; }
      forall h ensures h in Union(t, Sources(a, m, k.0, k.1)) <==> h in Union(m, Sources(a, m, k.0, k.1)) {}
    }
  }

  lemma SameSources(a: Graph, m: Memo, t: Memo, k: MemoKey)
    requires k.0 in a.node && forall c, h :: MayCall(a, t, c, h) == MayCall(a, m, c, h)
    ensures Sources(a, t, k.0, k.1) == Sources(a, m, k.0, k.1)
  {
    hide MayCall;
    if a.node[k.0].kind.Port? && a.node[k.0].kind.slot.Some? {
      var key := a.node[k.0].kind.slot.value;
      assert PortSources(a, t, key, k.1) == PortSources(a, m, key, k.1);
    }
  }

  lemma MergedSolves(g: Graph, copies: set<NodeId>, m: Memo, fine: Memo)
    requires Checked(g, copies, m, fine)
    ensures Solution(g, Merged(m, fine))
  {
    hide Opaque, Reads, Step, Seeds, BelowEverySolution, Merged;
    var a, t := Opaque(g, copies), Merged(m, fine);
    MergedBelow(g, copies, m, fine);
    MergedKeys(m, fine);
    forall k | k in t ensures k.0 in g.node && Reads(g, t, k) <= t.Keys && Step(g, t, k) <= t[k] {
      assert k in fine;
      StepMonotone(g, t, fine, k);
      OpaqueStep(g, copies, t, k);
      OpaqueStep(g, copies, m, k);
      MergedAt(m, fine, k);
      if k in m && k.0 !in copies { MergedSources(a, m, t, k); }
      if k.0 in copies { assert fine[k] == {}; }
    }
  }

  lemma MergedKeys(m: Memo, fine: Memo)
    ensures Merged(m, fine).Keys == fine.Keys
  {
  }

  lemma MergedAt(m: Memo, fine: Memo, k: MemoKey)
    requires k in fine
    ensures Merged(m, fine)[k] == if k in m then m[k] else fine[k]
  {
  }

  /** Wherever the analysis has an entry, the finer resolution says the same. */
  lemma TablesAgree(g: Graph, copies: set<NodeId>, m: Memo, fine: Memo, k: MemoKey)
    requires Checked(g, copies, m, fine) && k in m
    ensures k in fine && fine[k] == m[k]
  {
    hide Solution, Opaque;
    MergedBelow(g, copies, m, fine);
    MergedSolves(g, copies, m, fine);
    MergedAt(m, fine, k);
    assert Below(fine, Merged(m, fine));
  }

  lemma CalleesAgree(g: Graph, copies: set<NodeId>, m: Memo, fine: Memo, c: NodeId)
    requires Checked(g, copies, m, fine) && c in g.node && g.node[c].kind.Call?
    ensures c in Opaque(g, copies).node && Callees(Opaque(g, copies), m, c) == Callees(g, fine, c)
  {
    hide Opaque, Reads, Step, BelowEverySolution;
    OpaqueNodes(g, copies, c);
    OpaqueSets(g, copies, 0);
    if g.node[c].withs != [] {
      assert c in Calls(g) && (g.node[c].withs[0], []) in Seeds(g);
      TablesAgree(g, copies, m, fine, (g.node[c].withs[0], []));
    }
  }

  // ---- and so does the demand

  lemma TargetsAgree(g: Graph, copies: set<NodeId>, m: Memo, fine: Memo, root: GraphId, s: NodeId)
    requires Checked(g, copies, m, fine) && s in g.node
    ensures s in Opaque(g, copies).node
    ensures Targets(Problem(Opaque(g, copies), m, root), s) == Targets(Problem(g, fine, root), s)
  {
    hide Opaque, Callees, LeastSolution;
    OpaqueNodes(g, copies, s);
    OpaqueSets(g, copies, 0);
    if g.node[s].kind.Call? { CalleesAgree(g, copies, m, fine, s); }
  }

  lemma AmountsAgree(g: Graph, copies: set<NodeId>, m: Memo, fine: Memo, root: GraphId, d: DemandMap, c: NodeId, j: nat)
    requires Checked(g, copies, m, fine) && c in g.node
    ensures var p, q := Problem(Opaque(g, copies), m, root), Problem(g, fine, root);
      && c in p.g.node && Inputs(p, c) == Inputs(q, c)
      && (j < |Inputs(q, c)| ==> Leq(Amount(q, d, c, j), Amount(p, d, c, j)))
  {
    hide Opaque, Callees, LeastSolution, ClosureTarget, FillKeys, CPorts;
    var a := Opaque(g, copies);
    OpaqueNodes(g, copies, c);
    OpaqueTargets(g, copies, c);
    SameExits(g, copies);
    forall h ensures CPorts(a, h) == CPorts(g, h) { SamePorts(g, copies, h); }
    if g.node[c].kind.Call? {
      CalleesAgree(g, copies, m, fine, c);
      var p, q := Problem(a, m, root), Problem(g, fine, root);
      var hs := Callees(g, fine, c);
      forall kind, i ensures PortDemands(p, d, hs, kind, i) == PortDemands(q, d, hs, kind, i) {
        assert forall h :: PortDemand(p, d, PortKey(h, kind, i)) == PortDemand(q, d, PortKey(h, kind, i));
      }
    }
  }

  /** The demand the analysis finds is closed for the graph as it is. */
  lemma DemandCarriesOver(g: Graph, copies: set<NodeId>, m: Memo, fine: Memo, root: GraphId, d: DemandMap)
    requires Checked(g, copies, m, fine) && Closed(Problem(Opaque(g, copies), m, root), d)
    ensures Closed(Problem(g, fine, root), d)
  {
    hide Opaque, Targets, Amount, Inputs, Checked;
    var p, q := Problem(Opaque(g, copies), m, root), Problem(g, fine, root);
    SameExits(g, copies);
    forall h | h in g.exitSrc ensures ExitClosed(q, d, h) {
      assert ExitClosed(p, d, h);
      forall s | s in Sites(q, h) ensures s in Sites(p, h) { TargetsAgree(g, copies, m, fine, root, s); }
    }
    forall c | c in g.node ensures PushClosed(q, d, c) {
      AmountsAgree(g, copies, m, fine, root, d, c, 0);
      assert PushClosed(p, d, c);
      forall j | 0 <= j < |Inputs(q, c)| && On(d, c) != {} ensures Leq(Amount(q, d, c, j), On(d, Inputs(q, c)[j])) {
        AmountsAgree(g, copies, m, fine, root, d, c, j);
      }
    }
  }

  /** Unused still means removable when copies hand values on, if the finer resolution finds no closure
      in a copy and cuts no path. */
  lemma UnusedIsRemovableWithCopies(g: Graph, copies: set<NodeId>, m: Memo, fine: Memo, root: GraphId, d: DemandMap,
                                    I: Interp, J: Interp, fuel: nat, args: Env)
    requires WellFormed(g) && Checked(g, copies, m, fine) && (forall k :: k in fine ==> !Cut(k.1))
    requires Closed(Problem(Opaque(g, copies), m, root), d)
    requires Agree(d, I, J) && FreeEnv(args) && DataOnly(I)
    ensures Flat(Enter(g, I, fuel, root, args)) == Flat(Enter(g, J, fuel, root, args))
    ensures Whole(Enter(g, I, fuel, root, args)) <==> Whole(Enter(g, J, fuel, root, args))
  {
    hide Opaque, Closed, Agree, FreeEnv, DataOnly, Solution, Enter;
    DemandCarriesOver(g, copies, m, fine, root, d);
    UnusedIsRemovable(Problem(g, fine, root), d, I, J, fuel, args);
  }

  /** And every CALL enters a graph the analysis lists for it. */
  lemma CallsAreListedWithCopies(g: Graph, copies: set<NodeId>, m: Memo, fine: Memo, I: Interp, run: seq<Activation>, i: nat,
                                 state: map<NodeId, Value>, fuel: nat, c: NodeId)
    requires WellFormed(g) && Checked(g, copies, m, fine) && (forall k :: k in fine ==> !Cut(k.1))
    requires IsRun(g, I, run) && i < |run| && FreeEnv(run[0].env) && DataOnly(I) && FreeState(state)
    requires c in g.node && g.node[c].graph == run[i].graph && g.node[c].kind.Call? && g.node[c].withs != []
    requires g.node[c].withs[0] in g.node
    ensures c in Opaque(g, copies).node
    ensures var f := Eval(g, I, fuel, During(run[i], state).env, g.node[c].withs[0]);
      f.Clo? ==> f.target in Callees(Opaque(g, copies), m, c)
  {
    hide Opaque, FreeEnv, DataOnly, Solution, IsRun, FreeState, Eval, Callees;
    CallsAreListed(g, fine, I, run, i, state, fuel, c);
    CalleesAgree(g, copies, m, fine, c);
  }
}
