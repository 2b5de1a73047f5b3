/** The whole analysis in one piece: closures, demand, execution counts, and the operators an
    optimised configuration may leave out. */
module Reconcile {
  import opened Wrappers
  import opened FlowGraph
  import opened Semantics
  import opened ClosureSpec
  import opened ClosureFixpoint
  import opened ClosureSoundness
  import opened Demand
  import opened DemandFixpoint
  import opened DemandSoundness
  import DemandRules
  import opened Reachable
  import opened Verdict

  type Labels = map<NodeId, string>    // the label of every OPER node

  predicate IsGrad(text: string) {
    exists i :: 0 <= i <= |text| && "grad" <= text[i..]
  }

  /** The part of an operator's label after its last colon. */
  function OpName(text: string): string {
    if ':' !in text then text else OpName(text[IndexIn(text, ':') + 1..])
  }

  /** A gradient operator of a graph the step enters. */
  predicate IsGradNode(g: Graph, labels: Labels, mult: map<GraphId, Option<nat>>, n: NodeId) {
    n in g.node && g.node[n].kind.Oper? && n in labels && IsGrad(labels[n]) && g.node[n].graph in mult
  }

  function Describe(g: Graph, labels: Labels, mult: map<GraphId, Option<nat>>, d: DemandMap, n: NodeId): GradOp
    requires IsGradNode(g, labels, mult, n)
  {
    GradOp(n, OpName(labels[n]), mult[g.node[n].graph], On(d, n) == {})
  }

  /** `ops` lists exactly the gradient operators of the step, each once. */
  ghost predicate Lists(g: Graph, labels: Labels, mult: map<GraphId, Option<nat>>, d: DemandMap, ops: seq<GradOp>) {
    && (forall i :: 0 <= i < |ops| ==>
          IsGradNode(g, labels, mult, ops[i].node) && ops[i] == Describe(g, labels, mult, d, ops[i].node))
    && (forall n :: IsGradNode(g, labels, mult, n) ==> exists i :: 0 <= i < |ops| && ops[i].node == n)
    && (forall i, j :: 0 <= i < j < |ops| ==> ops[i].node != ops[j].node)
  }

  /** What the analysis found, with what each part of it means. */
  datatype Findings = Findings(memo: Memo, demand: DemandMap, mult: map<GraphId, Option<nat>>, ops: seq<GradOp>, overflow: bool)

  ghost predicate Correct(g: Graph, root: GraphId, labels: Labels, f: Findings) {
    var p := Problem(g, f.memo, root);
    && LeastSolution(g, f.memo) && (f.overflow <==> HasCutKey(f.memo))
    && LeastClosed(p, f.demand)
    && ClosedUnderCalls(CallGraph(p, f.mult.Keys)) && WithinEveryClosed(p, f.mult.Keys)
    && (forall h :: h in f.mult ==> Counted(CallGraph(p, f.mult.Keys), h, f.mult[h]))
    && Lists(g, labels, f.mult, f.demand, f.ops)
  }

  /** "grad" stands somewhere in the label. */
  ghost predicate HasGrad(text: string) {
    exists k :: 0 <= k <= |text| - 4 && text[k] == 'g' && text[k + 1] == 'r' && text[k + 2] == 'a' && text[k + 3] == 'd'
  }

  /** The operator's name: the label, or what follows a colon of it, with no colon left. */
  ghost predicate Names(op: string, text: string) {
    ':' !in op && (op == text || exists k :: 0 <= k < |text| && text[k] == ':' && text[k + 1..] == op)
  }

  ghost predicate GradientNode(g: Graph, labels: Labels, mult: map<GraphId, Option<nat>>, n: NodeId) {
    n in g.node && g.node[n].kind.Oper? && n in labels && HasGrad(labels[n]) && g.node[n].graph in mult
  }

  /** The report: each gradient operator of a graph the step enters, once, with its name, its graph's
      count, and "unused" exactly when nothing demands it. */
  ghost predicate Reported(g: Graph, labels: Labels, mult: map<GraphId, Option<nat>>, d: DemandMap, ops: seq<GradOp>) {
    && (forall i :: 0 <= i < |ops| ==>
          && GradientNode(g, labels, mult, ops[i].node) && Names(ops[i].op, labels[ops[i].node])
          && ops[i].perStep == mult[g.node[ops[i].node].graph]
          && (ops[i].unused <==> On(d, ops[i].node) == {}))
    && (forall n :: GradientNode(g, labels, mult, n) ==> exists i :: 0 <= i < |ops| && ops[i].node == n)
    && (forall i, j :: 0 <= i < j < |ops| ==> ops[i].node != ops[j].node)
  }

  lemma GradIs(text: string)
    ensures IsGrad(text) <==> HasGrad(text)
  {
    if i :| 0 <= i <= |text| && "grad" <= text[i..] {
      assert text[i..][0] == 'g' && text[i..][1] == 'r' && text[i..][2] == 'a' && text[i..][3] == 'd';
      assert text[i] == 'g' && text[i + 1] == 'r' && text[i + 2] == 'a' && text[i + 3] == 'd';
    }
    if k :| 0 <= k <= |text| - 4 && text[k] == 'g' && text[k + 1] == 'r' && text[k + 2] == 'a' && text[k + 3] == 'd' {
      assert text[k..][..4] == "grad";
      assert "grad" <= text[k..];
    }
  }

  lemma {:induction false} NameIs(text: string)
    ensures Names(OpName(text), text)
    decreases |text|
  {
    if ':' in text {
      var i := IndexIn(text, ':');
      var rest := text[i + 1..];
      NameIs(rest);
      if OpName(rest) == rest {
        assert text[i] == ':' && text[i + 1..] == OpName(text);
      } else {
        var k :| 0 <= k < |rest| && rest[k] == ':' && rest[k + 1..] == OpName(rest);
        assert text[i + 1 + k] == ':' && text[i + 1 + k + 1..] == OpName(text);
      }
    }
  }

  lemma ReportIs(g: Graph, labels: Labels, mult: map<GraphId, Option<nat>>, d: DemandMap, ops: seq<GradOp>)
    requires Lists(g, labels, mult, d, ops)
    ensures Reported(g, labels, mult, d, ops)
  {
    hide IsGrad, OpName, HasGrad, Names;
    forall n ensures IsGradNode(g, labels, mult, n) <==> GradientNode(g, labels, mult, n) {
      if n in labels { GradIs(labels[n]); }
    }
    forall i | 0 <= i < |ops| ensures Names(ops[i].op, labels[ops[i].node]) { NameIs(labels[ops[i].node]); }
  }

  method ListGradOps(g: Graph, labels: Labels, mult: map<GraphId, Option<nat>>, d: DemandMap) returns (ops: seq<GradOp>)
    ensures Lists(g, labels, mult, d, ops)
  {
    ops := [];
    var nodes := set n | n in g.node && IsGradNode(g, labels, mult, n);
    var todo := nodes;
    while todo != {}
      invariant todo <= nodes
      invariant forall i :: 0 <= i < |ops| ==>
        IsGradNode(g, labels, mult, ops[i].node) && ops[i] == Describe(g, labels, mult, d, ops[i].node) && ops[i].node !in todo
      invariant forall n :: n in nodes && n !in todo ==> exists i :: 0 <= i < |ops| && ops[i].node == n
      invariant forall i, j :: 0 <= i < j < |ops| ==> ops[i].node != ops[j].node
    {
      var n :| n in todo;
      ghost var before := ops;
      ops := ops + [Describe(g, labels, mult, d, n)];
      todo := todo - {n};
      forall m | m in nodes && m !in todo ensures exists i :: 0 <= i < |ops| && ops[i].node == m {
        if m == n {
          assert ops[|before|].node == n;
        } else {
          var i :| 0 <= i < |before| && before[i].node == m;
          assert ops[i].node == m;
        }
      }
    }
    assert forall n :: IsGradNode(g, labels, mult, n) ==> n in nodes;
  }

  method AnalyseStepGraph(g: Graph, root: GraphId, labels: Labels) returns (f: Findings)
    requires WellFormed(g)
    ensures Correct(g, root, labels, f) && Reported(g, labels, f.mult, f.demand, f.ops)
  {
    hide Reported;
    hide LeastSolution, LeastClosed, Counted, Lists, Settled, ClosedUnderCalls, WithinEveryClosed;
    var resolver := new Resolver(g);
    var p := Problem(g, resolver.memo, root);
    var analyser := new Analyser(p);
    var mult := Multiplicities(p);
    var ops := ListGradOps(g, labels, mult, analyser.demand);
    ReportIs(g, labels, mult, analyser.demand, ops);
    f := Findings(p.memo, analyser.demand, mult, ops, resolver.overflow);
  }

  /** An operator is called unused exactly when no chain of reads leads to it from the root's result. */
  lemma UnusedMeans(g: Graph, root: GraphId, labels: Labels, f: Findings, i: nat)
    requires WellFormed(g) && Correct(g, root, labels, f) && Reported(g, labels, f.mult, f.demand, f.ops) && i < |f.ops|
    ensures f.ops[i].unused <==> forall w :: !DemandRules.EverAsked(Problem(g, f.memo, root), f.ops[i].node, w)
  {
    hide LeastSolution, LeastClosed, Counted, Lists, ClosedUnderCalls, WithinEveryClosed, GradientNode, Names;
    DemandRules.DemandExact(Problem(g, f.memo, root), f.demand, f.ops[i].node);
  }

  ghost predicate AgreeOutside(nodes: set<NodeId>, I: Interp, J: Interp) {
    forall n, args :: n !in nodes ==> I(n, args) == J(n, args)
  }

  /** Changing the operators at `nodes` in any way never changes what the root returns. */
  ghost predicate Removable(g: Graph, root: GraphId, nodes: set<NodeId>)
    requires WellFormed(g)
  {
    forall I: Interp, J: Interp, fuel: nat, args: Env :: DataOnly(I) && AgreeOutside(nodes, I, J) && FreeEnv(args) ==>
      Flat(Enter(g, I, fuel, root, args)) == Flat(Enter(g, J, fuel, root, args))
  }

  function UnusedNodes(ops: seq<GradOp>): set<NodeId> {
    set i | 0 <= i < |ops| && ops[i].unused :: ops[i].node
  }

  /** Every operator the analysis calls unused can be dropped, all of them together. */
  lemma UnusedNodesRemovable(g: Graph, root: GraphId, labels: Labels, f: Findings)
    requires WellFormed(g) && Correct(g, root, labels, f) && !f.overflow
    ensures Removable(g, root, UnusedNodes(f.ops))
  {
    var p := Problem(g, f.memo, root);
    assert Analysed(p, f.demand);
    forall I: Interp, J: Interp, fuel: nat, args: Env | DataOnly(I) && AgreeOutside(UnusedNodes(f.ops), I, J) && FreeEnv(args)
      ensures Flat(Enter(g, I, fuel, root, args)) == Flat(Enter(g, J, fuel, root, args))
    {
      UnusedIsRemovable(p, f.demand, I, J, fuel, args);
    }
  }

  /** The operators an optimised configuration may leave out, as a multiset, with the nodes they
      are. The multiset is what the nodes found unused execute; no run can notice their removal; and
      it never exceeds what the reference executes. */
  method UnusedGradientOperators(g: Graph, root: GraphId, labels: Labels, reference: Option<Counts>)
      returns (exempt: Counts, nodes: set<NodeId>, f: Findings)
    requires WellFormed(g)
    ensures Correct(g, root, labels, f) && Reported(g, labels, f.mult, f.demand, f.ops)
    ensures Granted(f.ops, reference, f.overflow) ==>
      Tallies(exempt, Unused(f.ops)) && nodes == UnusedNodes(f.ops) && Removable(g, root, nodes)
    ensures !Granted(f.ops, reference, f.overflow) ==> exempt == map[] && nodes == {}
    ensures Positive(exempt)
    ensures exempt != map[] && reference.Some? ==> Within(exempt, reference.value) && Positive(reference.value)
  {
    f := AnalyseStepGraph(g, root, labels);
    hide Correct, Reported, Removable, Tallies;
    var granted;
    granted, exempt := Exempt(f.ops, reference, f.overflow);
    nodes := {};
    if granted {
      nodes := UnusedNodes(f.ops);
      UnusedNodesRemovable(g, root, labels, f);
    }
  }
}
