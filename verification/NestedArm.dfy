/** Where the counts end. The analysis withholds a count when a call feeds a JOIN directly; a call
    whose value reaches an arm through another node, and a call in a loop's body, are counted as if
    they ran exactly once. Programs that call `f` show it: inside an arm, before the branch, and in a
    loop. All three are counted once; only the second count is right. As an arm itself, the call is
    noticed and no count is given. */
module NestedArm {
  import opened Wrappers
  import opened FlowGraph
  import opened Semantics
  import opened ClosureSpec
  import opened ClosureSoundness
  import opened Demand
  import opened Reachable
  import opened DemandRules
  import opened CallRules
  import opened Running
  import opened Trails
  import opened Activations
  import opened Executions

  const NODES: set<NodeId> := {1, 2, 3, 4, 5, 6}

  /** - `InArm`:  `if c then f() + 1 else 0`
      - `Before`: `let x = f(); if c then x + 1 else 0`
      - `InLoop`: `loop s = 0 for i in xs do s + f()`
      - `Direct`: `if c then f() else 0` */
  datatype Shape = InArm | Before | InLoop | Direct

  function Inner(shape: Shape): seq<Region> {
    if shape.InLoop? then [LoopBody(5)] else [Arm(5, 0)]
  }

  function NodeAt(shape: Shape, n: NodeId): Node {
    match n
    case 1 =>   // f()
      if shape.Before? then Node(Func(Some(1)), 0, [], [], [], [])
      else Node(Func(Some(1)), 0, [], [], if shape.InLoop? then [] else [4], Inner(shape))
    case 2 =>   // the addition
      Node(Oper, 0, [], [1], if shape.Before? then [4] else [], Inner(shape))
    case 3 => Node(Data(Literal(Atom(0))), 0, [], [], [], if shape.InLoop? then [] else [Arm(5, 1)])
    case 5 =>   // the end of the branch, or the loop
      if shape.InLoop? then Node(Loop([]), 0, [2], [4, 3], [], [])
      else Node(Join, 0, [if shape.Direct? then 1 else 2, 3], [4], [], [])
    case 6 => Node(Data(Literal(Atom(7))), 1, [], [], [], [])   // what f returns
    case _ => Node(Oper, 0, [], [], [], [])                     // 4: the branch head, or the sequence
  }

  function Program(shape: Shape): Graph {
    Graph(map n | n in NODES :: NodeAt(shape, n), map[], map[], map[0 := 5, 1 := 6])
  }

  function Question(shape: Shape): Problem { Problem(Program(shape), map[], 0) }
  function Calling(shape: Shape): CallGraph { CallGraph(Question(shape), {0, 1}) }

  lemma NodeIs(shape: Shape, n: NodeId)
    ensures n in Program(shape).node <==> n in NODES
    ensures n in NODES ==> Program(shape).node[n] == NodeAt(shape, n)
  {
  }

  lemma NodeIsOk(shape: Shape, n: NodeId)
    requires n in Program(shape).node
    ensures NodeOk(Program(shape), n) && !Program(shape).node[n].kind.Call?
  {
    hide Program;
    forall m ensures (m in Program(shape).node <==> m in NODES) && (m in NODES ==> Program(shape).node[m] == NodeAt(shape, m)) {
      NodeIs(shape, m);
    }
  }

  lemma ProgramWellFormed(shape: Shape)
    ensures WellFormed(Program(shape))
  {
    hide NodeOk;
    var g := Program(shape);
    forall n | n in g.node ensures NodeOk(g, n) { NodeIsOk(shape, n); }
    assert forall h :: CPorts(g, h) == [];
    NodeIs(shape, 5);
    NodeIs(shape, 6);
  }

  /** A node that reads something of the program, with where both are. */
  lemma ReadIsOk(shape: Shape, n: NodeId, m: NodeId)
    requires n in Program(shape).node && m in Program(shape).node && m in InputsOf(Program(shape), n)
    ensures ReadOk(Program(shape), n, m)
    ensures Program(shape).node[n].kind.Join? && m in Program(shape).node[n].norms ==>
      Program(shape).node[m].regions <= Program(shape).node[n].regions
  {
    hide Program;
    NodeIs(shape, n);
    NodeIs(shape, m);
    assert NodeAt(shape, m).regions == [] || (NodeAt(shape, n).regions == [] && n == 5) || NodeAt(shape, m).regions == NodeAt(shape, n).regions;
  }

  lemma RegionIsOk(shape: Shape, n: NodeId, i: nat)
    requires n in Program(shape).node && i < |Program(shape).node[n].regions|
    ensures RegionOk(Program(shape), n, i)
  {
    hide Program;
    NodeIs(shape, n);
    NodeIs(shape, 5);
    assert i == 0 && NodeAt(shape, n).regions[0].Owner() == 5;
    assert NodeAt(shape, n).regions[..0] == [];
  }

  lemma ResultIsOk(shape: Shape, k: nat)
    requires 5 in Program(shape).node && Program(shape).node[5].kind.Join? && k < |Program(shape).node[5].withs|
    ensures Program(shape).node[5].withs[k] in Program(shape).node && ArmResultOk(Program(shape), 5, k)
  {
    hide Program;
    NodeIs(shape, 5);
    NodeIs(shape, 1);
    NodeIs(shape, 2);
    NodeIs(shape, 3);
  }

  lemma RegionsAreOk(shape: Shape, n: NodeId)
    requires n in Program(shape).node
    ensures NodeRegionsOk(Program(shape), n)
  {
    hide Program, RegionOk, ReadOk, ArmResultOk, InputsOf;
    var g := Program(shape);
    forall i | 0 <= i < |g.node[n].regions| ensures RegionOk(g, n, i) { RegionIsOk(shape, n, i); }
    forall m | m in InputsOf(g, n) && m in g.node ensures ReadOk(g, n, m) { ReadIsOk(shape, n, m); }
    if g.node[n].kind.Join? {
      assert n == 5 by { NodeIs(shape, n); }
      forall k | 0 <= k < |g.node[n].withs| && g.node[n].withs[k] in g.node ensures ArmResultOk(g, n, k) { ResultIsOk(shape, k); }
      forall m | m in g.node[n].norms && m in g.node ensures g.node[m].regions <= g.node[n].regions {
        NormIsInput(g, n, m);
        ReadIsOk(shape, n, m);
      }
    }
  }

  lemma NormIsInput(g: Graph, n: NodeId, m: NodeId)
    requires n in g.node && m in g.node[n].norms
    ensures m in InputsOf(g, n)
  {
  }

  lemma ProgramRegions(shape: Shape)
    ensures RegionsOk(Program(shape))
  {
    hide NodeRegionsOk;
    forall n | n in Program(shape).node ensures NodeRegionsOk(Program(shape), n) { RegionsAreOk(shape, n); }
    NodeIs(shape, 5);
    NodeIs(shape, 6);
  }

  /** There is nothing to resolve: the table the analysis computes is empty. */
  lemma NothingToResolve(shape: Shape)
    ensures Resolved(Program(shape), map[]) && LeastSolution(Program(shape), map[])
  {
    hide WellFormed, Program;
    var g := Program(shape);
    ProgramWellFormed(shape);
    forall n | n in g.node ensures !g.node[n].kind.Call? { NodeIsOk(shape, n); }
    assert Calls(g) == {};
    assert Seeds(g) == {};
  }

  lemma TargetsAre(shape: Shape, n: NodeId)
    requires n in Program(shape).node
    ensures Targets(Question(shape), n) == if n == 1 then {1} else {}
    ensures IsSite(Question(shape), n) <==> n == 1
  {
    NodeIs(shape, n);
  }

  lemma CallersAre(shape: Shape, h: GraphId)
    ensures Callers(Calling(shape), h) == if h == 1 then {1} else {}
  {
    hide Targets, Program;
    var p := Question(shape);
    forall n | n in p.g.node ensures Targets(p, n) == (if n == 1 then {1} else {}) && (IsSite(p, n) <==> n == 1) {
      TargetsAre(shape, n);
    }
    NodeIs(shape, 1);
  }

  lemma CallsFromRoot(shape: Shape)
    ensures FromRoot(Calling(shape))
  {
    hide Targets, WellFormed, RegionsOk, Program;
    var p := Question(shape);
    ProgramWellFormed(shape);
    ProgramRegions(shape);
    CallersAre(shape, 0);
    forall h ensures Successors(p, h) <= {0, 1} {
      forall n | n in SitesIn(p, h) ensures Targets(p, n) <= {0, 1} { TargetsAre(shape, n); }
    }
  }

  lemma ChainsAre(shape: Shape, path: Chain)
    ensures RootChain(Calling(shape), path, 1) <==> path == [1]
  {
    hide Targets, Program, Callers;
    CallersAre(shape, 1);
    NodeIs(shape, 1);
    if path != [] && path[|path| - 1] == 1 {
      assert path == path[..|path| - 1] + [1];
      assert Home(Calling(shape), 1) == 0;
    }
  }

  lemma CallFeedsNoJoin(shape: Shape)
    requires !shape.Direct?
    ensures !FeedsJoin(Question(shape), 1)
  {
    var g := Program(shape);
    forall n | n in g.node && g.node[n].kind.Join? ensures 1 !in g.node[n].withs + g.node[n].norms + g.node[n].ctrls {
      NodeIs(shape, n);
    }
  }

  /** The graph of `f` is counted once, unless the call is itself an arm. */
  lemma CallIsCounted(shape: Shape)
    requires !shape.Direct?
    ensures Counted(Calling(shape), 1, Some(1))
  {
    hide Targets, RootChain, Program;
    var c := Calling(shape);
    TaintStep(c, 1);
    CallersAre(shape, 1);
    TargetsAre(shape, 1) by { NodeIs(shape, 1); }
    NodeIs(shape, 1);
    CallFeedsNoJoin(shape);
    assert Home(c, 1) == 0 && !Tainted(c, 0);
    forall path ensures path in {[1]} <==> RootChain(c, path, 1) { ChainsAre(shape, path); }
    assert AllRootChains(c, 1, {[1]});
  }

  /** As an arm itself, the call gets no count. */
  lemma DirectArmIsWithheld(r: Option<nat>)
    ensures Counted(Calling(Direct), 1, r) <==> r == None
  {
    hide Program, MayEnter, Tainted;
    var c := Calling(Direct);
    NodeIs(Direct, 1);
    NodeIs(Direct, 5);
    assert MayEnter(c.p, 1, 1) by { CallEnters(Direct); }
    assert Leads(c, 1, 1);
    if Counted(c, 1, r) { CallerInArm(c, 1, r, 1, 5); }
    assert ChainTo(c, [1], 1) && Loose(c.p, [1][0]);
    TaintIs(c, 1);
  }

  lemma CallEnters(shape: Shape)
    ensures MayEnter(Question(shape), 1, 1)
  {
    NodeIs(shape, 1);
  }

  // ---- inside an arm

  /** The branch head selects the second arm. */
  ghost predicate TakesElse(x: Execution) {
    x.p == Question(InArm) && Fit(x) && x.fuel > 0 && x.I(4, []) == Atom(1)
  }

  lemma SelectsElse(x: Execution, env: Env)
    requires TakesElse(x)
    ensures HasArms(x.p.g, 5) && Selected(x, env, 5) == 1
  {
    hide Solution, DataOnly, WellFormed, RegionsOk, LoopFree, Eval;
    NodeIs(InArm, 5);
    NodeIs(InArm, 4);
    InputValues(x.p.g, x.I, x.fuel, env, 4);
    assert EvalAll(x.p.g, x.I, x.fuel - 1, env, []) + EvalAll(x.p.g, x.I, x.fuel - 1, env, []) == [];
  }

  lemma CallDoesNotRun(x: Execution, a: Activation)
    requires TakesElse(x)
    ensures !RunsHere(x, a, 1)
  {
    hide Fit, LaidOut, Selected;
    SelectsElse(x, a.env);
    NodeIs(InArm, 1);
    assert Taken(x, a.env).arm([], 5) == 1;
    assert [Arm(5, 0)][..0] == [];
  }

  lemma OnlyTheRoot(x: Execution, run: seq<Activation>, path: Chain)
    requires TakesElse(x) && RunVia(x, run, path)
    ensures path == [] && run[0] == Activation(0, x.args)
  {
    hide Fit, RunsHere, Program;
    if path != [] {
      assert Spawns(x, run[0], path[0], run[1]);
      TargetsAre(InArm, path[0]);
      CallDoesNotRun(x, run[0]);
    }
  }

  lemma RootGoes(x: Execution)
    requires TakesElse(x)
    ensures Going(x, Activation(0, x.args))
  {
    hide Fit, Runs, Selected, Targets, Program;
    var a := Activation(0, x.args);
    SelectsElse(x, x.args);
    CallDoesNotRun(x, a);
    forall n | RunsHere(x, a, n)
      ensures (HasArms(x.p.g, n) ==> Selected(x, a.env, n) < |x.p.g.node[n].withs|) && !Enters(x.p, n)
    {
      TargetsAre(InArm, n);
      NodeIs(InArm, n);
    }
  }

  /** Counted once per step, the graph of `f` is not activated by any execution that takes the other
      arm, although nothing is stuck. */
  lemma NestedArmIsCounted(x: Execution)
    requires TakesElse(x)
    ensures LeastSolution(x.p.g, x.p.memo) && FromRoot(Calling(InArm)) && Counted(Calling(InArm), 1, Some(1)) && Proceeds(x)
    ensures forall path :: !Reaches(x, path, 1)
  {
    hide Fit, Runs, Selected, FromRoot, Counted, LeastSolution, Going, Spawns;
    NothingToResolve(InArm);
    CallsFromRoot(InArm);
    CallIsCounted(InArm);
    forall run: seq<Activation>, path: Chain | RunVia(x, run, path) ensures path == [] && Going(x, run[|path|]) {
      OnlyTheRoot(x, run, path);
      RootGoes(x);
    }
    forall path ensures !Reaches(x, path, 1) {
      if run: seq<Activation> :| RunVia(x, run, path) && run[|path|].graph == 1 { OnlyTheRoot(x, run, path); }
    }
  }

  const ELSE: Interp := (n: NodeId, args: seq<Value>) => Atom(1)

  /** There are such executions. */
  lemma ElseCanBeTaken(fuel: nat)
    requires fuel > 0
    ensures TakesElse(Execution(Question(InArm), ELSE, fuel, Env([], [], [], map[])))
  {
    hide Resolved, RegionsOk;
    NothingToResolve(InArm);
    ProgramRegions(InArm);
    forall n | n in Program(InArm).node ensures forall i :: 0 <= i < |Program(InArm).node[n].regions| ==> Program(InArm).node[n].regions[i].Arm? {
      NodeIs(InArm, n);
    }
  }

  /** The condition on counts rules the call out inside an arm and in a loop, and not before the
      branch. */
  lemma CallIsCertainOnlyBefore(shape: Shape)
    ensures Certain(Program(shape), 1) <==> shape.Before?
  {
    var g := Program(shape);
    NodeIs(shape, 1);
    NodeIs(shape, 5);
    if shape.Before? {
      CallIsLive();
    } else {
      assert !Fixed(g, g.node[1].regions[0]);
    }
  }

  lemma CallIsLive()
    ensures Live(Program(Before), 1)
  {
    hide LaidOut, WellFormed, Program;
    var g := Program(Before);
    ProgramWellFormed(Before);
    NodeIs(Before, 1);
    NodeIs(Before, 2);
    NodeIs(Before, 5);
    assert g.exitSrc[0] == 5 by { ResultIs(Before); }
    ResultIs(Before);
    ResultLive(g, 0);
    LiveOn(g, 5, 2);
    LiveOn(g, 2, 1);
  }

  lemma ResultIs(shape: Shape)
    ensures 0 in Program(shape).exitSrc && Program(shape).exitSrc[0] == 5
  {
  }

  // ---- before the branch

  /** Called before the branch, `f` is activated exactly once whatever is decided: the count is right. */
  lemma CallBeforeIsRight(d: Decisions)
    requires Lawful(Question(Before), d)
    ensures Counted(Calling(Before), 1, Some(1)) && ActivatedTimes(Question(Before), d, 1, 1)
  {
    hide Lawful, FromRoot, Counted, RootChain, Certain, ActivatedTimes, Program;
    CallsFromRoot(Before);
    CallIsCounted(Before);
    CallIsCertainOnlyBefore(Before);
    forall path | RootChain(Calling(Before), path, 1) ensures AllCertain(Program(Before), path) { ChainsAre(Before, path); }
    ActivationsExact(Calling(Before), 1, 1);
  }

  // ---- in a loop

  /** Every loop does `r` rounds. */
  function Rounds(r: nat): Local {
    Local((_: seq<nat>, _: NodeId) => 0, (_: seq<nat>, _: Region) => r)
  }

  /** Counted once per step, the graph of `f` is activated as often as the loop does rounds. */
  lemma LoopBodyIsCounted(r: nat)
    ensures Counted(Calling(InLoop), 1, Some(1))
    ensures var d := Planned(Question(InLoop), Always(Rounds(r)));
      Lawful(Question(InLoop), d) && ActivatedTimes(Question(InLoop), d, 1, r)
  {
    hide Counted, FromRoot, RootChain, Tainted, Program, Rounds, Planned, Lawful, ActivatedTimes;
    var p, plan := Question(InLoop), Always(Rounds(r));
    CallIsCounted(InLoop);
    CallsFromRoot(InLoop);
    RoundsLawful(r);
    PlannedLawful(p, plan);
    PlanOf(p, plan);
    forall path ensures path in {[1]} <==> RootChain(Calling(InLoop), path, 1) { ChainsAre(InLoop, path); }
    assert AllRootChains(Calling(InLoop), 1, {[1]});
    assert !Tainted(Calling(InLoop), 1) by { Untainted(InLoop); }
    RoundsRun(r);
    ActivatedAlong(Calling(InLoop), Planned(p, plan), 1, {[1]}, r);
  }

  lemma Untainted(shape: Shape)
    requires !shape.Direct?
    ensures !Tainted(Calling(shape), 1)
  {
    hide Tainted, Program;
    CallIsCounted(shape);
  }

  lemma RoundsLawful(r: nat)
    ensures LawfulPlan(Program(InLoop), Always(Rounds(r)))
  {
    forall n | HasArms(Program(InLoop), n) ensures false { NodeIs(InLoop, n); }
  }

  function InRoundOf(i: nat): Trail { [Visit(1, [i])] }

  lemma RoundsRun(r: nat)
    ensures RunTimes(Program(InLoop), Always(Rounds(r)), {[1]}, r)
  {
    hide Live, Runs, Program, Rounds;
    var g, d := Program(InLoop), Always(Rounds(r));
    var numbers := Numbers(r);
    forall i: nat ensures i in numbers <==> i < r { NumbersAre(r, i); }
    NumbersAre(r, 0);
    assert OneToOne(numbers, InRoundOf);
    ImageSize(numbers, InRoundOf);
    var all := Image(numbers, InRoundOf);
    forall t: Trail ensures t in all <==> Way(t) in {[1]} && AllRun(g, d, t) {
      if |t| == 1 && t[0].site == 1 {
        VisitRuns(r, t[0].rounds);
        assert Way(t) == [1];
        assert t == [t[0]];
        if |t[0].rounds| == 1 {
          assert t[0].rounds == [t[0].rounds[0]];
          assert t == InRoundOf(t[0].rounds[0]);
        }
      } else if Way(t) == [1] {
        assert t[0].site == Way(t)[0];
      }
    }
    assert Along(g, d, {[1]}, all);
  }

  function Numbers(r: nat): set<nat> {
    if r == 0 then {} else Numbers(r - 1) + {r - 1}
  }

  lemma {:induction false} NumbersAre(r: nat, i: nat)
    ensures |Numbers(r)| == r && (i in Numbers(r) <==> i < r)
  {
    if r > 0 {
      NumbersAre(r - 1, i);
      NumbersAre(r - 1, r - 1);
    }
  }

  lemma VisitRuns(r: nat, rounds: seq<nat>)
    ensures Runs(Program(InLoop), Rounds(r), 1, rounds) <==> |rounds| == 1 && rounds[0] < r
  {
    hide LaidOut;
    LoopCallIsLive();
    NodeIs(InLoop, 1);
    assert [LoopBody(5)][..0] == [];
  }

  lemma LoopCallIsLive()
    ensures Live(Program(InLoop), 1)
  {
    hide LaidOut, WellFormed, Program;
    var g := Program(InLoop);
    ProgramWellFormed(InLoop);
    NodeIs(InLoop, 1);
    NodeIs(InLoop, 2);
    NodeIs(InLoop, 5);
    ResultIs(InLoop);
    ResultLive(g, 0);
    LiveOn(g, 5, 2);
    LiveOn(g, 2, 1);
  }
}
