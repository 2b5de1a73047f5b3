/** Executions by evaluation: the arm a JOIN takes is the one its selector evaluates to, the graph a
    CALL enters is the target of the closure it evaluates to. What does not run here cannot influence
    the result, and every execution that is not stuck is one of the decisions counts are about. Graphs
    with loops are left to `Activations`: here every activation is evaluated in one piece. */
module Executions {
  import opened Wrappers
  import opened FlowGraph
  import opened Semantics
  import opened Fuel
  import opened ClosureSpec
  import opened ClosureSoundness
  import opened Demand
  import opened Reachable
  import opened Running
  import opened Trails
  import opened Activations

  /** One execution of the root: its operators, its arguments, and the fuel all values are taken at. */
  datatype Execution = Execution(p: Problem, I: Interp, fuel: nat, args: Env)

  ghost predicate LoopFree(g: Graph) {
    && (forall n, i :: n in g.node && 0 <= i < |g.node[n].regions| ==> g.node[n].regions[i].Arm?)
    && (forall n :: n in g.node ==> !g.node[n].kind.Loop?)
  }

  ghost predicate Fit(x: Execution) {
    && Resolved(x.p.g, x.p.memo) && RegionsOk(x.p.g) && LoopFree(x.p.g)
    && DataOnly(x.I) && FreeEnv(x.args)
  }

  /** The arm JOIN `n` selects in the activation `env`, or a number that is no arm. */
  ghost function Selected(x: Execution, env: Env, n: NodeId): nat
    requires Fit(x)
  {
    var g := x.p.g;
    if !HasArms(g, n) then 0
    else
      assert NodeOk(g, n);
      var v := Eval(g, x.I, x.fuel, env, g.node[n].norms[0]);
      if v.Atom? && 0 <= v.a < |g.node[n].withs| then v.a else |g.node[n].withs|
  }

  ghost function Taken(x: Execution, env: Env): Local
    requires Fit(x)
  {
    Local((_: seq<nat>, n: NodeId) => Selected(x, env, n), (_: seq<nat>, _: Region) => 0)
  }

  ghost predicate RunsHere(x: Execution, a: Activation, n: NodeId)
    requires Fit(x)
  {
    n in x.p.g.node && x.p.g.node[n].graph == a.graph && Runs(x.p.g, Taken(x, a.env), n, [])
  }

  /** The activations met when the call sites of `path` run one inside the other. */
  ghost predicate RunVia(x: Execution, run: seq<Activation>, path: Chain)
    requires Fit(x)
  {
    && |run| == |path| + 1 && run[0] == Activation(x.p.root, x.args)
    && forall i :: 0 <= i < |path| ==> Spawns(x, run[i], path[i], run[i + 1])
  }

  /** Call site `s` runs in activation `a` and starts activation `b`. */
  ghost predicate Spawns(x: Execution, a: Activation, s: NodeId, b: Activation)
    requires Fit(x)
  {
    RunsHere(x, a, s) && Starts(x.p.g, x.I, x.fuel, a, s, b)
  }

  /** The chain `path` is executed and ends in an activation of `h`. */
  ghost predicate Reaches(x: Execution, path: Chain, h: GraphId)
    requires Fit(x)
  {
    exists run: seq<Activation> :: RunVia(x, run, path) && run[|path|].graph == h
  }

  ghost predicate Activated(x: Execution, a: Activation)
    requires Fit(x)
  {
    exists run: seq<Activation>, path: Chain :: RunVia(x, run, path) && run[|path|] == a
  }

  /** Node `n` runs in some activation of the step. */
  ghost predicate Executed(x: Execution, n: NodeId)
    requires Fit(x)
  {
    exists a :: Activated(x, a) && RunsHere(x, a, n)
  }

  /** The execution does not get stuck: a JOIN that runs selects an arm, a call that runs has
      something to enter. */
  ghost predicate Proceeds(x: Execution)
    requires Fit(x)
  {
    forall run: seq<Activation>, path: Chain :: RunVia(x, run, path) ==> Going(x, run[|path|])
  }

  ghost predicate Going(x: Execution, a: Activation)
    requires Fit(x)
  {
    && (forall j :: RunsHere(x, a, j) && HasArms(x.p.g, j) ==> Selected(x, a.env, j) < |x.p.g.node[j].withs|)
    && forall s :: RunsHere(x, a, s) && Enters(x.p, s) ==> exists b :: Starts(x.p.g, x.I, x.fuel, a, s, b)
  }

  // ---- runs

  /** Along every run, in whatever round of its loops, an activation enters a graph its call site is
      known to target. */
  lemma StartsTarget(p: Problem, I: Interp, run: seq<Activation>, i: nat, state: map<NodeId, Value>, fuel: nat, n: NodeId, b: Activation)
    requires Resolved(p.g, p.memo) && DataOnly(I) && IsRun(p.g, I, run) && i < |run| && FreeEnv(run[0].env)
    requires FreeState(state) && Starts(p.g, I, fuel, During(run[i], state), n, b)
    ensures n in p.g.node && IsSite(p, n) && p.g.node[n].graph == run[i].graph && b.graph in Targets(p, n)
  {
    hide Solution, DataOnly, FreeEnv, FreeState, Eval, EvalAll, IsRun;
    if p.g.node[n].kind.Call? { CallsAreListed(p.g, p.memo, I, run, i, state, fuel, n); }
  }

  /** Along every run, a graph the root's execution enters is one of the graphs counted. */
  lemma {:induction false} RunsStayReachable(p: Problem, seen: set<GraphId>, I: Interp, run: seq<Activation>, i: nat)
    requires Resolved(p.g, p.memo) && ClosedUnderCalls(CallGraph(p, seen))
    requires DataOnly(I) && IsRun(p.g, I, run) && i < |run| && run[0].graph == p.root && FreeEnv(run[0].env)
    ensures run[i].graph in seen
  {
    hide Solution, Starts, DataOnly, FreeEnv, FreeState, During;
    if i > 0 {
      RunsStayReachable(p, seen, I, run, i - 1);
      assert Follows(p.g, I, run[i - 1], run[i]);
      var fuel: nat, n: NodeId, state: map<NodeId, Value> :|
        FreeState(state) && Starts(p.g, I, fuel, During(run[i - 1], state), n, run[i]);
      StartsTarget(p, I, run, i - 1, state, fuel, n, run[i]);
      assert run[i].graph in Successors(p, run[i - 1].graph);
    }
  }

  lemma StateIsFree(x: Execution, run: seq<Activation>, path: Chain, i: nat)
    requires Fit(x) && RunVia(x, run, path) && i < |run|
    ensures FreeState(run[i].env.state) && During(run[i], run[i].env.state) == run[i]
  {
    hide RunsHere, Resolved, RegionsOk, LoopFree, DataOnly;
    if i > 0 { assert Spawns(x, run[i - 1], path[i - 1], run[i - 1 + 1]); }
  }

  lemma RunViaIsRun(x: Execution, run: seq<Activation>, path: Chain)
    requires Fit(x) && RunVia(x, run, path)
    ensures IsRun(x.p.g, x.I, run)
  {
    hide Starts, RunsHere, FreeState, During;
    forall i | 0 < i < |run| ensures Follows(x.p.g, x.I, run[i - 1], run[i]) {
      StateIsFree(x, run, path, i - 1);
      assert Spawns(x, run[i - 1], path[i - 1], run[i]);
      assert Starts(x.p.g, x.I, x.fuel, During(run[i - 1], run[i - 1].env.state), path[i - 1], run[i]);
    }
  }

  lemma RunViaPrefix(x: Execution, run: seq<Activation>, path: Chain)
    requires Fit(x) && RunVia(x, run, path) && path != []
    ensures RunVia(x, run[..|path|], path[..|path| - 1])
  {
    hide Spawns;
  }

  lemma RunViaMore(x: Execution, run: seq<Activation>, path: Chain, s: NodeId, b: Activation)
    requires Fit(x) && RunVia(x, run, path) && Spawns(x, run[|path|], s, b)
    ensures RunVia(x, run + [b], path + [s])
  {
    hide Spawns;
  }

  /** A chain determines its activations. */
  lemma {:induction false} RunUnique(x: Execution, run: seq<Activation>, run': seq<Activation>, path: Chain)
    requires Fit(x) && RunVia(x, run, path) && RunVia(x, run', path)
    ensures run == run'
  {
    hide RunVia, Starts, Fit;
    RunViaLast(x, run, path);
    RunViaLast(x, run', path);
    if path != [] {
      RunViaPrefix(x, run, path);
      RunViaPrefix(x, run', path);
      RunUnique(x, run[..|path|], run'[..|path|], path[..|path| - 1]);
      var k := |path| - 1;
      assert run[k] == run[..|path|][k] && run'[k] == run'[..|path|][k];
      StartsOnce(x, run[k], path[k], run[|path|], run'[|path|]);
    }
  }

  lemma RunViaLast(x: Execution, run: seq<Activation>, path: Chain)
    requires Fit(x) && RunVia(x, run, path)
    ensures |run| == |path| + 1 && run == run[..|path|] + [run[|path|]]
    ensures path == [] ==> run == [Activation(x.p.root, x.args)]
    ensures path != [] ==> Starts(x.p.g, x.I, x.fuel, run[|path| - 1], path[|path| - 1], run[|path|])
  {
    hide Starts, RunsHere;
    if path != [] { assert Spawns(x, run[|path| - 1], path[|path| - 1], run[|path| - 1 + 1]); }
  }

  lemma StartsOnce(x: Execution, a: Activation, n: NodeId, b: Activation, b': Activation)
    requires Fit(x) && Starts(x.p.g, x.I, x.fuel, a, n, b) && Starts(x.p.g, x.I, x.fuel, a, n, b')
    ensures b == b'
  {
  }

  // ---- an execution is a way of deciding

  ghost predicate HasRun(x: Execution, path: Chain)
    requires Fit(x)
  {
    exists run :: RunVia(x, run, path)
  }

  ghost function LastOf(x: Execution, path: Chain): Activation
    requires Fit(x) && HasRun(x, path)
  {
    var run: seq<Activation> :| RunVia(x, run, path); run[|path|]
  }

  lemma LastIs(x: Execution, run: seq<Activation>, path: Chain)
    requires Fit(x) && RunVia(x, run, path)
    ensures HasRun(x, path) && LastOf(x, path) == run[|path|]
  {
    hide Fit, Spawns;
    var run': seq<Activation> :| RunVia(x, run', path) && LastOf(x, path) == run'[|path|];
    RunUnique(x, run, run', path);
  }

  ghost predicate CanSpawn(x: Execution, a: Activation, s: NodeId)
    requires Fit(x)
  {
    exists b :: Spawns(x, a, s, b)
  }

  ghost function Spawned(x: Execution, a: Activation, s: NodeId): (b: Activation)
    requires Fit(x) && CanSpawn(x, a, s)
    ensures Spawns(x, a, s, b)
  {
    var b :| Spawns(x, a, s, b); b
  }

  ghost function DecidedArm(x: Execution, path: Chain, n: NodeId): (j: nat)
    ensures HasArms(x.p.g, n) ==> j < |x.p.g.node[n].withs|
  {
    if Fit(x) && HasRun(x, path) then
      var j := Selected(x, LastOf(x, path).env, n);
      if HasArms(x.p.g, n) && j >= |x.p.g.node[n].withs| then 0 else j
    else 0
  }

  ghost function DecidedTarget(x: Execution, path: Chain, s: NodeId): GraphId {
    if Fit(x) && HasRun(x, path) && CanSpawn(x, LastOf(x, path), s) then Spawned(x, LastOf(x, path), s).graph
    else SomeTarget(x.p, s)
  }

  ghost function DecidedLocal(x: Execution, path: Chain): Local {
    Local((_: seq<nat>, n: NodeId) => DecidedArm(x, path, n), (_: seq<nat>, _: Region) => 0)
  }

  ghost function Decided(x: Execution): Decisions {
    Decisions((t: Trail) => DecidedLocal(x, Way(t)), (t: Trail, v: Visit) => DecidedTarget(x, Way(t), v.site))
  }

  lemma DecidedIs(x: Execution, path: Chain, s: NodeId)
    ensures Decided(x).plan(Plain(path)) == DecidedLocal(x, path)
    ensures Decided(x).target(Plain(path), Visit(s, [])) == DecidedTarget(x, path, s)
  {
    hide DecidedLocal, DecidedTarget, Plain, Way;
    PlainWay(path);
  }

  // ---- passing through arms

  lemma {:induction false} NoRounds(l: Local, regions: seq<Region>, rounds: seq<nat>)
    requires Passes(l, regions, rounds) && forall i :: 0 <= i < |regions| ==> regions[i].Arm?
    ensures rounds == []
    decreases |regions|
  {
    if regions != [] { NoRounds(l, regions[..|regions| - 1], rounds); }
  }

  lemma {:induction false} PassesPrefix(l: Local, regions: seq<Region>, k: nat)
    requires Passes(l, regions, []) && k <= |regions| && forall i :: 0 <= i < |regions| ==> regions[i].Arm?
    ensures Passes(l, regions[..k], [])
    decreases |regions|
  {
    if k == |regions| {
      assert regions[..k] == regions;
    } else {
      var front := regions[..|regions| - 1];
      PassesPrefix(l, front, k);
      assert front[..k] == regions[..k];
    }
  }

  /** The JOIN of an arm that is passed runs. */
  lemma OwnerRuns(x: Execution, a: Activation, n: NodeId, i: nat)
    requires Fit(x) && Live(x.p.g, n) && x.p.g.node[n].graph == a.graph && i < |x.p.g.node[n].regions|
    requires Passes(Taken(x, a.env), x.p.g.node[n].regions[..i], [])
    ensures RunsHere(x, a, x.p.g.node[n].regions[i].join) && HasArms(x.p.g, x.p.g.node[n].regions[i].join)
  {
    hide Passes, Taken, LaidOut, Solution, DataOnly, FreeEnv;
    var g, j := x.p.g, x.p.g.node[n].regions[i].join;
    assert NodeRegionsOk(g, n) && RegionOk(g, n, i);
    assert Holds(g, j, n);
    LiveOn(g, n, j);
  }

  /** In an activation that is not stuck, the decided arms are the selected ones. */
  lemma {:induction false} PassesAlike(x: Execution, run: seq<Activation>, path: Chain, n: NodeId, k: nat)
    requires Fit(x) && RunVia(x, run, path) && Going(x, run[|path|])
    requires Live(x.p.g, n) && x.p.g.node[n].graph == run[|path|].graph && k <= |x.p.g.node[n].regions|
    ensures Passes(Taken(x, run[|path|].env), x.p.g.node[n].regions[..k], []) <==>
            Passes(DecidedLocal(x, path), x.p.g.node[n].regions[..k], [])
  {
    hide LaidOut, Selected, LastOf, HasRun, Solution, DataOnly, FreeEnv, RegionsOk, Taken, DecidedLocal, Going, Passes, Spawns;
    var regions, a := x.p.g.node[n].regions, run[|path|];
    NoArms(Taken(x, a.env), regions);
    NoArms(DecidedLocal(x, path), regions);
    if k > 0 {
      PassesAlike(x, run, path, n, k - 1);
      LastArm(Taken(x, a.env), regions, k);
      LastArm(DecidedLocal(x, path), regions, k);
      if Passes(Taken(x, a.env), regions[..k - 1], []) {
        OwnerRuns(x, a, n, k - 1);
        ArmDecided(x, run, path, regions[k - 1].join);
        ArmsAre(x, a.env, path, regions[k - 1].join);
      }
    }
  }

  lemma NoArms(l: Local, regions: seq<Region>)
    ensures Passes(l, regions[..0], [])
  {
  }

  lemma LastArm(l: Local, regions: seq<Region>, k: nat)
    requires 0 < k <= |regions| && regions[k - 1].Arm?
    ensures Passes(l, regions[..k], []) <==> l.arm([], regions[k - 1].join) == regions[k - 1].index && Passes(l, regions[..k - 1], [])
  {
    assert regions[..k][..k - 1] == regions[..k - 1];
  }

  lemma ArmsAre(x: Execution, env: Env, path: Chain, j: NodeId)
    requires Fit(x)
    ensures Taken(x, env).arm([], j) == Selected(x, env, j) && DecidedLocal(x, path).arm([], j) == DecidedArm(x, path, j)
  {
  }

  lemma ArmDecided(x: Execution, run: seq<Activation>, path: Chain, j: NodeId)
    requires Fit(x) && RunVia(x, run, path) && Going(x, run[|path|]) && RunsHere(x, run[|path|], j) && HasArms(x.p.g, j)
    ensures DecidedArm(x, path, j) == Selected(x, run[|path|].env, j)
  {
    hide Fit, Runs, Spawns, Selected, LastOf, HasRun;
    LastIs(x, run, path);
  }

  lemma RunsAlike(x: Execution, run: seq<Activation>, path: Chain, n: NodeId)
    requires Fit(x) && RunVia(x, run, path) && Going(x, run[|path|])
    requires n in x.p.g.node && x.p.g.node[n].graph == run[|path|].graph
    ensures RunsHere(x, run[|path|], n) <==> Runs(x.p.g, DecidedLocal(x, path), n, [])
  {
    hide Fit, RunVia, Going, LaidOut, Passes;
    if Live(x.p.g, n) {
      var regions := x.p.g.node[n].regions;
      assert regions[..|regions|] == regions;
      PassesAlike(x, run, path, n, |regions|);
    }
  }

  lemma DecidedTargetIs(x: Execution, run: seq<Activation>, path: Chain, s: NodeId, b: Activation)
    requires Fit(x) && RunVia(x, run, path) && Spawns(x, run[|path|], s, b)
    ensures DecidedTarget(x, path, s) == b.graph
  {
    hide Fit, RunsHere, Starts, LastOf, HasRun, Spawned;
    LastIs(x, run, path);
    StartsOnce(x, run[|path|], s, b, Spawned(x, run[|path|], s));
  }

  lemma SpawnsTarget(x: Execution, run: seq<Activation>, path: Chain, s: NodeId, b: Activation)
    requires Fit(x) && RunVia(x, run, path) && Spawns(x, run[|path|], s, b)
    ensures Enters(x.p, s) && x.p.g.node[s].graph == run[|path|].graph && b.graph in Targets(x.p, s)
  {
    hide Resolved, RegionsOk, LoopFree, DataOnly, FreeEnv, Runs, Targets, Starts;
    RunViaIsRun(x, run, path);
    StateIsFree(x, run, path, |path|);
    StartsTarget(x.p, x.I, run, |path|, run[|path|].env.state, x.fuel, s, b);
  }

  lemma DecidedLawful(x: Execution)
    requires Fit(x)
    ensures Lawful(x.p, Decided(x))
  {
    hide Fit, RunVia, Spawns, Targets, LastOf, Way, DecidedArm;
    forall path: Chain, s: NodeId | Enters(x.p, s) ensures DecidedTarget(x, path, s) in Targets(x.p, s) {
      if HasRun(x, path) && CanSpawn(x, LastOf(x, path), s) {
        var run: seq<Activation> :| RunVia(x, run, path);
        LastIs(x, run, path);
        SpawnsTarget(x, run, path, s, Spawned(x, LastOf(x, path), s));
      }
    }
    forall t: Trail ensures LawfulLocal(x.p.g, Decided(x).plan(t)) {
      assert Decided(x).plan(t) == DecidedLocal(x, Way(t));
      LawfulDecided(x, Way(t));
    }
  }

  lemma LawfulDecided(x: Execution, path: Chain)
    ensures LawfulLocal(x.p.g, DecidedLocal(x, path))
  {
  }

  lemma PlainLast(path: Chain)
    requires path != []
    ensures Plain(path)[..|path| - 1] == Plain(path[..|path| - 1]) && Plain(path)[|path| - 1] == Visit(path[|path| - 1], [])
  {
  }

  /** What an execution reaches is what happens under the decisions it makes. */
  lemma {:induction false} ReachedHappens(x: Execution, run: seq<Activation>, path: Chain)
    requires Fit(x) && Proceeds(x) && RunVia(x, run, path)
    ensures Happens(x.p, Decided(x), Plain(path), run[|path|].graph)
    decreases |path|
  {
    hide Fit, Runs, Targets, Starts, Going, Decided, Plain;
    if path == [] {
      PlainWay(path);
    } else {
      var k := |path| - 1;
      var front, s := path[..k], path[k];
      var before := run[..|path|];
      RunViaPrefix(x, run, path);
      ReachedHappens(x, before, front);
      assert Spawns(x, before[k], s, run[|path|]);
      SpawnsTarget(x, before, front, s, run[|path|]);
      DecidedTargetIs(x, before, front, s, run[|path|]);
      assert Going(x, before[k]);
      RunsAlike(x, before, front, s);
      PlainLast(path);
      DecidedIs(x, front, s);
    }
  }

  lemma RoundsAreNone(x: Execution, l: Local, n: NodeId, rounds: seq<nat>)
    requires Fit(x) && Runs(x.p.g, l, n, rounds)
    ensures rounds == []
  {
    hide RegionsOk, Resolved, DataOnly, FreeEnv, LaidOut;
    NoRounds(l, x.p.g.node[n].regions, rounds);
  }

  lemma {:induction false} HappensReached(x: Execution, t: Trail, h: GraphId) returns (run: seq<Activation>)
    requires Fit(x) && Proceeds(x) && Happens(x.p, Decided(x), t, h)
    ensures t == Plain(Way(t)) && RunVia(x, run, Way(t)) && run[|t|].graph == h
    decreases |t|
  {
    hide Fit, Runs, Spawns, Enters, Going, Decided, Plain;
    if t == [] {
      run := [Activation(x.p.root, x.args)];
      PlainWay([]);
    } else {
      var k := |t| - 1;
      var front, v := t[..k], t[k];
      var before := HappensReached(x, front, x.p.g.node[v.site].graph);
      assert Going(x, before[k]);
      var b := ReachStep(x, before, Way(front), v, h);
      run := before + [b];
      TrailPlain(t, Way(front));
    }
  }

  lemma TrailPlain(t: Trail, path: Chain)
    requires t != [] && t[..|t| - 1] == Plain(path) && t[|t| - 1].rounds == []
    ensures Way(t) == path + [t[|t| - 1].site] && t == Plain(Way(t))
  {
    assert t == t[..|t| - 1] + [t[|t| - 1]];
  }

  lemma ReachStep(x: Execution, run: seq<Activation>, path: Chain, v: Visit, h: GraphId) returns (b: Activation)
    requires Fit(x) && RunVia(x, run, path) && Going(x, run[|path|])
    requires Enters(x.p, v.site) && x.p.g.node[v.site].graph == run[|path|].graph
    requires Runs(x.p.g, Decided(x).plan(Plain(path)), v.site, v.rounds) && Decided(x).target(Plain(path), v) == h
    ensures v.rounds == [] && RunVia(x, run + [b], path + [v.site]) && b.graph == h
  {
    hide Fit, Runs, Spawns, Targets, Going, Decided, Plain;
    RoundsAreNone(x, Decided(x).plan(Plain(path)), v.site, v.rounds);
    DecidedIs(x, path, v.site);
    RunsAlike(x, run, path, v.site);
    b := SpawnedBy(x, run[|path|], v.site);
    RunViaMore(x, run, path, v.site, b);
    DecidedTargetIs(x, run, path, v.site, b);
    assert v == Visit(v.site, []);
  }

  lemma SpawnedBy(x: Execution, a: Activation, s: NodeId) returns (b: Activation)
    requires Fit(x) && Going(x, a) && RunsHere(x, a, s) && Enters(x.p, s)
    ensures Spawns(x, a, s, b)
  {
    b :| Starts(x.p.g, x.I, x.fuel, a, s, b);
  }

  ghost predicate ReachedBy(x: Execution, h: GraphId, all: set<Chain>)
    requires Fit(x)
  {
    forall path :: path in all <==> Reaches(x, path, h)
  }

  lemma ReachesIs(x: Execution, path: Chain, h: GraphId)
    requires Fit(x) && Proceeds(x)
    ensures Reaches(x, path, h) <==> Happens(x.p, Decided(x), Plain(path), h)
  {
    hide Fit, Proceeds, RunVia, Happens, Decided, Plain, Way;
    PlainWay(path);
    if Happens(x.p, Decided(x), Plain(path), h) {
      var run := HappensReached(x, Plain(path), h);
    }
    if Reaches(x, path, h) {
      var run := RunReaching(x, path, h);
      ReachedHappens(x, run, path);
    }
  }

  lemma OnlyPlain(x: Execution, t: Trail, h: GraphId)
    requires Fit(x) && Proceeds(x) && Happens(x.p, Decided(x), t, h)
    ensures t == Plain(Way(t))
  {
    var run := HappensReached(x, t, h);
  }

  /** A count of `k` means that an execution of the root activates the graph exactly `k` times, if the
      call sites on the way to it are certain. */
  lemma ActivationsCounted(x: Execution, seen: set<GraphId>, h: GraphId, k: nat)
    requires Fit(x) && Proceeds(x)
    requires FromRoot(CallGraph(x.p, seen)) && Counted(CallGraph(x.p, seen), h, Some(k))
    requires forall path :: RootChain(CallGraph(x.p, seen), path, h) ==> AllCertain(x.p.g, path)
    ensures exists all :: ReachedBy(x, h, all) && |all| == k
  {
    hide Fit, Proceeds, FromRoot, Reaches, Happens, AllCertain, Counted, RootChain, Way, Plain, Decided, Lawful;
    ActivationsExact(CallGraph(x.p, seen), h, k);
    DecidedLawful(x);
    assert ActivatedTimes(x.p, Decided(x), h, k);
    var trails :| AllHappening(x.p, Decided(x), h, trails) && |trails| == k;
    forall t: Trail | t in trails ensures t == Plain(Way(t)) { OnlyPlain(x, t, h); }
    assert OneToOne(trails, Way);
    ImageSize(trails, Way);
    var all := Image(trails, Way);
    forall path ensures path in all <==> Reaches(x, path, h) {
      ReachesIs(x, path, h);
      PlainWay(path);
    }
    assert ReachedBy(x, h, all);
  }

  lemma RunReaching(x: Execution, path: Chain, h: GraphId) returns (run: seq<Activation>)
    requires Fit(x) && Reaches(x, path, h)
    ensures RunVia(x, run, path) && run[|path|].graph == h
  {
    run :| RunVia(x, run, path) && run[|path|].graph == h;
  }

  // ---- what does not run does not matter

  ghost predicate AgreeWhereExecuted(x: Execution, J: Interp)
    requires Fit(x)
  {
    forall n, vs :: Executed(x, n) ==> x.I(n, vs) == J(n, vs)
  }

  lemma RootActivated(x: Execution)
    requires Fit(x)
    ensures Activated(x, Activation(x.p.root, x.args))
  {
    var run, path := [Activation(x.p.root, x.args)], [];
    assert RunVia(x, run, path) && run[|path|] == run[0];
  }

  lemma SpawnedActivated(x: Execution, a: Activation, s: NodeId, b: Activation)
    requires Fit(x) && Activated(x, a) && Spawns(x, a, s, b)
    ensures Activated(x, b)
  {
    hide Fit, Spawns;
    var run: seq<Activation>, path: Chain :| RunVia(x, run, path) && run[|path|] == a;
    RunViaMore(x, run, path, s, b);
    assert (run + [b])[|path + [s]|] == b;
  }

  /** Which inputs evaluation reads: all data inputs, of a JOIN the selector and the selected arm. */
  ghost predicate ReadsInput(x: Execution, a: Activation, n: NodeId, m: NodeId)
    requires Fit(x) && n in x.p.g.node
  {
    var node := x.p.g.node[n];
    if !node.kind.Join? then m in node.withs + node.norms
    else m in node.norms || (HasArms(x.p.g, n) && Selected(x, a.env, n) < |node.withs| && m == node.withs[Selected(x, a.env, n)])
  }

  /** A node reads only nodes that run whenever it runs. */
  lemma InputRuns(x: Execution, a: Activation, n: NodeId, m: NodeId)
    requires Fit(x) && RunsHere(x, a, n) && ReadsInput(x, a, n, m)
    ensures RunsHere(x, a, m)
  {
    hide Selected, Solution, LaidOut, DataOnly, FreeEnv;
    var g, l := x.p.g, Taken(x, a.env);
    assert NodeOk(g, n) && NodeRegionsOk(g, n);
    assert Pulls(g, n, m);
    LiveOn(g, n, m);
    var here, there := g.node[n].regions, g.node[m].regions;
    if there <= here {
      PassesPrefix(l, here, |there|);
      assert here[..|there|] == there;
    } else {
      ArmIsTaken(x, a, n, m);
    }
  }

  lemma ArmIsTaken(x: Execution, a: Activation, n: NodeId, m: NodeId)
    requires Fit(x) && RunsHere(x, a, n) && ReadsInput(x, a, n, m) && m in x.p.g.node
    requires !(x.p.g.node[m].regions <= x.p.g.node[n].regions)
    ensures Passes(Taken(x, a.env), x.p.g.node[m].regions, [])
  {
    hide Selected, Solution, LaidOut, DataOnly, FreeEnv;
    var g, node := x.p.g, x.p.g.node[n];
    var here, there := node.regions, g.node[m].regions;
    assert NodeOk(g, n) && NodeRegionsOk(g, n) && NodeRegionsOk(g, m);
    assert ReadOk(g, n, m) && RegionOk(g, m, |here|);
    if node.kind.Join? {
      var k := Selected(x, a.env, n);
      assert ArmResultOk(g, n, k);
      assert there == here + [Arm(n, k)];
      assert there[..|there| - 1] == here;
    } else {
      assert false;
    }
  }

  /** The setting of the comparison: node `n` runs in activation `a`, and is evaluated with less fuel
      in an environment that `a` refines. */
  ghost predicate Setting(x: Execution, J: Interp, a: Activation, f: nat, e: Env, n: NodeId) {
    && Fit(x) && AgreeWhereExecuted(x, J) && Activated(x, a) && f <= x.fuel && EnvRefines(e, a.env)
    && RunsHere(x, a, n)
  }

  lemma SettingInput(x: Execution, J: Interp, a: Activation, f: nat, e: Env, n: NodeId, m: NodeId)
    requires Setting(x, J, a, f, e, n) && f > 0 && ReadsInput(x, a, n, m)
    ensures Setting(x, J, a, f - 1, e, m)
  {
    hide Runs, Selected, Solution, EnvRefines, Activated, AgreeWhereExecuted, DataOnly, FreeEnv, ReadsInput;
    InputRuns(x, a, n, m);
  }

  lemma {:induction false} EvalKept(x: Execution, J: Interp, a: Activation, f: nat, e: Env, n: NodeId)
    requires Setting(x, J, a, f, e, n)
    ensures Eval(x.p.g, x.I, f, e, n) == Eval(x.p.g, J, f, e, n)
    decreases f, 0
  {
    if f > 0 {
      hide Setting, Eval;
      match x.p.g.node[n].kind
      case Oper => InputsKept(x, J, a, f, e, n);
      case Fill(_) => InputsKept(x, J, a, f, e, n);
      case Func(_) => FuncKept(x, J, a, f, e, n);
      case Call => CallKept(x, J, a, f, e, n);
      case Join => JoinKept(x, J, a, f, e, n);
      case Loop(_) => LoopFreeKept(x, n);
      case _ => ThroughKept(x, J, a, f, e, n);
    }
  }

  lemma LoopFreeKept(x: Execution, n: NodeId)
    requires Fit(x) && n in x.p.g.node
    ensures !x.p.g.node[n].kind.Loop?
  {
  }

  ghost predicate DataInputs(g: Graph, n: NodeId, xs: seq<NodeId>) {
    n in g.node && !g.node[n].kind.Join?
    && forall i :: 0 <= i < |xs| ==> xs[i] in g.node && xs[i] in g.node[n].withs + g.node[n].norms
  }

  lemma {:induction false} EvalAllKept(x: Execution, J: Interp, a: Activation, f: nat, e: Env, n: NodeId, xs: seq<NodeId>)
    requires Setting(x, J, a, f, e, n) && f > 0 && DataInputs(x.p.g, n, xs)
    ensures EvalAll(x.p.g, x.I, f - 1, e, xs) == EvalAll(x.p.g, J, f - 1, e, xs)
    decreases f - 1, 1
  {
    hide Eval, Selected, Runs, Solution, RegionsOk, LoopFree, EnvRefines, Activated, AgreeWhereExecuted, DataOnly, FreeEnv;
    forall i | 0 <= i < |xs| ensures Eval(x.p.g, x.I, f - 1, e, xs[i]) == Eval(x.p.g, J, f - 1, e, xs[i]) {
      SettingInput(x, J, a, f, e, n, xs[i]);
      EvalKept(x, J, a, f - 1, e, xs[i]);
    }
  }

  lemma {:induction false} InputsKept(x: Execution, J: Interp, a: Activation, f: nat, e: Env, n: NodeId)
    requires Setting(x, J, a, f, e, n) && f > 0 && (x.p.g.node[n].kind.Oper? || x.p.g.node[n].kind.Fill?)
    ensures Eval(x.p.g, x.I, f, e, n) == Eval(x.p.g, J, f, e, n)
    decreases f - 1, 2
  {
    hide Eval, Runs, Solution, RegionsOk, LoopFree, EnvRefines, FillValue, Activated, EvalAll;
    var g := x.p.g;
    InputValues(g, x.I, f, e, n);
    InputValues(g, J, f, e, n);
    EvalAllKept(x, J, a, f, e, n, g.node[n].withs);
    EvalAllKept(x, J, a, f, e, n, g.node[n].norms);
    assert Executed(x, n);
  }

  lemma {:induction false} ThroughKept(x: Execution, J: Interp, a: Activation, f: nat, e: Env, n: NodeId)
    requires Setting(x, J, a, f, e, n) && f > 0
    requires var k := x.p.g.node[n].kind; k.Data? || k.Port? || k.ClosurePort? || k.Accs? || k.Gate?
    ensures Eval(x.p.g, x.I, f, e, n) == Eval(x.p.g, J, f, e, n)
    decreases f - 1, 2
  {
    hide Runs, Solution, RegionsOk, LoopFree, EnvRefines, Activated, AgreeWhereExecuted, Selected, Access, ConstValue, PortValue, CaptureValue;
    var node := x.p.g.node[n];
    assert NodeOk(x.p.g, n);
    if (node.kind.Accs? || node.kind.Gate?) && node.norms != [] {
      SettingInput(x, J, a, f, e, n, node.norms[0]);
      EvalKept(x, J, a, f - 1, e, node.norms[0]);
    } else if node.kind.Gate? && node.withs != [] {
      SettingInput(x, J, a, f, e, n, node.withs[0]);
      EvalKept(x, J, a, f - 1, e, node.withs[0]);
    }
  }

  /** A selection made with less fuel is the selection of the activation. */
  lemma SelectedEarly(x: Execution, J: Interp, a: Activation, f: nat, e: Env, n: NodeId)
    requires Setting(x, J, a, f, e, n) && f > 0 && HasArms(x.p.g, n)
    ensures x.p.g.node[n].norms[0] in x.p.g.node
    ensures var arm := Eval(x.p.g, x.I, f - 1, e, x.p.g.node[n].norms[0]);
      arm.Atom? && 0 <= arm.a < |x.p.g.node[n].withs| ==> Selected(x, a.env, n) == arm.a
  {
    hide Eval, Runs, Solution, RegionsOk, LoopFree, EnvRefines, Activated, AgreeWhereExecuted, Refines, DataOnly;
    var g, sel := x.p.g, x.p.g.node[n].norms[0];
    assert NodeOk(g, n);
    var arm := Eval(g, x.I, f - 1, e, sel);
    if arm.Atom? {
      MoreFuelRefines(g, x.I, f - 1, x.fuel, e, a.env, sel);
      AtomIsFinal(arm, Eval(g, x.I, x.fuel, a.env, sel));
    }
  }

  lemma {:induction false} JoinKept(x: Execution, J: Interp, a: Activation, f: nat, e: Env, n: NodeId)
    requires Setting(x, J, a, f, e, n) && f > 0 && x.p.g.node[n].kind.Join?
    ensures Eval(x.p.g, x.I, f, e, n) == Eval(x.p.g, J, f, e, n)
    decreases f - 1, 2
  {
    hide Eval, Runs, Solution, RegionsOk, LoopFree, EnvRefines, Activated, AgreeWhereExecuted, DataOnly, Selected;
    var g, node := x.p.g, x.p.g.node[n];
    if node.norms == [] {
      NoSelector(g, x.I, f, e, n);
      NoSelector(g, J, f, e, n);
    } else {
      JoinValue(g, x.I, f, e, n);
      JoinValue(g, J, f, e, n);
      SettingInput(x, J, a, f, e, n, node.norms[0]);
      EvalKept(x, J, a, f - 1, e, node.norms[0]);
      var arm := Eval(g, x.I, f - 1, e, node.norms[0]);
      if arm.Atom? && 0 <= arm.a < |node.withs| {
        SelectedEarly(x, J, a, f, e, n);
        SettingInput(x, J, a, f, e, n, node.withs[arm.a]);
        EvalKept(x, J, a, f - 1, e, node.withs[arm.a]);
      }
    }
  }

  lemma NoSelector(g: Graph, I: Interp, f: nat, e: Env, n: NodeId)
    requires WellFormed(g) && n in g.node && g.node[n].kind.Join? && g.node[n].norms == [] && f > 0
    ensures Eval(g, I, f, e, n) == Bot
  {
    assert NodeOk(g, n);
  }

  lemma ResultRuns(x: Execution, b: Activation)
    requires Fit(x) && b.graph in x.p.g.exitSrc
    ensures RunsHere(x, b, x.p.g.exitSrc[b.graph])
  {
    hide LaidOut, Solution, DataOnly, FreeEnv;
    ResultLive(x.p.g, b.graph);
  }

  lemma {:induction false} EnterKept(x: Execution, J: Interp, b: Activation, f: nat, e: Env)
    requires Fit(x) && AgreeWhereExecuted(x, J) && Activated(x, b) && f <= x.fuel && EnvRefines(e, b.env)
    ensures Enter(x.p.g, x.I, f, b.graph, e) == Enter(x.p.g, J, f, b.graph, e)
    decreases f, 1
  {
    hide Eval, Runs, Solution, RegionsOk, LoopFree, EnvRefines, Activated, AgreeWhereExecuted;
    if b.graph in x.p.g.exitSrc {
      ResultRuns(x, b);
      EvalKept(x, J, b, f, e, x.p.g.exitSrc[b.graph]);
    }
  }

  lemma {:induction false} FuncKept(x: Execution, J: Interp, a: Activation, f: nat, e: Env, n: NodeId)
    requires Setting(x, J, a, f, e, n) && f > 0 && x.p.g.node[n].kind.Func?
    ensures Eval(x.p.g, x.I, f, e, n) == Eval(x.p.g, J, f, e, n)
    decreases f - 1, 2
  {
    hide Eval, Runs, Solution, RegionsOk, LoopFree, EvalAll, Activated, Enter, DataOnly, RefinesAll;
    var g, node := x.p.g, x.p.g.node[n];
    FuncValue(g, x.I, f, e, n);
    FuncValue(g, J, f, e, n);
    EvalAllKept(x, J, a, f, e, n, node.withs);
    EvalAllKept(x, J, a, f, e, n, node.norms);
    assert Executed(x, n);
    if node.kind.callee.Some? {
      EvalAllRefines(g, x.I, f - 1, x.fuel, e, a.env, n, node.withs);
      EvalAllRefines(g, x.I, f - 1, x.fuel, e, a.env, n, node.norms);
      var b := Activation(node.kind.callee.value,
                          Env(EvalAll(g, x.I, x.fuel, a.env, node.withs), EvalAll(g, x.I, x.fuel, a.env, node.norms), [], map[]));
      assert RefinesAll([], []) by { NothingRefines(); }
      SpawnedActivated(x, a, n, b);
      EnterKept(x, J, b, f - 1, Env(EvalAll(g, x.I, f - 1, e, node.withs), EvalAll(g, x.I, f - 1, e, node.norms), [], map[]));
    }
  }

  lemma NothingRefines()
    ensures RefinesAll([], [])
  {
  }

  lemma {:induction false} CallKept(x: Execution, J: Interp, a: Activation, f: nat, e: Env, n: NodeId)
    requires Setting(x, J, a, f, e, n) && f > 0 && x.p.g.node[n].kind.Call?
    ensures Eval(x.p.g, x.I, f, e, n) == Eval(x.p.g, J, f, e, n)
    decreases f - 1, 2
  {
    hide Eval, Runs, Solution, RegionsOk, LoopFree, EvalAll, Activated, Enter, DataOnly, RefinesAll, Refines, AgreeWhereExecuted;
    var g, node := x.p.g, x.p.g.node[n];
    CallValue(g, x.I, f, e, n);
    CallValue(g, J, f, e, n);
    if node.withs != [] {
      SettingInput(x, J, a, f, e, n, node.withs[0]);
      EvalKept(x, J, a, f - 1, e, node.withs[0]);
      EvalAllKept(x, J, a, f, e, n, node.withs[1..]);
      EvalAllKept(x, J, a, f, e, n, node.norms);
      var v, w := Eval(g, x.I, f - 1, e, node.withs[0]), Eval(g, x.I, x.fuel, a.env, node.withs[0]);
      if v.Clo? {
        MoreFuelRefines(g, x.I, f - 1, x.fuel, e, a.env, node.withs[0]);
        CapturesRefine(v, w);
        EvalAllRefines(g, x.I, f - 1, x.fuel, e, a.env, n, node.withs[1..]);
        EvalAllRefines(g, x.I, f - 1, x.fuel, e, a.env, n, node.norms);
        var b := Activation(w.target,
                            Env(EvalAll(g, x.I, x.fuel, a.env, node.withs[1..]), EvalAll(g, x.I, x.fuel, a.env, node.norms), w.caps, map[]));
        SpawnedActivated(x, a, n, b);
        EnterKept(x, J, b, f - 1, Env(EvalAll(g, x.I, f - 1, e, node.withs[1..]), EvalAll(g, x.I, f - 1, e, node.norms), v.caps, map[]));
      }
    }
  }

  /** What is not executed cannot influence the result: the root returns exactly the same value when
      the operators that did not run are replaced by anything. */
  lemma UnexecutedIsIrrelevant(x: Execution, J: Interp)
    requires Fit(x) && AgreeWhereExecuted(x, J)
    ensures Enter(x.p.g, x.I, x.fuel, x.p.root, x.args) == Enter(x.p.g, J, x.fuel, x.p.root, x.args)
  {
    hide Solution, DataOnly, FreeEnv, Enter, Activated;
    forall v ensures Refines(v, v) { RefinesItself(v); }
    RootActivated(x);
    EnterKept(x, J, Activation(x.p.root, x.args), x.fuel, x.args);
  }
}
