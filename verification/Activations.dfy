/** What the execution counts mean. Call sites that run start further activations; which arms are
    taken, how many rounds a loop does and which graph a call enters is decided at run time. The count
    of a graph is the number of its activations per step whatever is decided, exactly when every call
    site on the way to it is certain: laid out, in no loop and in no arm of a branch with a choice. */
module Activations {
  import opened Wrappers
  import opened FlowGraph
  import opened ClosureSpec
  import opened Demand
  import opened Reachable
  import opened Running
  import opened Trails

  /** What is decided at run time in a step. An activation is named by the trail that leads to it. */
  datatype Decisions = Decisions(plan: Plan, target: (Trail, Visit) -> GraphId)

  /** A call site that can enter something. */
  predicate Enters(p: Problem, s: NodeId) {
    s in p.g.node && IsSite(p, s) && Targets(p, s) != {}
  }

  ghost predicate Lawful(p: Problem, d: Decisions) {
    LawfulPlan(p.g, d.plan)
    && forall t: Trail, v: Visit :: Enters(p, v.site) ==> d.target(t, v) in Targets(p, v.site)
  }

  /** The last visit of the trail is made in the activation the rest of it leads to. */
  ghost predicate Made(p: Problem, d: Decisions, t: Trail)
    requires t != []
  {
    var front, v := t[..|t| - 1], t[|t| - 1];
    v.site in p.g.node && Runs(p.g, d.plan(front), v.site, v.rounds)
  }

  /** The calls of `t` are made one inside the other, the last one entering `h`. */
  ghost predicate Happens(p: Problem, d: Decisions, t: Trail, h: GraphId)
    decreases |t|
  {
    if t == [] then h == p.root
    else
      var front, v := t[..|t| - 1], t[|t| - 1];
      Enters(p, v.site) && d.target(front, v) == h && Made(p, d, t) && Happens(p, d, front, p.g.node[v.site].graph)
  }

  /** One step executes node `n` at the end of the trail. */
  ghost predicate Executes(p: Problem, d: Decisions, t: Trail, n: NodeId) {
    t != [] && t[|t| - 1].site == n && Made(p, d, t) && Happens(p, d, t[..|t| - 1], p.g.node[n].graph)
  }

  ghost predicate AllHappening(p: Problem, d: Decisions, h: GraphId, all: set<Trail>) {
    forall t :: t in all <==> Happens(p, d, t, h)
  }

  ghost predicate AllExecuting(p: Problem, d: Decisions, n: NodeId, all: set<Trail>) {
    forall t :: t in all <==> Executes(p, d, t, n)
  }

  ghost predicate ActivatedTimes(p: Problem, d: Decisions, h: GraphId, k: nat) {
    exists all :: AllHappening(p, d, h, all) && |all| == k
  }

  ghost predicate ExecutedTimes(p: Problem, d: Decisions, n: NodeId, k: nat) {
    exists all :: AllExecuting(p, d, n, all) && |all| == k
  }

  /** The call structure found from the root, with regions as the run-time checks them, and the root
      not called back. */
  ghost predicate FromRoot(c: CallGraph) {
    WellFormed(c.p.g) && RegionsOk(c.p.g) && ClosedUnderCalls(c) && Callers(c, c.p.root) == {}
  }

  // ---- what happens, and the chains counted

  lemma WayFront(t: Trail)
    requires t != []
    ensures Way(t)[..|t| - 1] == Way(t[..|t| - 1]) && Way(t)[|t| - 1] == t[|t| - 1].site
  {
  }

  /** All visits of a trail are made if its last is, and those before it. */
  lemma AllRunLast(g: Graph, d: Plan, t: Trail)
    requires t != []
    ensures AllRun(g, d, t) <==>
      AllRun(g, d, t[..|t| - 1]) && Runs(g, d(t[..|t| - 1]), t[|t| - 1].site, t[|t| - 1].rounds)
  {
    hide Runs;
    var front := t[..|t| - 1];
    assert forall i :: 0 <= i < |front| ==> front[..i] == t[..i];
  }

  lemma {:induction false} HappensIsChain(c: CallGraph, d: Decisions, t: Trail, h: GraphId)
    requires FromRoot(c) && Lawful(c.p, d) && Happens(c.p, d, t, h)
    ensures RootChain(c, Way(t), h) && h in c.seen && AllRun(c.p.g, d.plan, t)
    decreases |t|
  {
    hide Runs, Targets, LawfulPlan, AllRun, RegionsOk, Way;
    if t != [] {
      var front, v := t[..|t| - 1], t[|t| - 1];
      var home := c.p.g.node[v.site].graph;
      HappensIsChain(c, d, front, home);
      assert h in Successors(c.p, home);
      assert v.site in Callers(c, h);
      WayFront(t);
      AllRunLast(c.p.g, d.plan, t);
    } else {
      NothingRuns(c.p.g, d.plan);
    }
  }

  lemma NothingRuns(g: Graph, d: Plan)
    ensures AllRun(g, d, []) && Way([]) == []
  {
  }

  lemma {:induction false} ChainHappens(c: CallGraph, d: Decisions, t: Trail, h: GraphId)
    requires FromRoot(c) && Lawful(c.p, d) && AllRun(c.p.g, d.plan, t)
    requires RootChain(c, Way(t), h) && !Tainted(c, h)
    ensures Happens(c.p, d, t, h)
    decreases |t|
  {
    hide Runs, Targets, LawfulPlan, AllRun, RegionsOk, Tainted;
    if t != [] {
      var front, v := t[..|t| - 1], t[|t| - 1];
      WayFront(t);
      AllRunLast(c.p.g, d.plan, t);
      TaintStep(c, h);
      ChainHappens(c, d, front, Home(c, v.site));
      OneTarget(c.p, v.site, h, d.target(front, v));
    }
  }

  lemma OneTarget(p: Problem, s: NodeId, h: GraphId, h': GraphId)
    requires s in p.g.node && |Targets(p, s)| == 1 && h in Targets(p, s)
    ensures h' in Targets(p, s) ==> h == h'
  {
    var rest := Targets(p, s) - {h};
    assert |rest| == 0;
    assert h' !in rest;
  }

  /** Activations of an untainted graph are the trails along the chains counted. */
  lemma ActivatedAlong(c: CallGraph, d: Decisions, h: GraphId, every: set<Chain>, k: nat)
    requires FromRoot(c) && Lawful(c.p, d) && AllRootChains(c, h, every) && !Tainted(c, h)
    ensures ActivatedTimes(c.p, d, h, k) <==> RunTimes(c.p.g, d.plan, every, k)
  {
    hide FromRoot, Lawful, Happens, AllRun, RootChain, Tainted, Way;
    forall t: Trail ensures Happens(c.p, d, t, h) <==> Way(t) in every && AllRun(c.p.g, d.plan, t) {
      if Happens(c.p, d, t, h) { HappensIsChain(c, d, t, h); }
      if Way(t) in every && AllRun(c.p.g, d.plan, t) { ChainHappens(c, d, t, h); }
    }
    if all :| AllHappening(c.p, d, h, all) && |all| == k { assert Along(c.p.g, d.plan, every, all); }
    if all :| Along(c.p.g, d.plan, every, all) && |all| == k { assert AllHappening(c.p, d, h, all); }
  }

  // ---- what a count means

  ghost function SomeTarget(p: Problem, s: NodeId): (t: GraphId)
    ensures Enters(p, s) ==> t in Targets(p, s)
  {
    if Enters(p, s) then var t :| t in Targets(p, s); t else 0
  }

  ghost function Planned(p: Problem, plan: Plan): Decisions {
    Decisions(plan, (_: Trail, v: Visit) => SomeTarget(p, v.site))
  }

  lemma PlannedLawful(p: Problem, plan: Plan)
    requires LawfulPlan(p.g, plan)
    ensures Lawful(p, Planned(p, plan))
  {
    hide LawfulPlan, Targets;
  }

  /** A count of `k` is the number of activations per step whatever is decided at run time, exactly
      when every call site on a chain into the graph is certain. */
  lemma ActivationsExact(c: CallGraph, h: GraphId, k: nat)
    requires FromRoot(c) && Counted(c, h, Some(k))
    ensures (forall d :: Lawful(c.p, d) ==> ActivatedTimes(c.p, d, h, k))
       <==> (forall path :: RootChain(c, path, h) ==> AllCertain(c.p.g, path))
  {
    hide Lawful, AllCertain, RootChain, Tainted, ActivatedTimes, RunTimes, LawfulPlan, RegionsOk, Planned;
    var every := CountedChains(c, h, Some(k));
    RunExact(c.p.g, every);
    forall d | Lawful(c.p, d)
      ensures LawfulPlan(c.p.g, d.plan) && (ActivatedTimes(c.p, d, h, k) <==> RunTimes(c.p.g, d.plan, every, k))
    {
      LawfulIs(c.p, d);
      ActivatedAlong(c, d, h, every, k);
    }
    forall plan | LawfulPlan(c.p.g, plan) ensures Lawful(c.p, Planned(c.p, plan)) && Planned(c.p, plan).plan == plan {
      PlannedLawful(c.p, plan);
      PlanOf(c.p, plan);
    }
  }

  lemma LawfulIs(p: Problem, d: Decisions)
    requires Lawful(p, d)
    ensures LawfulPlan(p.g, d.plan)
  {
  }

  lemma PlanOf(p: Problem, plan: Plan)
    ensures Planned(p, plan).plan == plan
  {
  }

  /** The chains into the graph of `n`, continued with `n` itself. */
  ghost function Ending(every: set<Chain>, n: NodeId): set<Chain> {
    Image(every, (path: Chain) => path + [n])
  }

  lemma EndingIs(every: set<Chain>, n: NodeId)
    ensures |Ending(every, n)| == |every|
    ensures forall path: Chain :: path in Ending(every, n) <==> path != [] && path[|path| - 1] == n && path[..|path| - 1] in every
  {
    var f := (path: Chain) => path + [n];
    forall q: Chain, q': Chain | f(q) == f(q') ensures q == q' {
      assert f(q)[..|q|] == q && f(q')[..|q'|] == q';
    }
    ImageSize(every, f);
    assert Ending(every, n) == Image(every, f) by {
      forall y ensures y in Ending(every, n) <==> y in Image(every, f) { EndingMember(every, n, y); }
    }
    forall path: Chain ensures path in Ending(every, n) <==> path != [] && path[|path| - 1] == n && path[..|path| - 1] in every {
      EndingMember(every, n, path);
    }
  }

  lemma EndingMember(every: set<Chain>, n: NodeId, y: Chain)
    ensures y in Ending(every, n) <==> y != [] && y[|y| - 1] == n && y[..|y| - 1] in every
    ensures y in Ending(every, n) <==> exists q :: q in every && q + [n] == y
  {
    if y != [] && y[|y| - 1] == n { assert y == y[..|y| - 1] + [n]; }
    if q :| q in every && q + [n] == y { assert y[..|y| - 1] == q; }
  }

  lemma ExecutedAlong(c: CallGraph, d: Decisions, n: NodeId, every: set<Chain>, k: nat)
    requires FromRoot(c) && Lawful(c.p, d) && n in c.p.g.node
    requires AllRootChains(c, c.p.g.node[n].graph, every) && !Tainted(c, c.p.g.node[n].graph)
    ensures ExecutedTimes(c.p, d, n, k) <==> RunTimes(c.p.g, d.plan, Ending(every, n), k)
  {
    hide FromRoot, Lawful, Happens, AllRun, RootChain, Tainted, Runs, Way, Ending;
    var h, paths := c.p.g.node[n].graph, Ending(every, n);
    EndingIs(every, n);
    forall t: Trail ensures Executes(c.p, d, t, n) <==> Way(t) in paths && AllRun(c.p.g, d.plan, t) {
      if t != [] {
        var front := t[..|t| - 1];
        WayFront(t);
        AllRunLast(c.p.g, d.plan, t);
        if Executes(c.p, d, t, n) { HappensIsChain(c, d, front, h); }
        if Way(front) in every && AllRun(c.p.g, d.plan, front) { ChainHappens(c, d, front, h); }
      }
    }
    if all :| AllExecuting(c.p, d, n, all) && |all| == k { assert Along(c.p.g, d.plan, paths, all); }
    if all :| Along(c.p.g, d.plan, paths, all) && |all| == k { assert AllExecuting(c.p, d, n, all); }
  }

  /** The same for one operator: it is executed as often as its graph is counted, whatever is decided,
      exactly when it and every call site on the way are certain. */
  lemma OperatorExact(c: CallGraph, n: NodeId, k: nat)
    requires FromRoot(c) && n in c.p.g.node && Counted(c, c.p.g.node[n].graph, Some(k))
    ensures (forall d :: Lawful(c.p, d) ==> ExecutedTimes(c.p, d, n, k))
       <==> (forall path :: RootChain(c, path, c.p.g.node[n].graph) ==> AllCertain(c.p.g, path + [n]))
  {
    hide Lawful, AllCertain, RootChain, Tainted, ExecutedTimes, RunTimes, LawfulPlan, RegionsOk, Planned, Ending;
    var every := CountedChains(c, c.p.g.node[n].graph, Some(k));
    EndingIs(every, n);
    RunExact(c.p.g, Ending(every, n));
    forall d | Lawful(c.p, d)
      ensures LawfulPlan(c.p.g, d.plan) && (ExecutedTimes(c.p, d, n, k) <==> RunTimes(c.p.g, d.plan, Ending(every, n), k))
    {
      LawfulIs(c.p, d);
      ExecutedAlong(c, d, n, every, k);
    }
    forall plan | LawfulPlan(c.p.g, plan) ensures Lawful(c.p, Planned(c.p, plan)) && Planned(c.p, plan).plan == plan {
      PlannedLawful(c.p, plan);
      PlanOf(c.p, plan);
    }
    EndingCertain(c, n, every);
  }

  lemma EndingCertain(c: CallGraph, n: NodeId, every: set<Chain>)
    requires n in c.p.g.node && AllRootChains(c, c.p.g.node[n].graph, every)
    ensures (forall path :: path in Ending(every, n) ==> AllCertain(c.p.g, path))
       <==> (forall path :: RootChain(c, path, c.p.g.node[n].graph) ==> AllCertain(c.p.g, path + [n]))
  {
    hide AllCertain, RootChain, Ending;
    forall path | path in every ensures path + [n] in Ending(every, n) { EndingMember(every, n, path + [n]); }
    forall y | y in Ending(every, n) ensures y != [] && y[..|y| - 1] in every && y[..|y| - 1] + [n] == y {
      EndingMember(every, n, y);
    }
  }
}
