/** How often given sequences of nodes run one inside the other, over all activations of a step: exactly
    once each, whatever is decided at run time, if and only if all their nodes are certain. */
module Trails {
  import opened FlowGraph
  import opened Running

  /** A node that runs, in a round of the loops around it. */
  datatype Visit = Visit(site: NodeId, rounds: seq<nat>)

  /** Visits inside one another; each but the first is in the activation the one before it starts. */
  type Trail = seq<Visit>

  /** What is decided in each activation. */
  type Plan = Trail -> Local

  function Always(l: Local): Plan {
    (t: Trail) => l
  }

  function Way(t: Trail): (path: seq<NodeId>)
    ensures |path| == |t| && forall i :: 0 <= i < |t| ==> path[i] == t[i].site
  {
    seq(|t|, i requires 0 <= i < |t| => t[i].site)
  }

  ghost predicate LawfulPlan(g: Graph, d: Plan) {
    forall t :: LawfulLocal(g, d(t))
  }

  ghost predicate AllRun(g: Graph, d: Plan, t: Trail) {
    forall i :: 0 <= i < |t| ==> Runs(g, d(t[..i]), t[i].site, t[i].rounds)
  }

  /** `all` are the ways in which the nodes of one of `paths` run. */
  ghost predicate Along(g: Graph, d: Plan, paths: set<seq<NodeId>>, all: set<Trail>) {
    forall t :: t in all <==> Way(t) in paths && AllRun(g, d, t)
  }

  ghost predicate RunTimes(g: Graph, d: Plan, paths: set<seq<NodeId>>, k: nat) {
    exists all :: Along(g, d, paths, all) && |all| == k
  }

  ghost predicate AllCertain(g: Graph, path: seq<NodeId>) {
    forall i :: 0 <= i < |path| ==> Certain(g, path[i])
  }

  ghost predicate OneToOne<A, B>(s: set<A>, f: A -> B) {
    forall x, y :: x in s && y in s && f(x) == f(y) ==> x == y
  }

  ghost function Image<A(!new), B(!new)>(s: set<A>, f: A -> B): (r: set<B>)
    ensures forall y :: y in r <==> exists x :: x in s && f(x) == y
  {
    set x | x in s :: f(x)
  }

  lemma {:induction false} ImageSize<A(!new), B(!new)>(s: set<A>, f: A -> B)
    requires OneToOne(s, f)
    ensures |Image(s, f)| == |s|
  {
    if s != {} {
      var x :| x in s;
      var rest := s - {x};
      ImageSize(rest, f);
      assert Image(s, f) == Image(rest, f) + {f(x)};
      assert f(x) !in Image(rest, f);
    }
  }

  // ---- certain nodes

  /** The trail outside all loops. */
  function Plain(path: seq<NodeId>): (t: Trail)
    ensures |t| == |path| && forall i :: 0 <= i < |path| ==> t[i] == Visit(path[i], [])
  {
    seq(|path|, i requires 0 <= i < |path| => Visit(path[i], []))
  }

  lemma PlainWay(path: seq<NodeId>)
    ensures Way(Plain(path)) == path
  {
  }

  lemma CertainTrail(g: Graph, d: Plan, t: Trail)
    requires RegionsOk(g) && LawfulPlan(g, d) && AllCertain(g, Way(t))
    ensures AllRun(g, d, t) <==> t == Plain(Way(t))
  {
    hide Runs, Certain, LawfulLocal, RegionsOk;
    forall i | 0 <= i < |t| ensures Runs(g, d(t[..i]), t[i].site, t[i].rounds) <==> t[i] == Visit(t[i].site, []) {
      assert Certain(g, Way(t)[i]);
      CertainRuns(g, d(t[..i]), t[i].site, t[i].rounds);
    }
    if AllRun(g, d, t) {
      forall i | 0 <= i < |t| ensures t[i] == Plain(Way(t))[i] {}
    }
  }

  lemma CertainTimes(g: Graph, d: Plan, paths: set<seq<NodeId>>)
    requires RegionsOk(g) && LawfulPlan(g, d) && forall path :: path in paths ==> AllCertain(g, path)
    ensures RunTimes(g, d, paths, |paths|)
  {
    hide RegionsOk, LawfulPlan, AllCertain, AllRun;
    var all := Image(paths, Plain);
    forall path, path' | path in paths && path' in paths && Plain(path) == Plain(path') ensures path == path' {
      PlainWay(path);
      PlainWay(path');
    }
    assert OneToOne(paths, Plain);
    ImageSize(paths, Plain);
    forall t ensures t in all <==> Way(t) in paths && AllRun(g, d, t) {
      if t in all {
        var path :| path in paths && t == Plain(path);
        PlainWay(path);
      }
      if Way(t) in paths { CertainTrail(g, d, t); }
    }
    assert Along(g, d, paths, all);
  }

  // ---- a node that can be kept from running

  /** Something of the control around `n` can leave it out: it is not laid out at all, it is in a loop's
      body, or in an arm beside another. */
  predicate Skippable(g: Graph, n: NodeId) {
    !Live(g, n) || exists i :: 0 <= i < |g.node[n].regions| && Leaves(g, g.node[n].regions[i])
  }

  predicate Leaves(g: Graph, r: Region) {
    r.LoopBody? || (r.Arm? && !Fixed(g, r))
  }

  /** Every loop does no round; every branch takes its first arm, the branch of `skip` another one. */
  function QuietArm(g: Graph, skip: Region, n: NodeId): nat {
    if skip == Arm(n, 0) && n in g.node && |g.node[n].withs| > 1 then 1 else 0
  }

  function Quiet(g: Graph, skip: Region): Local {
    Local((_: seq<nat>, n: NodeId) => QuietArm(g, skip, n), (_: seq<nat>, r: Region) => if r.LoopCond? then 1 else 0)
  }

  lemma QuietLawful(g: Graph, skip: Region)
    ensures LawfulLocal(g, Quiet(g, skip))
  {
  }

  lemma {:induction false} QuietSkips(g: Graph, n: NodeId, i: nat, k: nat, rounds: seq<nat>)
    requires RegionsOk(g) && n in g.node && i < k <= |g.node[n].regions| && Leaves(g, g.node[n].regions[i])
    ensures !Passes(Quiet(g, g.node[n].regions[i]), g.node[n].regions[..k], rounds)
  {
    var regions := g.node[n].regions;
    assert regions[..k][..k - 1] == regions[..k - 1];
    var outer := if rounds == [] then [] else rounds[..|rounds| - 1];
    if i < k - 1 {
      QuietSkips(g, n, i, k - 1, rounds);
      QuietSkips(g, n, i, k - 1, outer);
    } else {
      assert NodeRegionsOk(g, n) && RegionOk(g, n, i);
    }
  }

  /** Each loop part runs at most once. */
  ghost predicate Slim(l: Local) {
    forall rounds: seq<nat>, r: Region :: l.times(rounds, r) <= 1
  }

  lemma {:induction false} SlimOnce(l: Local, regions: seq<Region>, a: seq<nat>, b: seq<nat>)
    requires Slim(l) && Passes(l, regions, a) && Passes(l, regions, b)
    ensures a == b
    decreases |regions|
  {
    if regions != [] {
      var front, r := regions[..|regions| - 1], regions[|regions| - 1];
      if r.Arm? {
        SlimOnce(l, front, a, b);
      } else {
        SlimOnce(l, front, a[..|a| - 1], b[..|b| - 1]);
        assert a == a[..|a| - 1] + [a[|a| - 1]] && b == b[..|b| - 1] + [b[|b| - 1]];
      }
    }
  }

  /** Decisions under which `n` never runs and nothing runs twice. */
  lemma SkipLocal(g: Graph, n: NodeId) returns (l: Local)
    requires RegionsOk(g) && Skippable(g, n)
    ensures LawfulLocal(g, l) && Slim(l) && forall rounds :: !Runs(g, l, n, rounds)
  {
    hide RegionsOk, LaidOut;
    if Live(g, n) {
      var regions := g.node[n].regions;
      var i :| 0 <= i < |regions| && Leaves(g, regions[i]);
      l := Quiet(g, regions[i]);
      QuietLawful(g, regions[i]);
      assert regions[..|regions|] == regions;
      forall rounds ensures !Passes(l, regions, rounds) { QuietSkips(g, n, i, |regions|, rounds); }
    } else {
      l := Quiet(g, LoopBody(0));
      QuietLawful(g, LoopBody(0));
    }
  }

  lemma SkipTimes(g: Graph, paths: set<seq<NodeId>>, path: seq<NodeId>, i: nat) returns (d: Plan)
    requires RegionsOk(g) && path in paths && i < |path| && Skippable(g, path[i])
    ensures LawfulPlan(g, d) && !RunTimes(g, d, paths, |paths|)
  {
    var l := SkipLocal(g, path[i]);
    d := Always(l);
    assert LawfulPlan(g, d);
    hide Skippable, LawfulLocal, Slim, Passes;
    if all: set<Trail> :| Along(g, d, paths, all) && |all| == |paths| {
      SkipFewer(g, l, paths, all, path, i);
    }
  }

  lemma SkipFewer(g: Graph, l: Local, paths: set<seq<NodeId>>, all: set<Trail>, path: seq<NodeId>, i: nat)
    requires Slim(l) && Along(g, Always(l), paths, all) && path in paths && i < |path|
    requires forall rounds :: !Runs(g, l, path[i], rounds)
    ensures |all| < |paths|
  {
    hide Slim, Runs;
    forall t: Trail, t': Trail | t in all && t' in all && Way(t) == Way(t') ensures t == t' { SlimTrail(g, l, t, t'); }
    assert OneToOne(all, Way);
    ImageSize(all, Way);
    var image := Image(all, Way);
    forall t: Trail | t in all ensures Way(t) != path {
      if i < |t| { assert Runs(g, Always(l)(t[..i]), t[i].site, t[i].rounds); }
    }
    assert image < paths;
    SmallerSet(image, paths);
  }

  lemma SlimTrail(g: Graph, l: Local, t: Trail, t': Trail)
    requires Slim(l) && AllRun(g, Always(l), t) && AllRun(g, Always(l), t') && Way(t) == Way(t')
    ensures t == t'
  {
    forall i | 0 <= i < |t| ensures t[i] == t'[i] {
      assert Way(t)[i] == Way(t')[i];
      SlimOnce(l, g.node[t[i].site].regions, t[i].rounds, t'[i].rounds);
    }
  }

  // ---- a node that can run twice

  /** Every loop does one round, and asks its condition twice. */
  const BUSY: Local := Local((_: seq<nat>, _: NodeId) => 0, (_: seq<nat>, r: Region) => if r.LoopCond? then 2 else 1)

  function Loops(regions: seq<Region>): nat {
    if regions == [] then 0
    else Loops(regions[..|regions| - 1]) + if regions[|regions| - 1].Arm? then 0 else 1
  }

  ghost predicate Below2(rounds: seq<nat>) {
    forall i :: 0 <= i < |rounds| ==> rounds[i] < 2
  }

  /** The only control around the node that has a say is loop conditions. */
  predicate CondOnly(g: Graph, n: NodeId) {
    Live(g, n) && forall i :: 0 <= i < |g.node[n].regions| ==> !Leaves(g, g.node[n].regions[i])
  }

  lemma OnlyArm(g: Graph, n: NodeId, i: nat)
    requires RegionsOk(g) && n in g.node && i < |g.node[n].regions| && Fixed(g, g.node[n].regions[i])
    ensures g.node[n].regions[i].index == 0
  {
    assert NodeRegionsOk(g, n) && RegionOk(g, n, i);
  }

  ghost predicate Mild(regions: seq<Region>) {
    forall i :: 0 <= i < |regions| ==> regions[i].LoopCond? || (regions[i].Arm? && regions[i].index == 0)
  }

  lemma {:induction false} BusyPasses(regions: seq<Region>, rounds: seq<nat>)
    requires Mild(regions) && |rounds| == Loops(regions) && Below2(rounds)
    ensures Passes(BUSY, regions, rounds)
    decreases |regions|
  {
    if regions != [] {
      var front, r := regions[..|regions| - 1], regions[|regions| - 1];
      if r.Arm? {
        BusyPasses(front, rounds);
      } else {
        BusyPasses(front, rounds[..|rounds| - 1]);
        assert BUSY.times(rounds[..|rounds| - 1], r) == 2;
      }
    }
  }

  lemma BusyRuns(g: Graph, n: NodeId, rounds: seq<nat>)
    requires RegionsOk(g) && CondOnly(g, n) && |rounds| == Loops(g.node[n].regions) && Below2(rounds)
    ensures Runs(g, BUSY, n, rounds)
  {
    hide RegionsOk, LaidOut, Passes, Below2, Loops;
    var regions := g.node[n].regions;
    forall i | 0 <= i < |regions| ensures regions[i].LoopCond? || (regions[i].Arm? && regions[i].index == 0) {
      assert !Leaves(g, regions[i]);
      if regions[i].Arm? { OnlyArm(g, n, i); }
    }
    BusyPasses(regions, rounds);
  }

  lemma {:induction false} NoLoops(regions: seq<Region>)
    ensures Loops(regions) == 0 <==> forall i :: 0 <= i < |regions| ==> regions[i].Arm?
  {
    if regions != [] { NoLoops(regions[..|regions| - 1]); }
  }

  function LoopsAt(g: Graph, n: NodeId): nat {
    if n in g.node then Loops(g.node[n].regions) else 0
  }

  /** The visit in the given round of all loops around. */
  function InRound(g: Graph, n: NodeId, round: nat): Visit {
    Visit(n, seq(LoopsAt(g, n), _ => round))
  }

  function FirstRounds(g: Graph, path: seq<NodeId>): (t: Trail)
    ensures |t| == |path| && forall i :: 0 <= i < |path| ==> t[i] == InRound(g, path[i], 0)
  {
    seq(|path|, i requires 0 <= i < |path| => InRound(g, path[i], 0))
  }

  lemma BusyTrail(g: Graph, t: Trail)
    requires RegionsOk(g) && forall i :: 0 <= i < |t| ==> CondOnly(g, t[i].site)
    requires forall i :: 0 <= i < |t| ==> |t[i].rounds| == LoopsAt(g, t[i].site) && Below2(t[i].rounds)
    ensures AllRun(g, Always(BUSY), t)
  {
    hide RegionsOk, Below2, Runs;
    forall i | 0 <= i < |t| ensures Runs(g, BUSY, t[i].site, t[i].rounds) {
      assert CondOnly(g, t[i].site);
      BusyRuns(g, t[i].site, t[i].rounds);
    }
  }

  lemma BusyLawful(g: Graph)
    ensures LawfulPlan(g, Always(BUSY))
  {
  }

  lemma FirstRoundsRun(g: Graph, path: seq<NodeId>)
    requires RegionsOk(g) && forall i :: 0 <= i < |path| ==> CondOnly(g, path[i])
    ensures AllRun(g, Always(BUSY), FirstRounds(g, path)) && Way(FirstRounds(g, path)) == path
  {
    hide RegionsOk, CondOnly, AllRun;
    var t := FirstRounds(g, path);
    forall i | 0 <= i < |t| ensures CondOnly(g, t[i].site) && |t[i].rounds| == LoopsAt(g, t[i].site) && Below2(t[i].rounds) {
      assert CondOnly(g, path[i]);
    }
    BusyTrail(g, t);
  }

  lemma SecondRoundRuns(g: Graph, path: seq<NodeId>, i: nat) returns (t: Trail)
    requires RegionsOk(g) && (forall j :: 0 <= j < |path| ==> CondOnly(g, path[j]))
    requires i < |path| && LoopsAt(g, path[i]) > 0
    ensures AllRun(g, Always(BUSY), t) && Way(t) == path && t != FirstRounds(g, path)
  {
    hide RegionsOk, CondOnly, AllRun;
    t := FirstRounds(g, path)[i := InRound(g, path[i], 1)];
    forall j | 0 <= j < |t| ensures CondOnly(g, t[j].site) && |t[j].rounds| == LoopsAt(g, t[j].site) && Below2(t[j].rounds) {
      assert CondOnly(g, path[j]);
    }
    BusyTrail(g, t);
    assert t[i].rounds[0] == 1 && FirstRounds(g, path)[i].rounds[0] == 0;
  }

  lemma TwiceTimes(g: Graph, paths: set<seq<NodeId>>, path: seq<NodeId>, i: nat)
    requires RegionsOk(g) && (forall q, j :: q in paths && 0 <= j < |q| ==> CondOnly(g, q[j]))
    requires path in paths && i < |path| && LoopsAt(g, path[i]) > 0
    ensures !RunTimes(g, Always(BUSY), paths, |paths|)
  {
    hide RegionsOk, CondOnly, AllRun, LoopsAt;
    var d := Always(BUSY);
    if all: set<Trail> :| Along(g, d, paths, all) && |all| == |paths| {
      TwiceMore(g, paths, all, path, i);
    }
  }

  lemma TwiceMore(g: Graph, paths: set<seq<NodeId>>, all: set<Trail>, path: seq<NodeId>, i: nat)
    requires RegionsOk(g) && (forall q, j :: q in paths && 0 <= j < |q| ==> CondOnly(g, q[j]))
    requires path in paths && i < |path| && LoopsAt(g, path[i]) > 0 && Along(g, Always(BUSY), paths, all)
    ensures |paths| < |all|
  {
    hide RegionsOk, CondOnly, AllRun, LoopsAt;
    var f := q => FirstRounds(g, q);
    forall q | q in paths ensures f(q) in all && Way(f(q)) == q {
      assert forall j :: 0 <= j < |q| ==> CondOnly(g, q[j]);
      FirstRoundsRun(g, q);
    }
    assert OneToOne(paths, f);
    ImageSize(paths, f);
    var image := Image(paths, f);
    assert forall j :: 0 <= j < |path| ==> CondOnly(g, path[j]);
    var t := SecondRoundRuns(g, path, i);
    assert t in all;
    forall q | q in paths ensures f(q) != t {
      assert Way(f(q)) == q;
    }
    assert image < all;
    SmallerSet(image, all);
  }

  // ---- exactly

  lemma Uncertain(g: Graph, n: NodeId)
    requires !Certain(g, n) && !Skippable(g, n)
    ensures CondOnly(g, n) && LoopsAt(g, n) > 0
  {
    hide LaidOut;
    NoLoops(g.node[n].regions);
  }

  /** The nodes of each path run one inside the other exactly once each, whatever is decided, if and
      only if they are all certain. */
  lemma RunExact(g: Graph, paths: set<seq<NodeId>>)
    requires RegionsOk(g)
    ensures (forall d :: LawfulPlan(g, d) ==> RunTimes(g, d, paths, |paths|))
       <==> (forall path :: path in paths ==> AllCertain(g, path))
  {
    hide RegionsOk, LawfulPlan, RunTimes, Certain, Skippable, CondOnly, LoopsAt;
    if forall path :: path in paths ==> AllCertain(g, path) {
      forall d | LawfulPlan(g, d) ensures RunTimes(g, d, paths, |paths|) { CertainTimes(g, d, paths); }
    } else {
      var d := WrongTimes(g, paths);
    }
  }

  lemma WrongTimes(g: Graph, paths: set<seq<NodeId>>) returns (d: Plan)
    requires RegionsOk(g) && exists path :: path in paths && !AllCertain(g, path)
    ensures LawfulPlan(g, d) && !RunTimes(g, d, paths, |paths|)
  {
    hide RegionsOk, LawfulPlan, RunTimes, Certain, Skippable, CondOnly, LoopsAt;
    if path, i :| path in paths && 0 <= i < |path| && Skippable(g, path[i]) {
      d := SkipTimes(g, paths, path, i);
    } else {
      d := Always(BUSY);
      BusyLawful(g);
      forall q, j | q in paths && 0 <= j < |q| ensures CondOnly(g, q[j]) { NotSkippable(g, q[j]); }
      var path :| path in paths && !AllCertain(g, path);
      var i :| 0 <= i < |path| && !Certain(g, path[i]);
      Uncertain(g, path[i]);
      TwiceTimes(g, paths, path, i);
    }
  }

  lemma NotSkippable(g: Graph, n: NodeId)
    requires !Skippable(g, n)
    ensures CondOnly(g, n)
  {
  }
}
