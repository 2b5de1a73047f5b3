/** What one activation of a graph runs. The execution order lays out what the result depends on, each
    branch and each loop as one piece; a laid-out node runs once for every way through the regions
    around it: the arms it is in are taken, and each loop part it is in runs some number of rounds. */
module Running {
  import opened FlowGraph

  // ---- the layout

  predicate Near(g: Graph, n: NodeId, m: NodeId) {
    n in g.node && m in g.node && g.node[m].graph == g.node[n].graph
  }

  function InputsOf(g: Graph, n: NodeId): seq<NodeId>
    requires n in g.node
  {
    g.node[n].withs + g.node[n].norms + g.node[n].ctrls
  }

  /** Node `m` is in a region of the branch or loop that `n` ends. */
  predicate Holds(g: Graph, n: NodeId, m: NodeId)
    requires m in g.node
  {
    exists i :: 0 <= i < |g.node[m].regions| && g.node[m].regions[i].Owner() == n
  }

  predicate Heads(g: Graph, n: NodeId, j: NodeId)
    requires j in g.node
  {
    g.node[j].kind.Join? && g.node[j].norms != [] && g.node[j].norms[0] == n
  }

  /** Laying out `n` lays out `m`: its inputs, the members of the regions it ends, and the end of the
      branch or loop it belongs to. */
  predicate Pulls(g: Graph, n: NodeId, m: NodeId) {
    Near(g, n, m) && (m in InputsOf(g, n) || Holds(g, n, m) || Holds(g, m, n) || Heads(g, n, m))
  }

  /** `s` and what it lays out directly. */
  function Wider(g: Graph, s: set<NodeId>): (r: set<NodeId>)
    ensures s <= r
  {
    s + set m | m in g.node && exists n :: n in s && Pulls(g, n, m)
  }

  function Spread(g: Graph, from: NodeId, r: nat): set<NodeId> {
    if r == 0 then {from} else Wider(g, Spread(g, from, r - 1))
  }

  /** What the execution order of graph `h` holds. */
  function LaidOut(g: Graph, h: GraphId): set<NodeId> {
    if h in g.exitSrc then Spread(g, g.exitSrc[h], |g.node|) else {}
  }

  predicate Live(g: Graph, n: NodeId) {
    n in g.node && n in LaidOut(g, g.node[n].graph)
  }

  lemma {:induction false} SpreadInside(g: Graph, from: NodeId, r: nat)
    requires from in g.node
    ensures from in Spread(g, from, r) && Spread(g, from, r) <= g.node.Keys
  {
    if r > 0 { SpreadInside(g, from, r - 1); }
  }

  lemma {:induction false} SpreadSettles(g: Graph, from: NodeId, r: nat)
    ensures |Spread(g, from, r)| > r || Spread(g, from, r + 1) == Spread(g, from, r)
  {
    hide Wider;
    if r > 0 {
      SpreadSettles(g, from, r - 1);
      var before, now := Spread(g, from, r - 1), Spread(g, from, r);
      assert now == Wider(g, before) && Spread(g, from, r + 1) == Wider(g, now);
      if now != before { SmallerSet(before, now); }
    }
  }

  lemma SmallerSet<T>(a: set<T>, b: set<T>)
    requires a < b
    ensures |a| < |b|
  {
    assert |b - a| > 0 by { assert b - a != {}; }
    assert b == a + (b - a);
  }

  lemma WithinSize<T>(a: set<T>, b: set<T>)
    requires a <= b
    ensures |a| <= |b|
  {
    if a != b { SmallerSet(a, b); }
  }

  /** The layout is closed: what a laid-out node needs is laid out. */
  lemma LiveOn(g: Graph, n: NodeId, m: NodeId)
    requires WellFormed(g) && Live(g, n) && Pulls(g, n, m)
    ensures Live(g, m)
  {
    hide Pulls;
    var from, r := g.exitSrc[g.node[n].graph], |g.node|;
    SpreadInside(g, from, r);
    WithinSize(Spread(g, from, r), g.node.Keys);
    assert |g.node.Keys| == |g.node|;
    SpreadSettles(g, from, r);
    assert m in Spread(g, from, r + 1) && Near(g, n, m) by { PullsNear(g, n, m); }
  }

  lemma PullsNear(g: Graph, n: NodeId, m: NodeId)
    requires Pulls(g, n, m)
    ensures Near(g, n, m)
  {
  }

  /** Laying out `a` lays out `b`, as the execution order does it: an input of `a`, a node in a region that
      `a` ends, the end of a region `a` is in, or the JOIN of the branch that `a` heads. */
  ghost predicate LaysOut(g: Graph, a: NodeId, b: NodeId) {
    && a in g.node && b in g.node && g.node[a].graph == g.node[b].graph
    && (|| b in g.node[a].withs || b in g.node[a].norms || b in g.node[a].ctrls
        || (exists r :: r in g.node[b].regions && (if r.Arm? then r.join == a else r.loop == a))
        || (exists r :: r in g.node[a].regions && (if r.Arm? then r.join == b else r.loop == b))
        || (g.node[b].kind.Join? && |g.node[b].norms| > 0 && g.node[b].norms[0] == a))
  }

  ghost predicate OrderPath(g: Graph, path: seq<NodeId>) {
    path != [] && forall i :: 0 < i < |path| ==> LaysOut(g, path[i - 1], path[i])
  }

  lemma HoldsIs(g: Graph, n: NodeId, m: NodeId)
    requires m in g.node
    ensures Holds(g, n, m) <==>
      exists r :: r in g.node[m].regions && if r.Arm? then r.join == n else r.loop == n
  {
    var rs := g.node[m].regions;
    if i :| 0 <= i < |rs| && rs[i].Owner() == n { assert rs[i] in rs; }
  }

  lemma PullsIs(g: Graph, n: NodeId, m: NodeId)
    ensures Pulls(g, n, m) <==> LaysOut(g, n, m)
  {
    hide Holds;
    if n in g.node && m in g.node {
      HoldsIs(g, n, m);
      HoldsIs(g, m, n);
    }
  }

  lemma {:induction false} SpreadPath(g: Graph, from: NodeId, r: nat, n: NodeId) returns (path: seq<NodeId>)
    requires n in Spread(g, from, r)
    ensures OrderPath(g, path) && path[0] == from && path[|path| - 1] == n
  {
    hide LaysOut, Pulls;
    if r == 0 || n in Spread(g, from, r - 1) {
      if r == 0 { path := [from]; } else { path := SpreadPath(g, from, r - 1, n); }
    } else {
      var m :| m in Spread(g, from, r - 1) && Pulls(g, m, n);
      PullsIs(g, m, n);
      path := SpreadPath(g, from, r - 1, m);
      path := path + [n];
    }
  }

  lemma {:induction false} PathLive(g: Graph, h: GraphId, path: seq<NodeId>, i: nat)
    requires WellFormed(g) && h in g.exitSrc && OrderPath(g, path) && path[0] == g.exitSrc[h] && i < |path|
    ensures Live(g, path[i]) && g.node[path[i]].graph == h
  {
    hide LaysOut, Pulls, LaidOut;
    if i == 0 {
      ResultLive(g, h);
    } else {
      PathLive(g, h, path, i - 1);
      PullsIs(g, path[i - 1], path[i]);
      LiveOn(g, path[i - 1], path[i]);
      PullsNear(g, path[i - 1], path[i]);
    }
  }

  /** A node is in the execution order exactly when a path of such steps leads to it from the result. */
  lemma LiveExact(g: Graph, n: NodeId)
    requires WellFormed(g) && n in g.node
    ensures Live(g, n) <==>
      g.node[n].graph in g.exitSrc
      && exists path :: OrderPath(g, path) && path[0] == g.exitSrc[g.node[n].graph] && path[|path| - 1] == n
  {
    hide OrderPath, Spread;
    var h := g.node[n].graph;
    if Live(g, n) { var path := SpreadPath(g, g.exitSrc[h], |g.node|, n); assert path != [] by { PathNotEmpty(g, path); } }
    if h in g.exitSrc {
      forall path | OrderPath(g, path) ensures path != [] { PathNotEmpty(g, path); }
      if path :| OrderPath(g, path) && path[0] == g.exitSrc[h] && path[|path| - 1] == n { PathLive(g, h, path, |path| - 1); }
    }
  }

  lemma PathNotEmpty(g: Graph, path: seq<NodeId>)
    requires OrderPath(g, path)
    ensures path != []
  {
  }

  lemma ResultLive(g: Graph, h: GraphId)
    requires WellFormed(g) && h in g.exitSrc
    ensures Live(g, g.exitSrc[h])
  {
    SpreadInside(g, g.exitSrc[h], |g.node|);
  }

  // ---- the branch-arm invariant

  predicate HasArms(g: Graph, n: NodeId) {
    n in g.node && g.node[n].kind.Join? && g.node[n].norms != [] && g.node[n].withs != []
  }

  /** A region is where the branch or loop that owns it is. */
  predicate RegionOk(g: Graph, n: NodeId, i: nat)
    requires n in g.node && i < |g.node[n].regions|
  {
    var r := g.node[n].regions[i];
    && Near(g, n, r.Owner()) && g.node[r.Owner()].regions == g.node[n].regions[..i]
    && (if r.Arm? then HasArms(g, r.join) && r.index < |g.node[r.join].withs| else g.node[r.loop].kind.Loop?)
  }

  /** A node reads only nodes that run whenever it runs: those of its own regions or around them. A
      JOIN also reads the results of its arms, a loop those of its parts. */
  predicate ReadOk(g: Graph, n: NodeId, m: NodeId)
    requires n in g.node && m in g.node
  {
    var here, there := g.node[n].regions, g.node[m].regions;
    || there <= here
    || (here < there && there[|here|].Owner() == n)
  }

  predicate ArmResultOk(g: Graph, n: NodeId, k: nat)
    requires n in g.node && k < |g.node[n].withs| && g.node[n].withs[k] in g.node
  {
    var here, there := g.node[n].regions, g.node[g.node[n].withs[k]].regions;
    there <= here || there == here + [Arm(n, k)]
  }

  ghost predicate NodeRegionsOk(g: Graph, n: NodeId)
    requires n in g.node
  {
    && (forall i :: 0 <= i < |g.node[n].regions| ==> RegionOk(g, n, i))
    && (forall m :: m in InputsOf(g, n) && m in g.node ==> ReadOk(g, n, m))
    && (g.node[n].kind.Join? ==>
          && (forall k :: 0 <= k < |g.node[n].withs| && g.node[n].withs[k] in g.node ==> ArmResultOk(g, n, k))
          && (forall m :: m in g.node[n].norms && m in g.node ==> g.node[m].regions <= g.node[n].regions))
  }

  ghost predicate RegionsOk(g: Graph) {
    && (forall n :: n in g.node ==> NodeRegionsOk(g, n))
    && (forall h :: h in g.exitSrc && g.exitSrc[h] in g.node ==> g.node[g.exitSrc[h]].regions == [])
  }

  // ---- what runs

  /** What is decided in one activation: the arm each JOIN takes and how often each loop part runs, per
      round of the loops around. */
  datatype Local = Local(arm: (seq<nat>, NodeId) -> nat, times: (seq<nat>, Region) -> nat)

  /** A JOIN takes one of its arms; a loop's condition runs as often as its body, or once more. */
  ghost predicate LawfulLocal(g: Graph, l: Local) {
    && (forall rounds: seq<nat>, n: NodeId :: HasArms(g, n) ==> l.arm(rounds, n) < |g.node[n].withs|)
    && (forall rounds: seq<nat>, n: NodeId ::
          l.times(rounds, LoopBody(n)) <= l.times(rounds, LoopCond(n)) <= l.times(rounds, LoopBody(n)) + 1)
  }

  /** Round `rounds` of the loops among `regions` comes about, with the arms among them taken. */
  ghost predicate Passes(l: Local, regions: seq<Region>, rounds: seq<nat>)
    decreases |regions|
  {
    if regions == [] then rounds == []
    else
      var front, r := regions[..|regions| - 1], regions[|regions| - 1];
      if r.Arm? then l.arm(rounds, r.join) == r.index && Passes(l, front, rounds)
      else rounds != [] && var outer := rounds[..|rounds| - 1];
           rounds[|rounds| - 1] < l.times(outer, r) && Passes(l, front, outer)
  }

  /** Node `n` runs in the given round of the loops around it. */
  ghost predicate Runs(g: Graph, l: Local, n: NodeId, rounds: seq<nat>) {
    Live(g, n) && Passes(l, g.node[n].regions, rounds)
  }

  // ---- what runs exactly once whatever is decided

  predicate Fixed(g: Graph, r: Region) {
    r.Arm? && r.join in g.node && |g.node[r.join].withs| == 1
  }

  /** The node is laid out, in no loop, and in no arm of a branch with a choice: a check of the graph
      alone. */
  predicate Certain(g: Graph, n: NodeId) {
    Live(g, n) && forall i :: 0 <= i < |g.node[n].regions| ==> Fixed(g, g.node[n].regions[i])
  }

  lemma {:induction false} FixedPasses(g: Graph, l: Local, n: NodeId, k: nat, rounds: seq<nat>)
    requires RegionsOk(g) && LawfulLocal(g, l) && n in g.node && k <= |g.node[n].regions|
    requires forall i :: 0 <= i < |g.node[n].regions| ==> Fixed(g, g.node[n].regions[i])
    ensures Passes(l, g.node[n].regions[..k], rounds) <==> rounds == []
  {
    if k > 0 {
      var regions := g.node[n].regions;
      assert regions[..k][..k - 1] == regions[..k - 1];
      assert NodeRegionsOk(g, n) && RegionOk(g, n, k - 1);
      FixedPasses(g, l, n, k - 1, rounds);
    }
  }

  lemma CertainRuns(g: Graph, l: Local, n: NodeId, rounds: seq<nat>)
    requires RegionsOk(g) && LawfulLocal(g, l) && Certain(g, n)
    ensures Runs(g, l, n, rounds) <==> rounds == []
  {
    var regions := g.node[n].regions;
    FixedPasses(g, l, n, |regions|, rounds);
    assert regions[..|regions|] == regions;
  }
}
