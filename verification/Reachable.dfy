/** How often each graph runs per execution of the root, as the analysis counts it: a worklist that
    collects call sites, then a memoised count over callers. The count is the number of call-site
    chains from the root, and it is withheld exactly when some chain passes a call that feeds a JOIN
    directly, a multi-target site or a cycle. What that says about executions is in `Activations`. */
module Reachable {
  import opened Wrappers
  import opened FlowGraph
  import opened ClosureSpec
  import opened Demand

  type Chain = seq<NodeId>

  predicate IsSite(p: Problem, n: NodeId) {
    n in p.g.node && (p.g.node[n].kind.Func? || p.g.node[n].kind.Call?)
  }

  function SitesIn(p: Problem, h: GraphId): set<NodeId> {
    set n | n in p.g.node && IsSite(p, n) && p.g.node[n].graph == h
  }

  function Successors(p: Problem, h: GraphId): set<GraphId> {
    set n, t | n in SitesIn(p, h) && t in Targets(p, n) :: t
  }

  /** The call sites of `h` inside the graphs of `seen`. */
  function CallersIn(p: Problem, seen: set<GraphId>, h: GraphId): set<NodeId> {
    set s | s in p.g.node && IsSite(p, s) && p.g.node[s].graph in seen && h in Targets(p, s)
  }

  /** The value of `s` feeds a JOIN directly: the only test for branch arms there is. */
  predicate FeedsJoin(p: Problem, s: NodeId) {
    exists c :: c in p.g.node && p.g.node[c].kind.Join? && s in p.g.node[c].withs + p.g.node[c].norms + p.g.node[c].ctrls
  }

  predicate Conditional(p: Problem, s: NodeId)
    requires s in p.g.node
  {
    FeedsJoin(p, s) || |Targets(p, s)| != 1
  }

  /** The call structure a run can reach. */
  datatype CallGraph = CallGraph(p: Problem, seen: set<GraphId>)

  function Callers(c: CallGraph, h: GraphId): set<NodeId> {
    CallersIn(c.p, c.seen, h)
  }

  function Home(c: CallGraph, s: NodeId): GraphId {
    if s in c.p.g.node then c.p.g.node[s].graph else 0
  }

  ghost predicate ClosedUnderCalls(c: CallGraph) {
    c.p.root in c.seen && forall h :: h in c.seen ==> Successors(c.p, h) <= c.seen
  }

  // ---- chains

  /** Consecutive call sites, each inside the graph the one before it enters, the last entering `h`;
      the root is not entered on the way. */
  ghost predicate IsChain(c: CallGraph, path: Chain, h: GraphId)
    decreases |path|
  {
    h != c.p.root && path != [] && path[|path| - 1] in Callers(c, h)
    && (|path| == 1 || IsChain(c, path[..|path| - 1], Home(c, path[|path| - 1])))
  }

  /** A chain that starts in the root. */
  ghost predicate RootChain(c: CallGraph, path: Chain, h: GraphId)
    decreases |path|
  {
    if h == c.p.root then path == []
    else path != [] && path[|path| - 1] in Callers(c, h)
         && RootChain(c, path[..|path| - 1], Home(c, path[|path| - 1]))
  }

  ghost predicate OnCycle(c: CallGraph, h: GraphId) {
    exists path :: IsChain(c, path, h) && Home(c, path[0]) == h
  }

  /** Some call chain into `h` passes a call that feeds a JOIN, a multi-target site or a cycle. */
  ghost predicate Tainted(c: CallGraph, h: GraphId) {
    OnCycle(c, h) || exists path :: TaintedChain(c, path, h)
  }

  ghost predicate TaintedChain(c: CallGraph, path: Chain, h: GraphId) {
    IsChain(c, path, h) && path[0] in c.p.g.node
    && (Conditional(c.p, path[0]) || OnCycle(c, Home(c, path[0])))
  }

  lemma ExtendChain(c: CallGraph, path: Chain, s: NodeId, h: GraphId)
    requires s in Callers(c, h) && h != c.p.root && IsChain(c, path, Home(c, s))
    ensures IsChain(c, path + [s], h) && (path + [s])[0] == path[0]
  {
    assert (path + [s])[..|path|] == path;
  }

  lemma {:induction false} PrependToChain(c: CallGraph, s: NodeId, path: Chain, h: GraphId)
    requires IsChain(c, path, h) && Home(c, path[0]) != c.p.root && s in Callers(c, Home(c, path[0]))
    ensures IsChain(c, [s] + path, h)
    decreases |path|
  {
    var n := |path|;
    assert ([s] + path)[..n] == [s] + path[..n - 1];
    if n == 1 {
      assert [s] + path[..0] == [s];
    } else {
      PrependToChain(c, s, path[..n - 1], Home(c, path[n - 1]));
    }
  }

  /** Taint passes from a caller's graph to the callee, and comes from nowhere else. */
  lemma TaintStep(c: CallGraph, h: GraphId)
    requires h != c.p.root
    ensures Tainted(c, h) <==>
      exists s :: s in Callers(c, h) && (Conditional(c.p, s) || Tainted(c, Home(c, s)))
  {
    if s :| s in Callers(c, h) && (Conditional(c.p, s) || Tainted(c, Home(c, s))) {
      TaintForward(c, s, h);
    }
    if Tainted(c, h) {
      var s := TaintBackward(c, h);
    }
  }

  lemma TaintForward(c: CallGraph, s: NodeId, h: GraphId)
    requires h != c.p.root && s in Callers(c, h) && (Conditional(c.p, s) || Tainted(c, Home(c, s)))
    ensures Tainted(c, h)
  {
    assert IsChain(c, [s], h);
    if Conditional(c.p, s) || OnCycle(c, Home(c, s)) {
      assert TaintedChain(c, [s], h);
    } else {
      var path :| TaintedChain(c, path, Home(c, s));
      ExtendChain(c, path, s, h);
      assert TaintedChain(c, path + [s], h);
    }
  }

  lemma TaintBackward(c: CallGraph, h: GraphId) returns (s: NodeId)
    requires h != c.p.root && Tainted(c, h)
    ensures s in Callers(c, h) && (Conditional(c.p, s) || Tainted(c, Home(c, s)))
  {
    if OnCycle(c, h) {
      var path :| IsChain(c, path, h) && Home(c, path[0]) == h;
      s := path[|path| - 1];
      if |path| > 1 {
        var rest := path[..|path| - 1];
        PrependToChain(c, s, rest, Home(c, s));
        assert ([s] + rest)[0] == s;
        assert OnCycle(c, Home(c, s));
      }
    } else {
      var path :| TaintedChain(c, path, h);
      s := path[|path| - 1];
      if |path| > 1 {
        assert TaintedChain(c, path[..|path| - 1], Home(c, s));
      }
    }
  }

  // ---- counting

  ghost predicate AllRootChains(c: CallGraph, h: GraphId, all: set<Chain>) {
    forall path :: path in all <==> RootChain(c, path, h)
  }

  /** There are exactly `k` chains from the root to `h`. */
  ghost predicate CountIs(c: CallGraph, h: GraphId, k: nat) {
    exists all: set<Chain> :: AllRootChains(c, h, all) && |all| == k
  }

  /** Exactly the chains into `h` whose last site is one of `sites`. */
  ghost predicate ChainsVia(c: CallGraph, h: GraphId, sites: set<NodeId>, some: set<Chain>) {
    forall path :: path in some <==> RootChain(c, path, h) && path != [] && path[|path| - 1] in sites
  }

  lemma AppendInjective(all: set<Chain>, s: NodeId)
    ensures |set q | q in all :: q + [s]| == |all|
  {
    if all != {} {
      var q :| q in all;
      AppendInjective(all - {q}, s);
      var rest := set r | r in all - {q} :: r + [s];
      assert (set r | r in all :: r + [s]) == rest + {q + [s]};
      assert q + [s] !in rest by {
        forall r | r in all - {q} ensures r + [s] != q + [s] {
          assert (r + [s])[..|r|] == r && (q + [s])[..|q|] == q;
        }
      }
    }
  }

  /** Adding one caller adds exactly the chains to its graph. */
  lemma ChainsThrough(c: CallGraph, h: GraphId, sites: set<NodeId>, some: set<Chain>, s: NodeId, all: set<Chain>)
      returns (more: set<Chain>)
    requires h != c.p.root && s in Callers(c, h) && s !in sites
    requires ChainsVia(c, h, sites, some) && AllRootChains(c, Home(c, s), all)
    ensures ChainsVia(c, h, sites + {s}, more) && |more| == |some| + |all|
  {
    var added := set q | q in all :: q + [s];
    more := some + added;
    AppendInjective(all, s);
    assert some !! added;
    forall path ensures path in more <==> RootChain(c, path, h) && path != [] && path[|path| - 1] in sites + {s} {
      if path != [] && path[|path| - 1] == s {
        var q := path[..|path| - 1];
        assert path == q + [s];
        assert path in added <==> q in all;
      } else {
        assert path !in added;
      }
    }
  }

  ghost predicate MultOk(c: CallGraph, mult: map<GraphId, Option<nat>>) {
    forall x :: x in mult ==> x in c.seen && Counted(c, x, mult[x])
  }

  /** The answer the analysis must give for `h`. */
  ghost predicate Counted(c: CallGraph, h: GraphId, r: Option<nat>) {
    if r.None? then Tainted(c, h) else !Tainted(c, h) && CountIs(c, h, r.value)
  }

  lemma RootCounted(c: CallGraph)
    ensures Counted(c, c.p.root, Some(1))
  {
    assert AllRootChains(c, c.p.root, {[]});
  }

  class Counter {
    const c: CallGraph
    const callers: map<GraphId, seq<NodeId>>   // call sites per graph, each once
    var mult: map<GraphId, Option<nat>>

    ghost predicate Valid() {
      forall h :: Listed(c, callers, h)
    }

    constructor (c: CallGraph, callers: map<GraphId, seq<NodeId>>)
      requires forall h :: Listed(c, callers, h)
      ensures Valid() && this.c == c && mult == map[]
    {
      this.c, this.callers, mult := c, callers, map[];
    }

    /** How often `h` runs. `stack` holds the graphs being counted; `h` has a chain to each of
        them. The memo table never changes the answer: it depends on `h` alone. */
    method Count(h: GraphId, stack: set<GraphId>) returns (r: Option<nat>)
      requires Valid() && MultOk(c, mult) && h in c.seen && stack <= c.seen && LeadsTo(c, h, stack)
      modifies `mult
      ensures MultOk(c, mult) && Counted(c, h, r)
      decreases c.seen - stack
    {
      assert Listed(c, callers, h);
      hide *;
      if h == c.p.root {
        RootCounted(c);
        return Some(1);
      }
      if h in stack {
        CycleTaints(c, h, stack);
        return None;
      }
      if h in mult {
        MemoHit(c, mult, h);
        return mult[h];
      }
      var sites := ListOf(callers, h);
      var total: Option<nat> := Some(0);
      TallyStart(c, h, sites);
      for i := 0 to |sites|
        invariant MultOk(c, mult) && Tallied(c, h, sites, i, total)
      {
        var s := sites[i];
        SiteIsCaller(c, callers, h, s);
        var sub: Option<nat> := None;
        if Conditional(c.p, s) {
          TaintForward(c, s, h);
        } else {
          StackGrows(c, s, h, stack);
          sub := Count(Home(c, s), stack + {h});
          if sub.None? { SubTaints(c, s, h); }
        }
        TallyNext(c, callers, h, i, total, sub);
        total := if sub.Some? && total.Some? then Some(total.value + sub.value) else None;
      }
      TallyDone(c, callers, h, total);
      MemoStore(c, mult, h, total);
      mult := mult[h := total];
      r := total;
    }
  }

  /** From `h` a chain leads to every graph of `stack`. */
  ghost predicate LeadsTo(c: CallGraph, h: GraphId, stack: set<GraphId>) {
    forall x :: x in stack ==> exists path :: IsChain(c, path, x) && Home(c, path[0]) == h
  }

  /** What the first `i` callers add up to. */
  ghost predicate Tallied(c: CallGraph, h: GraphId, sites: seq<NodeId>, i: nat, total: Option<nat>) {
    if total.None? then Tainted(c, h)
    else i <= |sites| && (forall j :: 0 <= j < i ==> Clean(c, sites[j]))
         && exists some :: ChainsVia(c, h, Elements(sites[..i]), some) && |some| == total.value
  }

  lemma TallyStart(c: CallGraph, h: GraphId, sites: seq<NodeId>)
    ensures Tallied(c, h, sites, 0, Some(0))
  {
    assert Elements(sites[..0]) == {};
    assert ChainsVia(c, h, {}, {});
  }

  lemma TallyNext(c: CallGraph, callers: map<GraphId, seq<NodeId>>, h: GraphId, i: nat, total: Option<nat>, sub: Option<nat>)
    requires h != c.p.root && Listed(c, callers, h) && i < |ListOf(callers, h)|
    requires Tallied(c, h, ListOf(callers, h), i, total)
    requires var s := ListOf(callers, h)[i];
      if sub.None? then Tainted(c, h) else s in c.p.g.node && !Conditional(c.p, s) && Counted(c, Home(c, s), sub)
    ensures Tallied(c, h, ListOf(callers, h), i + 1, if sub.Some? && total.Some? then Some(total.value + sub.value) else None)
  {
    hide Tainted, ChainsVia, AllRootChains, Conditional;
    var sites := ListOf(callers, h);
    if sub.Some? && total.Some? {
      var some :| ChainsVia(c, h, Elements(sites[..i]), some) && |some| == total.value;
      ElementsStep(sites, i);
      SiteIsCaller(c, callers, h, sites[i]);
      var all := CountedChains(c, Home(c, sites[i]), sub);
      var more := ChainsThrough(c, h, Elements(sites[..i]), some, sites[i], all);
    }
  }

  /** All callers clean and all their chains collected: `h` is counted. */
  lemma TallyDone(c: CallGraph, callers: map<GraphId, seq<NodeId>>, h: GraphId, total: Option<nat>)
    requires h != c.p.root && Listed(c, callers, h)
    requires Tallied(c, h, ListOf(callers, h), |ListOf(callers, h)|, total)
    ensures Counted(c, h, total)
  {
    hide Tainted, Conditional;
    var sites := ListOf(callers, h);
    assert sites[..|sites|] == sites;
    if total.Some? {
      var some :| ChainsVia(c, h, Elements(sites), some) && |some| == total.value;
      AllClean(c, h, sites, some, total.value);
    }
  }

  ghost predicate Clean(c: CallGraph, s: NodeId) {
    s in c.p.g.node && !Conditional(c.p, s) && !Tainted(c, Home(c, s))
  }

  lemma SiteIsCaller(c: CallGraph, callers: map<GraphId, seq<NodeId>>, h: GraphId, s: NodeId)
    requires Listed(c, callers, h) && s in ListOf(callers, h)
    ensures s in c.p.g.node && s in Callers(c, h) && Home(c, s) in c.seen
  {
    assert s in Elements(ListOf(callers, h));
  }

  lemma CycleTaints(c: CallGraph, h: GraphId, stack: set<GraphId>)
    requires LeadsTo(c, h, stack) && h in stack
    ensures Counted(c, h, None)
  {
  }

  lemma MemoHit(c: CallGraph, mult: map<GraphId, Option<nat>>, h: GraphId)
    requires MultOk(c, mult) && h in mult
    ensures Counted(c, h, mult[h])
  {
  }

  lemma MemoStore(c: CallGraph, mult: map<GraphId, Option<nat>>, h: GraphId, r: Option<nat>)
    requires MultOk(c, mult) && h in c.seen && Counted(c, h, r)
    ensures MultOk(c, mult[h := r])
  {
  }

  lemma StackGrows(c: CallGraph, s: NodeId, h: GraphId, stack: set<GraphId>)
    requires h != c.p.root && s in Callers(c, h) && LeadsTo(c, h, stack)
    ensures LeadsTo(c, Home(c, s), stack + {h})
  {
    forall x | x in stack + {h} ensures exists path :: IsChain(c, path, x) && Home(c, path[0]) == Home(c, s) {
      if x in stack {
        var path :| IsChain(c, path, x) && Home(c, path[0]) == h;
        PrependToChain(c, s, path, x);
        assert ([s] + path)[0] == s;
      } else {
        assert IsChain(c, [s], h);
      }
    }
  }

  lemma SubTaints(c: CallGraph, s: NodeId, h: GraphId)
    requires h != c.p.root && s in Callers(c, h) && Counted(c, Home(c, s), None)
    ensures Tainted(c, h)
  {
    TaintForward(c, s, h);
  }

  lemma CountedChains(c: CallGraph, h: GraphId, r: Option<nat>) returns (all: set<Chain>)
    requires r.Some? && Counted(c, h, r)
    ensures AllRootChains(c, h, all) && |all| == r.value && !Tainted(c, h)
  {
    all :| AllRootChains(c, h, all) && |all| == r.value;
  }

  /** All callers clean and all their chains collected: `h` is counted. */
  lemma AllClean(c: CallGraph, h: GraphId, sites: seq<NodeId>, some: set<Chain>, k: nat)
    requires h != c.p.root && Elements(sites) == Callers(c, h)
    requires forall j :: 0 <= j < |sites| ==> Clean(c, sites[j])
    requires ChainsVia(c, h, Elements(sites), some) && |some| == k
    ensures Counted(c, h, Some(k))
  {
    assert AllRootChains(c, h, some);
    TaintStep(c, h);
    forall s | s in Callers(c, h) ensures Clean(c, s) {
      assert s in Elements(sites);
    }
  }

  // ---- lists of call sites

  function ListOf(callers: map<GraphId, seq<NodeId>>, h: GraphId): seq<NodeId> {
    if h in callers then callers[h] else []
  }

  function Elements(xs: seq<NodeId>): set<NodeId> { set x | x in xs }

  ghost predicate Distinct(xs: seq<NodeId>) {
    forall i, j :: 0 <= i < j < |xs| ==> xs[i] != xs[j]
  }

  lemma ElementsStep(xs: seq<NodeId>, i: nat)
    requires i < |xs| && Distinct(xs)
    ensures Elements(xs[..i + 1]) == Elements(xs[..i]) + {xs[i]} && xs[i] !in Elements(xs[..i])
  {
    assert xs[..i + 1] == xs[..i] + [xs[i]];
  }

  /** `callers` lists every call site of `h` exactly once. */
  ghost predicate Listed(c: CallGraph, callers: map<GraphId, seq<NodeId>>, h: GraphId) {
    Elements(ListOf(callers, h)) == Callers(c, h) && Distinct(ListOf(callers, h))
  }

  // ---- the worklist

  type Edge = (NodeId, GraphId)

  function EdgesFrom(p: Problem, h: GraphId): set<Edge> {
    set n, t | n in SitesIn(p, h) && t in Targets(p, n) :: (n, t)
  }

  ghost predicate Collected(callers: map<GraphId, seq<NodeId>>, edges: set<Edge>) {
    && (forall t: GraphId, n: NodeId :: n in ListOf(callers, t) <==> (n, t) in edges)
    && (forall t: GraphId :: Distinct(ListOf(callers, t)))
  }

  lemma CollectOne(callers: map<GraphId, seq<NodeId>>, edges: set<Edge>, e: Edge)
    requires Collected(callers, edges) && e !in edges
    ensures Collected(callers[e.1 := ListOf(callers, e.1) + [e.0]], edges + {e})
  {
    var more := callers[e.1 := ListOf(callers, e.1) + [e.0]];
    assert e.0 !in ListOf(callers, e.1);
    forall t: GraphId ensures Distinct(ListOf(more, t)) {
      assert Distinct(ListOf(callers, t));
    }
    forall t: GraphId, n: NodeId ensures n in ListOf(more, t) <==> (n, t) in edges + {e} {
      assert n in ListOf(callers, t) <==> (n, t) in edges;
    }
  }

  /** The edges out of the graphs in `done`. */
  function EdgesOf(p: Problem, done: set<GraphId>): set<Edge> {
    set n, t | n in p.g.node && IsSite(p, n) && p.g.node[n].graph in done && t in Targets(p, n) :: (n, t)
  }

  ghost predicate WithinEveryClosed(p: Problem, seen: set<GraphId>) {
    forall s :: ClosedUnderCalls(CallGraph(p, s)) ==> seen <= s
  }

  /** Records the call sites of graph `h` and notes the graphs they enter. */
  method Scan(p: Problem, h: GraphId, seen: set<GraphId>, callers: map<GraphId, seq<NodeId>>, ghost done: set<GraphId>)
      returns (seen': set<GraphId>, callers': map<GraphId, seq<NodeId>>)
    requires h in seen && h !in done && WithinEveryClosed(p, seen) && Collected(callers, EdgesOf(p, done))
    ensures seen' == seen + Successors(p, h) && WithinEveryClosed(p, seen')
    ensures Collected(callers', EdgesOf(p, done + {h}))
  {
    hide Collected, WithinEveryClosed, Successors, EdgesOf, EdgesFrom;
    seen', callers' := seen, callers;
    var edges := EdgesFrom(p, h);
    ghost var got: set<Edge> := {};
    EdgesDisjoint(p, done, h);
    assert EdgesOf(p, done) + got == EdgesOf(p, done);
    while edges != {}
      invariant got + edges == EdgesFrom(p, h) && got !! edges
      invariant seen' == seen + (set e | e in got :: e.1)
      invariant WithinEveryClosed(p, seen') && Collected(callers', EdgesOf(p, done) + got)
    {
      var e :| e in edges;
      CollectOne(callers', EdgesOf(p, done) + got, e);
      EdgeReaches(p, h, e, seen');
      callers' := callers'[e.1 := ListOf(callers', e.1) + [e.0]];
      edges, got, seen' := edges - {e}, got + {e}, seen' + {e.1};
      assert EdgesOf(p, done) + got == EdgesOf(p, done) + (got - {e}) + {e};
    }
    assert got == EdgesFrom(p, h);
    EdgesSplit(p, done, h);
  }

  lemma EdgesSplit(p: Problem, done: set<GraphId>, h: GraphId)
    ensures EdgesOf(p, done + {h}) == EdgesOf(p, done) + EdgesFrom(p, h)
    ensures Successors(p, h) == set e | e in EdgesFrom(p, h) :: e.1
  {
    forall t | t in Successors(p, h) ensures t in set e | e in EdgesFrom(p, h) :: e.1 {
      var n :| n in SitesIn(p, h) && t in Targets(p, n);
      assert (n, t) in EdgesFrom(p, h);
    }
  }

  /** The graphs the root's execution may enter, with the call sites of each. */
  method Explore(p: Problem) returns (seen: set<GraphId>, callers: map<GraphId, seq<NodeId>>)
    ensures ClosedUnderCalls(CallGraph(p, seen)) && WithinEveryClosed(p, seen)
    ensures forall h :: Listed(CallGraph(p, seen), callers, h)
  {
    hide Collected, WithinEveryClosed, Successors, EdgesOf, Listed, Targets;
    seen, callers := {p.root}, map[];
    var todo := {p.root};
    ghost var universe := Enterable(p);
    NothingScanned(p);
    assert seen - todo == {};
    while todo != {}
      invariant todo <= seen <= universe && p.root in seen
      invariant forall h :: h in seen && h !in todo ==> Successors(p, h) <= seen
      invariant WithinEveryClosed(p, seen) && Collected(callers, EdgesOf(p, seen - todo))
      decreases universe - (seen - todo)
    {
      var h :| h in todo;
      ghost var done := seen - todo;
      var wider;
      SuccessorsEnterable(p, h);
      wider, callers := Scan(p, h, seen, callers, done);
      todo := (todo - {h}) + (wider - seen);
      seen := wider;
      assert seen - todo == done + {h};
    }
    assert seen - todo == seen;
    forall h ensures Listed(CallGraph(p, seen), callers, h) {
      CollectedLists(p, seen, callers, h);
    }
  }

  ghost function Enterable(p: Problem): set<GraphId> {
    {p.root} + set n, t | n in p.g.node && t in Targets(p, n) :: t
  }

  lemma SuccessorsEnterable(p: Problem, h: GraphId)
    ensures Successors(p, h) <= Enterable(p)
  {
  }

  lemma NothingScanned(p: Problem)
    ensures Collected(map[], EdgesOf(p, {})) && WithinEveryClosed(p, {p.root}) && p.root in Enterable(p)
  {
    assert EdgesOf(p, {}) == {};
  }

  lemma CollectedLists(p: Problem, seen: set<GraphId>, callers: map<GraphId, seq<NodeId>>, h: GraphId)
    requires Collected(callers, EdgesOf(p, seen))
    ensures Listed(CallGraph(p, seen), callers, h)
  {
    forall n ensures n in ListOf(callers, h) <==> n in CallersIn(p, seen, h) {
      assert (n, h) in EdgesOf(p, seen) <==> n in CallersIn(p, seen, h);
    }
  }

  lemma EdgesDisjoint(p: Problem, done: set<GraphId>, h: GraphId)
    requires h !in done
    ensures EdgesOf(p, done) !! EdgesFrom(p, h)
  {
  }

  lemma EdgeReaches(p: Problem, h: GraphId, e: Edge, seen: set<GraphId>)
    requires e in EdgesFrom(p, h) && h in seen && WithinEveryClosed(p, seen)
    ensures WithinEveryClosed(p, seen + {e.1})
  {
    forall s | ClosedUnderCalls(CallGraph(p, s)) ensures seen + {e.1} <= s {
      assert seen <= s;
      assert e.1 in Successors(p, h);
    }
  }

  /** Graphs the root's execution enters, with the number of times per execution of the root, or
      None when the graph does not fix it. */
  method Multiplicities(p: Problem) returns (mult: map<GraphId, Option<nat>>)
    ensures ClosedUnderCalls(CallGraph(p, mult.Keys)) && WithinEveryClosed(p, mult.Keys)
    ensures forall h :: h in mult ==> Counted(CallGraph(p, mult.Keys), h, mult[h])
  {
    var seen, callers := Explore(p);
    var c := CallGraph(p, seen);
    var counter := new Counter(c, callers);
    mult := map[];
    var todo := seen;
    hide Counted, Listed, WithinEveryClosed, ClosedUnderCalls, LeadsTo, MultOk;
    MultEmpty(c);
    while todo != {}
      invariant todo <= seen && mult.Keys == seen - todo
      invariant fresh(counter) && counter.Valid() && counter.c == c && MultOk(c, counter.mult)
      invariant forall h :: h in mult ==> Counted(c, h, mult[h])
    {
      var h :| h in todo;
      NothingAbove(c, h);
      var r := counter.Count(h, {});
      mult, todo := mult[h := r], todo - {h};
    }
    assert mult.Keys == seen;
  }

  lemma NothingAbove(c: CallGraph, h: GraphId)
    ensures LeadsTo(c, h, {})
  {
  }

  lemma MultEmpty(c: CallGraph)
    ensures MultOk(c, map[])
  {
  }

  // ---- when the root is called back

  /** Consecutive call sites from the root to `h`, the root allowed to recur. */
  ghost predicate AnyChain(c: CallGraph, path: Chain, h: GraphId)
    decreases |path|
  {
    if path == [] then h == c.p.root
    else path[|path| - 1] in Callers(c, h) && AnyChain(c, path[..|path| - 1], Home(c, path[|path| - 1]))
  }

  /** If nothing calls the root, the chains counted are all the call-site paths there are. */
  lemma {:induction false} RootNeverCalled(c: CallGraph, path: Chain, h: GraphId)
    requires Callers(c, c.p.root) == {}
    ensures RootChain(c, path, h) <==> AnyChain(c, path, h)
    decreases |path|
  {
    if path != [] { RootNeverCalled(c, path[..|path| - 1], Home(c, path[|path| - 1])); }
  }

  lemma {:induction false} JoinChains(c: CallGraph, q: Chain, path: Chain, h: GraphId)
    requires AnyChain(c, q, c.p.root) && AnyChain(c, path, h)
    ensures AnyChain(c, q + path, h)
    decreases |path|
  {
    if path == [] {
      assert q + path == q;
    } else {
      JoinChains(c, q, path[..|path| - 1], Home(c, path[|path| - 1]));
      assert (q + path)[..|q + path| - 1] == q + path[..|path| - 1];
    }
  }

  /** The graphs found from the root, no more and no fewer. */
  ghost predicate Explored(c: CallGraph) {
    ClosedUnderCalls(c) && WithinEveryClosed(c.p, c.seen)
  }

  ghost predicate ReachedFromRoot(c: CallGraph, h: GraphId) {
    exists path :: AnyChain(c, path, h)
  }

  lemma ReachedOn(c: CallGraph, h: GraphId, n: NodeId, t: GraphId)
    requires ReachedFromRoot(c, h) && h in c.seen && n in SitesIn(c.p, h) && t in Targets(c.p, n)
    ensures ReachedFromRoot(c, t)
  {
    hide Targets;
    var path :| AnyChain(c, path, h);
    assert (path + [n])[..|path|] == path;
    assert AnyChain(c, path + [n], t);
  }

  lemma AllReached(c: CallGraph, h: GraphId)
    requires Explored(c) && h in c.seen
    ensures ReachedFromRoot(c, h)
  {
    hide Targets, ReachedFromRoot;
    var reached := set g | g in c.seen && ReachedFromRoot(c, g);
    RootReached(c);
    forall g | g in reached ensures Successors(c.p, g) <= reached {
      forall t | t in Successors(c.p, g) ensures t in reached {
        var n :| n in SitesIn(c.p, g) && t in Targets(c.p, n);
        ReachedOn(c, g, n, t);
      }
    }
    assert ClosedUnderCalls(CallGraph(c.p, reached));
  }

  lemma RootReached(c: CallGraph)
    ensures ReachedFromRoot(c, c.p.root)
  {
    assert AnyChain(c, [], c.p.root);
  }

  /** A caller of the root closes a cycle through it. */
  lemma RootCycle(c: CallGraph) returns (cycle: Chain)
    requires Explored(c) && Callers(c, c.p.root) != {}
    ensures AnyChain(c, cycle, c.p.root) && cycle != []
  {
    hide Targets, Explored;
    var s :| s in Callers(c, c.p.root);
    AllReached(c, Home(c, s));
    var path :| AnyChain(c, path, Home(c, s));
    cycle := path + [s];
    assert cycle[..|path|] == path;
  }

  /** The chains counted are all the call-site paths there are, exactly when nothing calls the root. */
  lemma CountsAllPaths(c: CallGraph)
    requires Explored(c)
    ensures Callers(c, c.p.root) == {} <==> forall path, h :: RootChain(c, path, h) <==> AnyChain(c, path, h)
  {
    hide Explored, AnyChain;
    if Callers(c, c.p.root) == {} {
      forall path, h ensures RootChain(c, path, h) <==> AnyChain(c, path, h) { RootNeverCalled(c, path, h); }
    } else {
      var cycle := RootCycle(c);
      assert !RootChain(c, cycle, c.p.root);
    }
  }

  /** If something calls the root, there are arbitrarily long paths into every graph found, so no
      count is their number. */
  lemma {:induction false} RootCalledBack(c: CallGraph, h: GraphId, k: nat) returns (longer: Chain)
    requires Explored(c) && h in c.seen && Callers(c, c.p.root) != {}
    ensures AnyChain(c, longer, h) && |longer| >= k
  {
    hide Explored, AnyChain;
    if k == 0 {
      AllReached(c, h);
      longer :| AnyChain(c, longer, h);
    } else {
      longer := RootCalledBack(c, h, k - 1);
      var cycle := RootCycle(c);
      JoinChains(c, cycle, longer, h);
      longer := cycle + longer;
    }
  }
}
