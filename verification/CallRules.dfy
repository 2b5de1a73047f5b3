/** What the call structure and the counts are, from the graph and the closure table alone. */
module CallRules {
  import opened Wrappers
  import opened FlowGraph
  import opened ClosureSpec
  import opened Demand
  import opened DemandRules
  import opened Reachable

  function GraphAt(p: Problem, s: NodeId): GraphId {
    if s in p.g.node then p.g.node[s].graph else 0
  }

  /** Graph `h` is entered by at most `r` calls from the root. */
  ghost predicate EnteredBy(p: Problem, r: nat, h: GraphId) {
    if r == 0 then h == p.root
    else EnteredBy(p, r - 1, h) || exists s :: MayEnter(p, s, h) && EnteredBy(p, r - 1, GraphAt(p, s))
  }

  /** The value of `s` is an arm, the selector or a control input of some JOIN. */
  ghost predicate IntoJoin(p: Problem, s: NodeId) {
    exists j :: j in p.g.node && p.g.node[j].kind.Join?
      && (s in p.g.node[j].withs || s in p.g.node[j].norms || s in p.g.node[j].ctrls)
  }

  ghost predicate OneTarget(p: Problem, s: NodeId) {
    exists h :: MayEnter(p, s, h) && forall h' :: MayEnter(p, s, h') ==> h' == h
  }

  /** How often `s` runs per activation is not fixed by the graph, as far as the analysis tests it. */
  ghost predicate Loose(p: Problem, s: NodeId) {
    IntoJoin(p, s) || !OneTarget(p, s)
  }

  /** Call site `s`, in a graph the step may enter, may enter `h`, which is not the root. */
  ghost predicate Leads(c: CallGraph, s: NodeId, h: GraphId) {
    GraphAt(c.p, s) in c.seen && MayEnter(c.p, s, h) && h != c.p.root
  }

  /** Call sites, each in a graph the one before it may enter, the last entering `h`. */
  ghost predicate ChainTo(c: CallGraph, path: Chain, h: GraphId) {
    && path != [] && Leads(c, path[|path| - 1], h)
    && forall i :: 0 < i < |path| ==> Leads(c, path[i - 1], GraphAt(c.p, path[i]))
  }

  ghost predicate Recurs(c: CallGraph, h: GraphId) {
    exists path :: ChainTo(c, path, h) && GraphAt(c.p, path[0]) == h
  }

  /** A count must be withheld: a chain into `h` comes from a loose site, or from a recursion. */
  ghost predicate Withheld(c: CallGraph, h: GraphId) {
    Recurs(c, h) || exists path :: ChainTo(c, path, h) && (Loose(c.p, path[0]) || Recurs(c, GraphAt(c.p, path[0])))
  }

  ghost predicate ChainFromRoot(c: CallGraph, path: Chain, h: GraphId) {
    if h == c.p.root then path == [] else ChainTo(c, path, h) && GraphAt(c.p, path[0]) == c.p.root
  }

  // ---- the functions the counting uses

  lemma CallerIs(c: CallGraph, s: NodeId, h: GraphId)
    ensures s in Callers(c, h) <==> GraphAt(c.p, s) in c.seen && MayEnter(c.p, s, h)
  {
    hide Targets, MayEnter;
    if s in c.p.g.node {
      EnterIs(c.p, s, h);
      if h in Targets(c.p, s) { SiteEnters(c.p, s, h); }
    } else {
      OutsideNever(c.p, s, h);
    }
  }

  lemma OutsideNever(p: Problem, s: NodeId, h: GraphId)
    requires s !in p.g.node
    ensures !MayEnter(p, s, h)
  {
  }

  lemma SiteEnters(p: Problem, s: NodeId, h: GraphId)
    requires s in p.g.node && h in Targets(p, s)
    ensures IsSite(p, s)
  {
  }

  lemma ConditionalIs(p: Problem, s: NodeId)
    requires s in p.g.node
    ensures Conditional(p, s) <==> Loose(p, s)
  {
    hide Targets, MayEnter;
    forall h ensures h in Targets(p, s) <==> MayEnter(p, s, h) { EnterIs(p, s, h); }
    FeedsIs(p, s);
    if |Targets(p, s)| == 1 {
      var h :| h in Targets(p, s);
      assert Targets(p, s) - {h} == {} by { assert |Targets(p, s) - {h}| == 0; }
      assert MayEnter(p, s, h);
      forall h' | MayEnter(p, s, h') ensures h' == h { assert h' !in Targets(p, s) - {h}; }
    }
    if h: GraphId :| MayEnter(p, s, h) && forall h' :: MayEnter(p, s, h') ==> h' == h {
      assert forall x: GraphId :: x in Targets(p, s) <==> x == h;
      assert Targets(p, s) == {h};
    }
  }

  lemma FeedsIs(p: Problem, s: NodeId)
    ensures FeedsJoin(p, s) <==> IntoJoin(p, s)
  {
    if j :| j in p.g.node && p.g.node[j].kind.Join? && s in p.g.node[j].withs + p.g.node[j].norms + p.g.node[j].ctrls {
      assert IntoJoin(p, s);
    }
    if j :| j in p.g.node && p.g.node[j].kind.Join?
            && (s in p.g.node[j].withs || s in p.g.node[j].norms || s in p.g.node[j].ctrls) {
      assert s in p.g.node[j].withs + p.g.node[j].norms + p.g.node[j].ctrls;
    }
  }

  lemma HomeIs(c: CallGraph, s: NodeId)
    ensures Home(c, s) == GraphAt(c.p, s)
  {
  }

  lemma {:induction false} ChainIs(c: CallGraph, path: Chain, h: GraphId)
    ensures IsChain(c, path, h) <==> ChainTo(c, path, h)
    decreases |path|
  {
    hide MayEnter, Callers, GraphAt, Home;
    if path != [] {
      var k := |path| - 1;
      CallerIs(c, path[k], h);
      HomeIs(c, path[k]);
      if k > 0 {
        var front, home := path[..k], GraphAt(c.p, path[k]);
        ChainIs(c, front, home);
        if ChainTo(c, front, home) {
          forall i | 0 < i < |path| ensures Leads(c, path[i - 1], GraphAt(c.p, path[i])) {
            if i < k { assert front[i - 1] == path[i - 1] && front[i] == path[i]; } else { assert front[k - 1] == path[k - 1]; }
          }
        }
        if ChainTo(c, path, h) {
          assert Leads(c, path[k - 1], GraphAt(c.p, path[k]));
          forall i | 0 < i < |front| ensures Leads(c, front[i - 1], GraphAt(c.p, front[i])) {
            assert Leads(c, path[i - 1], GraphAt(c.p, path[i]));
          }
        }
      }
    }
  }

  lemma CycleIs(c: CallGraph, h: GraphId)
    ensures OnCycle(c, h) <==> Recurs(c, h)
  {
    hide IsChain, ChainTo, Home, GraphAt;
    forall path ensures (IsChain(c, path, h) <==> ChainTo(c, path, h)) && (ChainTo(c, path, h) ==> path != []) {
      ChainIs(c, path, h);
      if ChainTo(c, path, h) { NotEmpty(c, path, h); }
    }
    forall s ensures Home(c, s) == GraphAt(c.p, s) { HomeIs(c, s); }
  }

  lemma ChainFirst(c: CallGraph, path: Chain, h: GraphId)
    requires ChainTo(c, path, h)
    ensures path[0] in c.p.g.node
  {
    hide MayEnter;
    var next := if |path| == 1 then h else GraphAt(c.p, path[1]);
    assert Leads(c, path[0], next);
    if path[0] !in c.p.g.node { OutsideNever(c.p, path[0], next); }
  }

  lemma TaintIs(c: CallGraph, h: GraphId)
    ensures Tainted(c, h) <==> Withheld(c, h)
  {
    hide IsChain, ChainTo, OnCycle, Recurs, Conditional, Loose;
    CycleIs(c, h);
    forall path ensures TaintedChain(c, path, h) <==>
      ChainTo(c, path, h) && path != [] && (Loose(c.p, path[0]) || Recurs(c, GraphAt(c.p, path[0])))
    {
      ChainIs(c, path, h);
      if ChainTo(c, path, h) {
        assert path != [] by { NotEmpty(c, path, h); }
        ChainFirst(c, path, h);
        ConditionalIs(c.p, path[0]);
        CycleIs(c, GraphAt(c.p, path[0]));
        HomeIs(c, path[0]);
      }
    }
    forall path | ChainTo(c, path, h) ensures path != [] { NotEmpty(c, path, h); }
  }

  lemma NotEmpty(c: CallGraph, path: Chain, h: GraphId)
    requires ChainTo(c, path, h)
    ensures path != []
  {
  }

  lemma {:induction false} RootChainIs(c: CallGraph, path: Chain, h: GraphId)
    ensures RootChain(c, path, h) <==> ChainFromRoot(c, path, h)
    decreases |path|
  {
    hide MayEnter, Callers, GraphAt, Home;
    if h != c.p.root && path != [] {
      var k := |path| - 1;
      var front, home := path[..k], GraphAt(c.p, path[k]);
      CallerIs(c, path[k], h);
      HomeIs(c, path[k]);
      RootChainIs(c, front, home);
      if ChainFromRoot(c, path, h) {
        if k > 0 {
          assert Leads(c, path[k - 1], GraphAt(c.p, path[k]));
          forall i | 0 < i < |front| ensures Leads(c, front[i - 1], GraphAt(c.p, front[i])) {
            assert Leads(c, path[i - 1], GraphAt(c.p, path[i]));
          }
        }
      }
      if RootChain(c, path, h) && k > 0 {
        forall i | 0 < i < |path| ensures Leads(c, path[i - 1], GraphAt(c.p, path[i])) {
          if i < k { assert Leads(c, front[i - 1], GraphAt(c.p, front[i])); } else { assert Leads(c, front[k - 1], home); }
        }
      }
    }
  }

  // ---- what is counted

  /** The answer for a graph: none exactly when a chain into it comes from a site that feeds a JOIN, has
      other than one target, or lies on a recursion; otherwise the number of chains from the root. */
  lemma CountMeans(c: CallGraph, h: GraphId, r: Option<nat>)
    requires Counted(c, h, r)
    ensures r.None? <==> Withheld(c, h)
    ensures r.Some? ==> exists all: set<Chain> :: |all| == r.value && forall path :: path in all <==> ChainFromRoot(c, path, h)
  {
    hide Tainted, Withheld, RootChain, ChainFromRoot;
    TaintIs(c, h);
    if r.Some? {
      var all := CountedChains(c, h, r);
      forall path ensures path in all <==> ChainFromRoot(c, path, h) { RootChainIs(c, path, h); }
    }
  }

  /** In particular, one caller whose value is an arm of a JOIN is enough. */
  lemma CallerInArm(c: CallGraph, h: GraphId, r: Option<nat>, s: NodeId, j: NodeId)
    requires Counted(c, h, r) && Leads(c, s, h)
    requires j in c.p.g.node && c.p.g.node[j].kind.Join? && (s in c.p.g.node[j].withs || s in c.p.g.node[j].norms)
    ensures r.None?
  {
    hide Leads, Counted;
    CountMeans(c, h, r);
    assert ChainTo(c, [s], h) && Loose(c.p, [s][0]);
  }

  /** Which graphs are counted at all: those entered by finitely many calls from the root. */
  lemma SeenExact(c: CallGraph, h: GraphId)
    requires Explored(c)
    ensures h in c.seen <==> exists r :: EnteredBy(c.p, r, h)
  {
    hide EnteredBy, MayEnter;
    if r: nat :| EnteredBy(c.p, r, h) { EnteredSeen(c, r, h); }
    if h in c.seen {
      var reached := set x | x in c.seen && exists r :: EnteredBy(c.p, r, x);
      assert c.p.root in reached by { RootEntered(c.p); }
      forall x, t | x in reached && t in Successors(c.p, x) ensures t in reached { SuccessorEntered(c, x, t); }
      assert ClosedUnderCalls(CallGraph(c.p, reached));
    }
  }

  lemma RootEntered(p: Problem)
    ensures EnteredBy(p, 0, p.root)
  {
  }

  lemma SuccessorEntered(c: CallGraph, x: GraphId, t: GraphId)
    requires Explored(c) && x in c.seen && t in Successors(c.p, x) && exists r :: EnteredBy(c.p, r, x)
    ensures t in c.seen && exists r :: EnteredBy(c.p, r, t)
  {
    hide Targets, MayEnter;
    var r: nat :| EnteredBy(c.p, r, x);
    var s :| s in SitesIn(c.p, x) && t in Targets(c.p, s);
    EnterIs(c.p, s, t);
    assert GraphAt(c.p, s) == x;
    assert EnteredBy(c.p, r + 1, t);
  }

  lemma {:induction false} EnteredSeen(c: CallGraph, r: nat, h: GraphId)
    requires Explored(c) && EnteredBy(c.p, r, h)
    ensures h in c.seen
  {
    hide Targets, MayEnter;
    if r > 0 {
      if EnteredBy(c.p, r - 1, h) {
        EnteredSeen(c, r - 1, h);
      } else {
        var s :| MayEnter(c.p, s, h) && EnteredBy(c.p, r - 1, GraphAt(c.p, s));
        EnteredSeen(c, r - 1, GraphAt(c.p, s));
        if s !in c.p.g.node { OutsideNever(c.p, s, h); }
        EnterIs(c.p, s, h);
        SiteEnters(c.p, s, h);
        assert s in SitesIn(c.p, GraphAt(c.p, s)) && h in Successors(c.p, GraphAt(c.p, s));
      }
    }
  }
}
