/** The demand fixpoint: passes over all results and all nodes until nothing changes. It
    terminates and leaves the least closed demand assignment, whatever order nodes are visited in.
    A node without an entry and a node with an empty entry are the same thing to every reader. */
module DemandFixpoint {
  import opened Wrappers
  import opened FlowGraph
  import opened ClosureSpec
  import opened Demand

  function AllWants(g: Graph): Wants {
    {All} + set n | n in g.node && g.node[n].kind.Accs? :: Slot(g.node[n].kind.key)
  }

  ghost predicate Bounded(p: Problem, d: DemandMap) {
    d.Keys <= p.g.node.Keys && forall n :: n in d ==> d[n] <= AllWants(p.g)
  }

  ghost predicate Sane(p: Problem, d: DemandMap) {
    Bounded(p, d) && forall e :: Closed(p, e) ==> Under(d, e)
  }

  function Facts(d: DemandMap): set<(NodeId, Want)> {
    set n, w | n in d && w in d[n] :: (n, w)
  }

  function AllFacts(p: Problem): set<(NodeId, Want)> {
    set n, w | n in p.g.node && w in AllWants(p.g) :: (n, w)
  }

  ghost predicate Grown(d: DemandMap, d': DemandMap) {
    d == d' || Facts(d) < Facts(d')
  }

  /** `d` after demanding `keys` of `n`. */
  function Added(d: DemandMap, n: NodeId, keys: Wants): DemandMap {
    if Leq(keys, On(d, n)) then d
    else d[n := On(d, n) + if All in keys then {All} else keys]
  }

  lemma AddedGrows(d: DemandMap, n: NodeId, keys: Wants)
    ensures Grown(d, Added(d, n, keys))
    ensures Added(d, n, keys) == d <==> Leq(keys, On(d, n))
  {
    if !Leq(keys, On(d, n)) {
      var w :| w in Added(d, n, keys)[n] && w !in On(d, n);
      assert (n, w) in Facts(Added(d, n, keys)) && (n, w) !in Facts(d);
    }
  }

  /** Demanding what a rule asks for keeps the bounds and stays under every closed assignment. */
  lemma AddedSane(p: Problem, d: DemandMap, n: NodeId, keys: Wants)
    requires Sane(p, d) && n in p.g.node && keys <= AllWants(p.g)
    requires forall e :: Closed(p, e) ==> Leq(keys, On(e, n))
    ensures Sane(p, Added(d, n, keys))
  {
    forall e | Closed(p, e) ensures Under(Added(d, n, keys), e) {
      assert Under(d, e);
      assert Leq(On(d, n), On(e, n));
    }
  }

  lemma AmountBounded(p: Problem, d: DemandMap, c: NodeId, j: nat)
    requires Valid(p) && Bounded(p, d) && c in p.g.node && j < |Inputs(p, c)|
    ensures Amount(p, d, c, j) <= AllWants(p.g) && Inputs(p, c)[j] in p.g.node
  {
    assert NodeOk(p.g, c);
    assert forall n :: On(d, n) <= AllWants(p.g);
    assert forall k :: PortDemand(p, d, k) <= AllWants(p.g);
  }

  lemma PushSane(p: Problem, d: DemandMap, c: NodeId, j: nat)
    requires Valid(p) && Sane(p, d) && c in p.g.node && j < |Inputs(p, c)| && On(d, c) != {}
    ensures Sane(p, Added(d, Inputs(p, c)[j], Amount(p, d, c, j)))
  {
    AmountBounded(p, d, c, j);
    forall e | Closed(p, e) ensures Leq(Amount(p, d, c, j), On(e, Inputs(p, c)[j])) {
      assert Under(d, e);
      AmountMonotone(p, d, e, c, j);
      assert On(e, c) != {} by { assert Leq(On(d, c), On(e, c)); }
      assert PushClosed(p, e, c);
    }
    AddedSane(p, d, Inputs(p, c)[j], Amount(p, d, c, j));
  }

  lemma ExitSane(p: Problem, d: DemandMap, h: GraphId, s: NodeId)
    requires Valid(p) && Sane(p, d) && h in p.g.exitSrc && s in Sites(p, h)
    ensures Sane(p, Added(d, p.g.exitSrc[h], On(d, s)))
  {
    forall e | Closed(p, e) ensures Leq(On(d, s), On(e, p.g.exitSrc[h])) {
      assert Under(d, e);
      assert ExitClosed(p, e, h);
    }
    AddedSane(p, d, p.g.exitSrc[h], On(d, s));
  }

  lemma RootSane(p: Problem, d: DemandMap)
    requires Valid(p) && Sane(p, d) && p.root in p.g.exitSrc
    ensures Sane(p, Added(d, p.g.exitSrc[p.root], {All}))
  {
    forall e | Closed(p, e) ensures Leq({All}, On(e, p.g.exitSrc[p.root])) {
      assert ExitClosed(p, e, p.root);
    }
    AddedSane(p, d, p.g.exitSrc[p.root], {All});
  }

  lemma FactsInside(p: Problem, d: DemandMap)
    requires Bounded(p, d)
    ensures Facts(d) <= AllFacts(p)
  {
  }

  class Analyser {
    const p: Problem
    var demand: DemandMap
    var changed: bool

    constructor (p: Problem)
      requires Valid(p)
      ensures this.p == p && LeastClosed(p, demand)
    {
      this.p := p;
      demand, changed := map[], true;
      new;
      Fixpoint();
    }

    method Add(n: NodeId, keys: Wants)
      modifies `demand, `changed
      ensures demand == Added(old(demand), n, keys)
      ensures changed == (old(changed) || demand != old(demand))
      ensures Grown(old(demand), demand)
      ensures demand == old(demand) <==> Leq(keys, On(old(demand), n))
    {
      AddedGrows(demand, n, keys);
      var cur := On(demand, n);
      if All in cur { return; }
      var added := if All in keys then {All} else keys - cur;
      if added != {} {
        assert cur + added == cur + if All in keys then {All} else keys;
        demand := demand[n := cur + added];
        changed := true;
      }
    }

    /** Propagates the demand on node `c` to the values it reads. */
    method Push(c: NodeId)
      requires Valid(p) && Sane(p, demand) && c in p.g.node
      modifies `demand, `changed
      ensures Sane(p, demand) && Grown(old(demand), demand)
      ensures changed == (old(changed) || demand != old(demand))
      ensures demand == old(demand) ==> PushClosed(p, demand, c)
    {
      hide Sane, Closed, Amount, Inputs, Facts;
      if On(demand, c) == {} { return; }
      var inputs := Inputs(p, c);
      for j := 0 to |inputs|
        invariant Sane(p, demand) && Grown(old(demand), demand) && On(demand, c) != {}
        invariant changed == (old(changed) || demand != old(demand))
        invariant demand == old(demand) ==>
          forall i :: 0 <= i < j ==> Leq(Amount(p, demand, c, i), On(demand, inputs[i]))
      {
        PushSane(p, demand, c, j);
        Add(inputs[j], Amount(p, demand, c, j));
      }
    }

    /** Propagates the demand on the call sites of `h` to the value it returns. */
    method PushExit(h: GraphId)
      requires Valid(p) && Sane(p, demand) && h in p.g.exitSrc
      modifies `demand, `changed
      ensures Sane(p, demand) && Grown(old(demand), demand)
      ensures changed == (old(changed) || demand != old(demand))
      ensures demand == old(demand) ==> ExitClosed(p, demand, h)
    {
      hide Sane, Closed, Facts, Sites;
      var src := p.g.exitSrc[h];
      if h == p.root {
        RootSane(p, demand);
        Add(src, {All});
      }
      var todo := Sites(p, h);
      while todo != {}
        invariant todo <= Sites(p, h)
        invariant Sane(p, demand) && Grown(old(demand), demand)
        invariant changed == (old(changed) || demand != old(demand))
        invariant demand == old(demand) && h == p.root ==> All in On(demand, src)
        invariant demand == old(demand) ==>
          forall s :: s in Sites(p, h) && s !in todo ==> Leq(On(demand, s), On(demand, src))
      {
        var s :| s in todo;
        todo := todo - {s};
        ExitSane(p, demand, h, s);
        Add(src, On(demand, s));
      }
    }

    method Pass()
      requires Valid(p) && Sane(p, demand)
      modifies `demand, `changed
      ensures Sane(p, demand) && Grown(old(demand), demand)
      ensures changed == (demand != old(demand))
      ensures !changed ==> Closed(p, demand)
    {
      hide Sane, ExitClosed, PushClosed, Facts;
      changed := false;
      var exits := p.g.exitSrc.Keys;
      while exits != {}
        invariant exits <= p.g.exitSrc.Keys
        invariant Sane(p, demand) && Grown(old(demand), demand)
        invariant changed == (demand != old(demand))
        invariant demand == old(demand) ==> forall h :: h in p.g.exitSrc && h !in exits ==> ExitClosed(p, demand, h)
      {
        var h :| h in exits;
        exits := exits - {h};
        PushExit(h);
      }
      var nodes := p.g.node.Keys;
      while nodes != {}
        invariant nodes <= p.g.node.Keys
        invariant Sane(p, demand) && Grown(old(demand), demand)
        invariant changed == (demand != old(demand))
        invariant demand == old(demand) ==> forall h :: h in p.g.exitSrc ==> ExitClosed(p, demand, h)
        invariant demand == old(demand) ==> forall c :: c in p.g.node && c !in nodes ==> PushClosed(p, demand, c)
      {
        var c :| c in nodes;
        nodes := nodes - {c};
        Push(c);
      }
    }

    method Fixpoint()
      requires Valid(p) && demand == map[] && changed
      modifies `demand, `changed
      ensures LeastClosed(p, demand)
    {
      while changed
        invariant Sane(p, demand)
        invariant !changed ==> Closed(p, demand)
        decreases changed, AllFacts(p) - Facts(demand)
      {
        ghost var before := demand;
        Pass();
        FactsInside(p, before);
        FactsInside(p, demand);
      }
    }
  }
}
