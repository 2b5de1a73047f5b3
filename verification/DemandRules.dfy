/** What is demanded, from the graph and the closure table alone: rules for what a demand on a node asks
    of the nodes it reads, each with finitely many uses of them behind it, starting at the root's
    result. The computed demand is exactly what the rules give. */
module DemandRules {
  import opened Wrappers
  import opened FlowGraph
  import opened ClosureSpec
  import opened ClosureRules
  import opened Demand
  import opened DemandFixpoint

  /** Which demands are made where. */
  type Asking = (NodeId, Want) -> bool

  /** The table lists graph `h` for CALL `c`. */
  predicate Lists(p: Problem, c: NodeId, h: GraphId) {
    c in p.g.node && p.g.node[c].kind.Call? && p.g.node[c].withs != [] && h in Look(p.memo, (p.g.node[c].withs[0], []))
  }

  ghost predicate Unresolved(p: Problem, c: NodeId) {
    c in p.g.node && p.g.node[c].kind.Call? && forall h :: !Lists(p, c, h)
  }

  /** Call site `s` may enter graph `h`; an unresolved CALL may enter whatever has a closure. */
  ghost predicate MayEnter(p: Problem, s: NodeId, h: GraphId) {
    && s in p.g.node
    && (p.g.node[s].kind == Func(Some(h)) || Lists(p, s, h) || (Unresolved(p, s) && exists n :: Makes(p.g, n, h)))
  }

  /** A call of graph `h` asks of the argument for parameter (`kind`, `index`) what the parameter is
      asked, and all of it if there is no such parameter. */
  ghost predicate ParameterAsks(p: Problem, asks: Asking, h: GraphId, kind: PortKind, index: nat, w: Want) {
    var k := PortKey(h, kind, index);
    if k in p.g.port then asks(p.g.port[k], w) else w == All
  }

  /** A demand on node `c` asks `w` of its input `a`. */
  ghost predicate Passed(p: Problem, asks: Asking, c: NodeId, a: NodeId, w: Want)
    requires c in p.g.node
  {
    var node := p.g.node[c];
    match node.kind
    case Accs(k) => node.norms != [] && a == node.norms[0] && w == Slot(k)
    case Fill(_) =>
      exists j: nat :: j < |node.withs| && a == node.withs[j] && FilledAsks(p, asks, c, j, w)
    case Func(t) =>
      exists kind, j: nat :: Passes(p.g, c, kind, j, a) && if t.Some? then ParameterAsks(p, asks, t.value, kind, j, w) else w == All
    case Call =>
      || (node.withs != [] && a == node.withs[0] && w == All)
      || (exists kind, j: nat :: Passes(p.g, c, kind, j, a) && CallAsks(p, asks, c, kind, j, w))
    case Join => (a in node.withs && asks(c, w)) || (a in node.norms && w == All)
    case Gate => a in node.withs + node.norms && asks(c, w)
    case _ => a in node.withs + node.norms && w == All
  }

  ghost predicate CallAsks(p: Problem, asks: Asking, c: NodeId, kind: PortKind, j: nat, w: Want) {
    if Unresolved(p, c) then w == All else exists h :: Lists(p, c, h) && ParameterAsks(p, asks, h, kind, j, w)
  }

  /** What a FILL asks of its `j`-th WITH input: a closure, what its `j`-th capture is asked; a record,
      everything if slot `j` is read. */
  ghost predicate FilledAsks(p: Problem, asks: Asking, c: NodeId, j: nat, w: Want)
    requires c in p.g.node
  {
    if exists t :: Makes(p.g, c, t) then
      exists t :: Makes(p.g, c, t)
        && if |CPorts(p.g, t)| == |p.g.node[c].withs| && j < |CPorts(p.g, t)| then asks(CPorts(p.g, t)[j], w) else w == All
    else
      w == All
      && ((forall keys :: !Keyed(p.g, c, keys)) || asks(c, All) || asks(c, Slot(Index(j)))
          || exists keys :: Keyed(p.g, c, keys) && j < |keys| && asks(c, Slot(keys[j])))
  }

  /** `w` is asked of node `n`: by the root's result, by a call of the graph it is the result of, or by
      a demanded node that reads it. */
  ghost predicate Rule(p: Problem, asks: Asking, n: NodeId, w: Want) {
    || (p.root in p.g.exitSrc && n == p.g.exitSrc[p.root] && w == All)
    || (exists s, h :: MayEnter(p, s, h) && h in p.g.exitSrc && n == p.g.exitSrc[h] && asks(s, w))
    || (exists c, v :: c in p.g.node && asks(c, v) && Passed(p, asks, c, n, w))
  }

  /** By at most `r` rounds of rules. */
  ghost predicate Asked(p: Problem, r: nat, n: NodeId, w: Want)
    decreases r, 0
  {
    r > 0 && Rule(p, AskedIn(p, r - 1), n, w)
  }

  ghost function AskedIn(p: Problem, r: nat): Asking
    decreases r, 1
  {
    (n: NodeId, w: Want) => Asked(p, r, n, w)
  }

  ghost predicate EverAsked(p: Problem, n: NodeId, w: Want) {
    exists r :: Asked(p, r, n, w)
  }

  ghost function Ever(p: Problem): Asking {
    (n: NodeId, w: Want) => EverAsked(p, n, w)
  }

  ghost predicate Implies(a: Asking, b: Asking) {
    forall n, w :: a(n, w) ==> b(n, w)
  }

  // ---- more demand asks for more

  lemma PassedMonotone(p: Problem, a: Asking, b: Asking, c: NodeId, n: NodeId, w: Want)
    requires Implies(a, b) && c in p.g.node && Passed(p, a, c, n, w)
    ensures Passed(p, b, c, n, w)
  {
    hide Unresolved, Keyed, Makes;
    forall h, kind, j: nat | ParameterAsks(p, a, h, kind, j, w) ensures ParameterAsks(p, b, h, kind, j, w) {}
    match p.g.node[c].kind
    case Fill(_) =>
      var j: nat :| j < |p.g.node[c].withs| && n == p.g.node[c].withs[j] && FilledAsks(p, a, c, j, w);
      assert FilledAsks(p, b, c, j, w);
    case Call =>
      if kind, j: nat :| Passes(p.g, c, kind, j, n) && CallAsks(p, a, c, kind, j, w) { assert CallAsks(p, b, c, kind, j, w); }
    case _ =>
  }

  lemma RuleMonotone(p: Problem, a: Asking, b: Asking, n: NodeId, w: Want)
    requires Implies(a, b) && Rule(p, a, n, w)
    ensures Rule(p, b, n, w)
  {
    hide Passed, MayEnter;
    if c, v :| c in p.g.node && a(c, v) && Passed(p, a, c, n, w) { PassedMonotone(p, a, b, c, n, w); }
  }

  lemma {:induction false} AskedLonger(p: Problem, r: nat, n: NodeId, w: Want)
    requires Asked(p, r, n, w)
    ensures Asked(p, r + 1, n, w)
  {
    hide Rule;
    forall x, v | AskedIn(p, r - 1)(x, v) ensures AskedIn(p, r)(x, v) { AskedLonger(p, r - 1, x, v); }
    RuleMonotone(p, AskedIn(p, r - 1), AskedIn(p, r), n, w);
  }

  lemma {:induction false} AskedMore(p: Problem, r: nat, r': nat, n: NodeId, w: Want)
    requires r <= r' && Asked(p, r, n, w)
    ensures Asked(p, r', n, w)
    decreases r'
  {
    hide Rule;
    if r < r' {
      AskedMore(p, r, r' - 1, n, w);
      AskedLonger(p, r' - 1, n, w);
    }
  }

  lemma AskedUpTo(p: Problem, r: nat, r': nat)
    requires r <= r'
    ensures Implies(AskedIn(p, r), AskedIn(p, r'))
  {
    hide Rule;
    forall n, w | AskedIn(p, r)(n, w) ensures AskedIn(p, r')(n, w) { AskedMore(p, r, r', n, w); }
  }

  // ---- finitely many uses of the rules

  lemma FilledFinitely(p: Problem, c: NodeId, j: nat, w: Want) returns (r: nat)
    requires c in p.g.node && FilledAsks(p, Ever(p), c, j, w)
    ensures FilledAsks(p, AskedIn(p, r), c, j, w)
  {
    hide Asked, Makes, Keyed;
    r := 0;
    if t0 :| Makes(p.g, c, t0) {
      var t :| Makes(p.g, c, t)
        && if |CPorts(p.g, t)| == |p.g.node[c].withs| && j < |CPorts(p.g, t)| then Ever(p)(CPorts(p.g, t)[j], w) else w == All;
      if |CPorts(p.g, t)| == |p.g.node[c].withs| && j < |CPorts(p.g, t)| { r :| Asked(p, r, CPorts(p.g, t)[j], w); }
    } else if EverAsked(p, c, All) {
      r :| Asked(p, r, c, All);
    } else if EverAsked(p, c, Slot(Index(j))) {
      r :| Asked(p, r, c, Slot(Index(j)));
    } else if keys :| Keyed(p.g, c, keys) && j < |keys| && Ever(p)(c, Slot(keys[j])) {
      r :| Asked(p, r, c, Slot(keys[j]));
    }
  }

  lemma ParameterFinitely(p: Problem, h: GraphId, kind: PortKind, j: nat, w: Want) returns (r: nat)
    requires ParameterAsks(p, Ever(p), h, kind, j, w)
    ensures ParameterAsks(p, AskedIn(p, r), h, kind, j, w)
  {
    hide Asked;
    r := 0;
    if PortKey(h, kind, j) in p.g.port { r :| Asked(p, r, p.g.port[PortKey(h, kind, j)], w); }
  }

  lemma PassedFinitely(p: Problem, c: NodeId, n: NodeId, w: Want) returns (r: nat)
    requires c in p.g.node && Passed(p, Ever(p), c, n, w)
    ensures Passed(p, AskedIn(p, r), c, n, w)
  {
    hide Asked, FilledAsks, ParameterAsks, Unresolved;
    r := 0;
    var node := p.g.node[c];
    match node.kind
    case Fill(_) =>
      var j: nat :| j < |node.withs| && n == node.withs[j] && FilledAsks(p, Ever(p), c, j, w);
      r := FilledFinitely(p, c, j, w);
    case Func(t) =>
      var kind, j: nat :| Passes(p.g, c, kind, j, n) && if t.Some? then ParameterAsks(p, Ever(p), t.value, kind, j, w) else w == All;
      if t.Some? { r := ParameterFinitely(p, t.value, kind, j, w); }
    case Call =>
      if !(node.withs != [] && n == node.withs[0] && w == All) {
        var kind, j: nat :| Passes(p.g, c, kind, j, n) && CallAsks(p, Ever(p), c, kind, j, w);
        if !Unresolved(p, c) {
          var h :| Lists(p, c, h) && ParameterAsks(p, Ever(p), h, kind, j, w);
          r := ParameterFinitely(p, h, kind, j, w);
        }
        assert CallAsks(p, AskedIn(p, r), c, kind, j, w);
      }
    case Join => if n in node.withs && EverAsked(p, c, w) { r :| Asked(p, r, c, w); }
    case Gate => r :| Asked(p, r, c, w);
    case _ =>
  }

  lemma RuleFinitely(p: Problem, n: NodeId, w: Want)
    requires Rule(p, Ever(p), n, w)
    ensures EverAsked(p, n, w)
  {
    hide Asked, Passed, MayEnter;
    if p.root in p.g.exitSrc && n == p.g.exitSrc[p.root] && w == All {
      NextAsked(p, 0, n, w);
    } else if s, h :| MayEnter(p, s, h) && h in p.g.exitSrc && n == p.g.exitSrc[h] && Ever(p)(s, w) {
      var r: nat :| Asked(p, r, s, w);
      assert AskedIn(p, r)(s, w);
      NextAsked(p, r, n, w);
    } else {
      var c, v :| c in p.g.node && Ever(p)(c, v) && Passed(p, Ever(p), c, n, w);
      var r := PassedFinitely(p, c, n, w);
      var r': nat :| Asked(p, r', c, v);
      var most := if r < r' then r' else r;
      AskedUpTo(p, r, most);
      AskedMore(p, r', most, c, v);
      PassedMonotone(p, AskedIn(p, r), AskedIn(p, most), c, n, w);
      assert AskedIn(p, most)(c, v);
      NextAsked(p, most, n, w);
    }
  }

  lemma NextAsked(p: Problem, r: nat, n: NodeId, w: Want)
    requires Rule(p, AskedIn(p, r), n, w)
    ensures EverAsked(p, n, w)
  {
    hide Rule;
    assert Asked(p, r + 1, n, w);
  }

  // ---- the functions the fixpoint uses

  function MadeIn(d: DemandMap): Asking {
    (n: NodeId, w: Want) => w in On(d, n)
  }

  predicate Covers(wants: Wants, w: Want) { All in wants || w in wants }

  lemma ListsIs(p: Problem, c: NodeId)
    requires c in p.g.node && p.g.node[c].kind.Call?
    ensures forall h :: h in Callees(p.g, p.memo, c) <==> Lists(p, c, h)
    ensures Callees(p.g, p.memo, c) == {} <==> Unresolved(p, c)
  {
  }

  lemma EnterIs(p: Problem, s: NodeId, h: GraphId)
    requires s in p.g.node
    ensures h in Targets(p, s) <==> MayEnter(p, s, h)
  {
    hide Callees, ClosureTarget, Makes;
    if p.g.node[s].kind.Call? {
      ListsIs(p, s);
      if h in ClosureGraphs(p.g) {
        var n :| n in p.g.node && ClosureTarget(p.g, n).Some? && h == ClosureTarget(p.g, n).value;
        TargetIs(p.g, n, h);
      }
      if n :| Makes(p.g, n, h) {
        assert n in p.g.node by { MadeInside(p.g, n, h); }
        TargetIs(p.g, n, h);
      }
    }
  }

  lemma MadeInside(g: Graph, n: NodeId, h: GraphId)
    requires Makes(g, n, h)
    ensures n in g.node
  {
  }

  lemma ParameterIs(p: Problem, d: DemandMap, h: GraphId, kind: PortKind, j: nat, w: Want)
    ensures w in PortDemand(p, d, PortKey(h, kind, j)) <==> ParameterAsks(p, MadeIn(d), h, kind, j, w)
  {
  }

  lemma FillGives(p: Problem, d: DemandMap, c: NodeId, j: nat, w: Want)
    requires c in p.g.node && p.g.node[c].kind.Fill? && j < |p.g.node[c].withs| && w in FillAmount(p, d, c, j)
    ensures FilledAsks(p, MadeIn(d), c, j, w)
  {
    hide ClosureTarget, FillKeys, Makes;
    var t := ClosureTarget(p.g, c);
    TargetIs(p.g, c, if t.Some? then t.value else 0);
    if t.None? {
      forall keys ensures FillKeys(p.g, c) == Some(keys) <==> Keyed(p.g, c, keys) { KeysAre(p.g, c, keys); }
      if FillKeys(p.g, c).Some? { assert Keyed(p.g, c, FillKeys(p.g, c).value); }
    }
  }

  /** The `j`-th value a call site reads, as an argument. */
  lemma ArgumentIs(p: Problem, c: NodeId, j: nat) returns (kind: PortKind, i: nat)
    requires c in p.g.node && (p.g.node[c].kind.Func? || p.g.node[c].kind.Call?) && j < |Inputs(p, c)|
    requires p.g.node[c].kind.Call? && p.g.node[c].withs != [] ==> j > 0
    ensures Passes(p.g, c, kind, i, Inputs(p, c)[j])
    ensures kind.With? ==> j < |p.g.node[c].withs| && j == if p.g.node[c].kind.Call? then i + 1 else i
    ensures kind.Norm? ==> j == |p.g.node[c].withs| + i
  {
    var node := p.g.node[c];
    if j < |node.withs| {
      kind, i := With, if node.kind.Call? then j - 1 else j;
    } else {
      kind, i := Norm, j - |node.withs|;
    }
  }

  /** What the fixpoint pushes is what the rules pass on. */
  lemma AmountGives(p: Problem, d: DemandMap, c: NodeId, j: nat, w: Want)
    requires c in p.g.node && j < |Inputs(p, c)| && w in Amount(p, d, c, j)
    ensures Passed(p, MadeIn(d), c, Inputs(p, c)[j], w)
  {
    hide FilledAsks, FillAmount, ParameterAsks, Passes, Callees, PortDemand, Unresolved, Lists;
    var node := p.g.node[c];
    match node.kind
    case Fill(_) => FillGives(p, d, c, j, w);
    case Func(t) =>
      var kind, i := ArgumentIs(p, c, j);
      if t.Some? { ParameterIs(p, d, t.value, kind, i, w); }
    case Call =>
      if j > 0 || node.withs == [] {
        var kind, i := ArgumentIs(p, c, j);
        ListsIs(p, c);
        if !Unresolved(p, c) {
          var hs := Callees(p.g, p.memo, c);
          assert w in PortDemands(p, d, hs, kind, i);
          var h :| h in hs && w in PortDemand(p, d, PortKey(h, kind, i));
          ParameterIs(p, d, h, kind, i, w);
        }
        assert CallAsks(p, MadeIn(d), c, kind, i, w);
      }
    case _ =>
  }

  // ---- everything the rules give is covered by any closed demand

  ghost predicate CoveredBy(p: Problem, asks: Asking, e: DemandMap) {
    forall n, w :: asks(n, w) ==> Covers(On(e, n), w)
  }

  lemma FillCovers(p: Problem, e: DemandMap, asks: Asking, c: NodeId, j: nat, w: Want)
    requires CoveredBy(p, asks, e) && c in p.g.node && p.g.node[c].kind.Fill? && j < |p.g.node[c].withs|
    requires FilledAsks(p, asks, c, j, w)
    ensures Covers(FillAmount(p, e, c, j), w)
  {
    hide ClosureTarget, FillKeys, Makes, Keyed;
    if t0 :| Makes(p.g, c, t0) {
      var t :| Makes(p.g, c, t)
        && if |CPorts(p.g, t)| == |p.g.node[c].withs| && j < |CPorts(p.g, t)| then asks(CPorts(p.g, t)[j], w) else w == All;
      TargetIs(p.g, c, t);
    } else {
      TargetIs(p.g, c, 0);
      forall keys ensures FillKeys(p.g, c) == Some(keys) <==> Keyed(p.g, c, keys) { KeysAre(p.g, c, keys); }
    }
  }

  lemma ParameterCovers(p: Problem, e: DemandMap, asks: Asking, h: GraphId, kind: PortKind, j: nat, w: Want)
    requires CoveredBy(p, asks, e) && ParameterAsks(p, asks, h, kind, j, w)
    ensures Covers(PortDemand(p, e, PortKey(h, kind, j)), w)
  {
  }

  /** Where an argument stands among the values a call site reads. */
  lemma ArgumentAt(p: Problem, c: NodeId, kind: PortKind, i: nat, a: NodeId) returns (j: nat)
    requires c in p.g.node && (p.g.node[c].kind.Func? || p.g.node[c].kind.Call?) && Passes(p.g, c, kind, i, a)
    ensures j < |Inputs(p, c)| && Inputs(p, c)[j] == a
    ensures kind.With? ==> j < |p.g.node[c].withs| && j == if p.g.node[c].kind.Call? then i + 1 else i
    ensures kind.Norm? ==> j == |p.g.node[c].withs| + i
  {
    j := if kind.Norm? then |p.g.node[c].withs| + i else if p.g.node[c].kind.Call? then i + 1 else i;
  }

  lemma CallCovers(p: Problem, e: DemandMap, asks: Asking, c: NodeId, kind: PortKind, i: nat, w: Want, j: nat)
    requires CoveredBy(p, asks, e) && c in p.g.node && p.g.node[c].kind.Call? && CallAsks(p, asks, c, kind, i, w)
    requires j < |Inputs(p, c)| && j == if kind.Norm? then |p.g.node[c].withs| + i else i + 1
    requires kind.With? ==> j < |p.g.node[c].withs|
    ensures Covers(Amount(p, e, c, j), w)
  {
    hide Callees, PortDemand, ParameterAsks, Unresolved, Lists;
    ListsIs(p, c);
    var hs := Callees(p.g, p.memo, c);
    if !Unresolved(p, c) {
      var h :| Lists(p, c, h) && ParameterAsks(p, asks, h, kind, i, w);
      ParameterCovers(p, e, asks, h, kind, i, w);
      assert forall v :: v in PortDemand(p, e, PortKey(h, kind, i)) ==> v in PortDemands(p, e, hs, kind, i);
    }
  }

  lemma PassedCovers(p: Problem, e: DemandMap, asks: Asking, c: NodeId, a: NodeId, w: Want) returns (j: nat)
    requires CoveredBy(p, asks, e) && c in p.g.node && Passed(p, asks, c, a, w)
    ensures j < |Inputs(p, c)| && Inputs(p, c)[j] == a && Covers(Amount(p, e, c, j), w)
  {
    hide FilledAsks, FillAmount, ParameterAsks, Passes, Callees, PortDemand, Unresolved, Lists, CallAmount;
    var node := p.g.node[c];
    match node.kind
    case Accs(_) => j := 0;
    case Fill(_) =>
      j :| j < |node.withs| && a == node.withs[j] && FilledAsks(p, asks, c, j, w);
      FillCovers(p, e, asks, c, j, w);
    case Func(t) =>
      var kind, i: nat :| Passes(p.g, c, kind, i, a) && if t.Some? then ParameterAsks(p, asks, t.value, kind, i, w) else w == All;
      j := ArgumentAt(p, c, kind, i, a);
      if t.Some? { ParameterCovers(p, e, asks, t.value, kind, i, w); }
    case Call =>
      if node.withs != [] && a == node.withs[0] && w == All {
        j := 0;
        CalleeAmount(p, e, c);
      } else {
        var kind, i: nat :| Passes(p.g, c, kind, i, a) && CallAsks(p, asks, c, kind, i, w);
        j := ArgumentAt(p, c, kind, i, a);
        CallCovers(p, e, asks, c, kind, i, w, j);
      }
    case Join =>
      if a in node.withs && asks(c, w) {
        j :| 0 <= j < |node.withs| && node.withs[j] == a;
      } else {
        var i :| 0 <= i < |node.norms| && node.norms[i] == a;
        j := |node.withs| + i;
      }
    case _ => j :| 0 <= j < |node.withs + node.norms| && (node.withs + node.norms)[j] == a;
  }

  lemma CalleeAmount(p: Problem, e: DemandMap, c: NodeId)
    requires c in p.g.node && p.g.node[c].kind.Call? && p.g.node[c].withs != []
    ensures 0 < |Inputs(p, c)| && Inputs(p, c)[0] == p.g.node[c].withs[0] && Amount(p, e, c, 0) == {All}
  {
  }

  lemma RuleCovers(p: Problem, e: DemandMap, asks: Asking, n: NodeId, w: Want)
    requires Closed(p, e) && CoveredBy(p, asks, e) && Rule(p, asks, n, w)
    ensures Covers(On(e, n), w)
  {
    hide Passed, MayEnter, Amount, Inputs, Targets;
    if p.root in p.g.exitSrc && n == p.g.exitSrc[p.root] && w == All {
      assert ExitClosed(p, e, p.root);
    } else if s, h :| MayEnter(p, s, h) && h in p.g.exitSrc && n == p.g.exitSrc[h] && asks(s, w) {
      assert s in p.g.node by { EntersInside(p, s, h); }
      EnterIs(p, s, h);
      assert ExitClosed(p, e, h) && s in Sites(p, h);
    } else {
      var c, v :| c in p.g.node && asks(c, v) && Passed(p, asks, c, n, w);
      var j := PassedCovers(p, e, asks, c, n, w);
      assert PushClosed(p, e, c);
    }
  }

  lemma EntersInside(p: Problem, s: NodeId, h: GraphId)
    requires MayEnter(p, s, h)
    ensures s in p.g.node
  {
  }

  lemma {:induction false} AskedCovered(p: Problem, e: DemandMap, r: nat, n: NodeId, w: Want)
    requires Closed(p, e) && Asked(p, r, n, w)
    ensures Covers(On(e, n), w)
    decreases r
  {
    hide Rule, Closed;
    forall x, v | AskedIn(p, r - 1)(x, v) ensures Covers(On(e, x), v) { AskedCovered(p, e, r - 1, x, v); }
    RuleCovers(p, e, AskedIn(p, r - 1), n, w);
  }

  // ---- what the rules give is closed

  ghost function Given(p: Problem): DemandMap {
    map n | n in p.g.node :: set w | w in AllWants(p.g) && EverAsked(p, n, w)
  }

  lemma GivenIs(p: Problem, n: NodeId, w: Want)
    ensures w in On(Given(p), n) <==> n in p.g.node && w in AllWants(p.g) && EverAsked(p, n, w)
    ensures Bounded(p, Given(p)) && Implies(MadeIn(Given(p)), Ever(p))
  {
    hide EverAsked;
  }

  lemma GivenPushes(p: Problem, c: NodeId, j: nat, w: Want)
    requires WellFormed(p.g) && c in p.g.node && On(Given(p), c) != {} && j < |Inputs(p, c)| && w in Amount(p, Given(p), c, j)
    ensures w in On(Given(p), Inputs(p, c)[j])
  {
    hide Amount, Inputs, Passed, Given, EverAsked, MayEnter;
    var d, a := Given(p), Inputs(p, c)[j];
    GivenIs(p, c, All);
    AmountBounded(p, d, c, j);
    AmountGives(p, d, c, j, w);
    PassedMonotone(p, MadeIn(d), Ever(p), c, a, w);
    var v :| v in On(d, c);
    assert Ever(p)(c, v) by { GivenIs(p, c, v); }
    RuleFinitely(p, a, w);
    GivenIs(p, a, w);
  }

  lemma GivenExits(p: Problem, h: GraphId)
    requires WellFormed(p.g) && h in p.g.exitSrc
    ensures ExitClosed(p, Given(p), h)
  {
    hide Given, EverAsked, MayEnter, Passed, Targets;
    var d, src := Given(p), p.g.exitSrc[h];
    if h == p.root {
      RuleFinitely(p, src, All);
      GivenIs(p, src, All);
    }
    forall s, w | s in Sites(p, h) && w in On(d, s) ensures w in On(d, src) {
      EnterIs(p, s, h);
      GivenIs(p, s, w);
      assert Ever(p)(s, w);
      RuleFinitely(p, src, w);
      GivenIs(p, src, w);
    }
  }

  lemma GivenClosed(p: Problem)
    requires WellFormed(p.g)
    ensures Closed(p, Given(p))
  {
    hide Given, Amount, Inputs, ExitClosed;
    forall h | h in p.g.exitSrc ensures ExitClosed(p, Given(p), h) { GivenExits(p, h); }
    forall c | c in p.g.node ensures PushClosed(p, Given(p), c) {
      forall j, w | 0 <= j < |Inputs(p, c)| && On(Given(p), c) != {} && w in Amount(p, Given(p), c, j)
        ensures w in On(Given(p), Inputs(p, c)[j])
      {
        GivenPushes(p, c, j, w);
      }
    }
  }

  /** The computed demand is exactly what the rules give: a node is demanded if and only if finitely many
      uses of the rules lead to it from the root's result, and likewise for each slot and for all of it. */
  lemma DemandExact(p: Problem, d: DemandMap, n: NodeId)
    requires WellFormed(p.g) && LeastClosed(p, d)
    ensures On(d, n) != {} <==> exists w :: EverAsked(p, n, w)
    ensures All in On(d, n) <==> EverAsked(p, n, All)
    ensures All !in On(d, n) ==> forall w :: w in On(d, n) <==> EverAsked(p, n, w)
  {
    hide Closed, Asked, Given;
    GivenClosed(p);
    assert Under(d, Given(p));
    forall w | EverAsked(p, n, w) ensures Covers(On(d, n), w) {
      var r: nat :| Asked(p, r, n, w);
      AskedCovered(p, d, r, n, w);
    }
    forall w | w in On(d, n) ensures EverAsked(p, n, w) || EverAsked(p, n, All) {
      GivenIs(p, n, w);
      GivenIs(p, n, All);
    }
    forall w | w in On(d, n) && w == All ensures EverAsked(p, n, All) {}
  }
}
