/** The backward demand analysis: which slots of which values the root's result needs. */
module Demand {
  import opened Wrappers
  import opened FlowGraph
  import opened ClosureSpec

  /** A demand is for the whole value or for one first-level slot of it. */
  datatype Want = All | Slot(k: Key)
  type Wants = set<Want>
  type DemandMap = map<NodeId, Wants>

  function On(d: DemandMap, n: NodeId): Wants {
    if n in d then d[n] else {}
  }

  /** `a` asks for nothing that `b` does not: a whole-value demand covers every slot. */
  predicate Leq(a: Wants, b: Wants) {
    All in b || a <= b
  }

  /** The analysis input: the graph, the closure table and the root. */
  datatype Problem = Problem(g: Graph, memo: Memo, root: GraphId)

  ghost predicate Valid(p: Problem) { WellFormed(p.g) }

  /** The graphs a call site may enter; an unresolved CALL may enter any closure graph. */
  function Targets(p: Problem, s: NodeId): set<GraphId>
    requires s in p.g.node
  {
    match p.g.node[s].kind
    case Func(t) => if t.Some? then {t.value} else {}
    case Call => if Callees(p.g, p.memo, s) != {} then Callees(p.g, p.memo, s) else ClosureGraphs(p.g)
    case _ => {}
  }

  function Sites(p: Problem, h: GraphId): set<NodeId> {
    set s | s in p.g.node && h in Targets(p, s)
  }

  function PortDemand(p: Problem, d: DemandMap, k: PortKey): Wants {
    if k in p.g.port then On(d, p.g.port[k]) else {All}
  }

  function PortDemands(p: Problem, d: DemandMap, hs: set<GraphId>, kind: PortKind, index: nat): Wants {
    set h, w | h in hs && w in PortDemand(p, d, PortKey(h, kind, index)) :: w
  }

  /** The values node `c` reads, in the order their demands are pushed. */
  function Inputs(p: Problem, c: NodeId): seq<NodeId>
    requires c in p.g.node
  {
    var node := p.g.node[c];
    match node.kind
    case Accs(_) => if node.norms == [] then [] else node.norms[..1]
    case Fill(_) => node.withs
    case _ => node.withs + node.norms
  }

  function CallAmount(p: Problem, d: DemandMap, c: NodeId, j: nat): Wants
    requires c in p.g.node && p.g.node[c].kind.Call? && j < |Inputs(p, c)|
  {
    var node := p.g.node[c];
    var hs := Callees(p.g, p.memo, c);
    if j == 0 && node.withs != [] then {All}
    else if hs == {} then {All}
    else if j < |node.withs| then PortDemands(p, d, hs, With, j - 1)
    else PortDemands(p, d, hs, Norm, j - |node.withs|)
  }

  function FillAmount(p: Problem, d: DemandMap, c: NodeId, j: nat): Wants
    requires c in p.g.node && p.g.node[c].kind.Fill? && j < |Inputs(p, c)|
  {
    var t := ClosureTarget(p.g, c);
    if t.Some? then
      var ports := CPorts(p.g, t.value);
      if |ports| == |p.g.node[c].withs| then On(d, ports[j]) else {All}
    else
      var keys := FillKeys(p.g, c);
      if keys.None? || All in On(d, c) || Slot(keys.value[j]) in On(d, c) || Slot(Index(j)) in On(d, c)
      then {All} else {}
  }

  /** What a demanded node `c` asks of its `j`-th input. */
  function Amount(p: Problem, d: DemandMap, c: NodeId, j: nat): Wants
    requires c in p.g.node && j < |Inputs(p, c)|
  {
    var node := p.g.node[c];
    match node.kind
    case Accs(k) => {Slot(k)}
    case Fill(_) => FillAmount(p, d, c, j)
    case Func(t) =>
      if t.None? then {All}
      else if j < |node.withs| then PortDemand(p, d, PortKey(t.value, With, j))
      else PortDemand(p, d, PortKey(t.value, Norm, j - |node.withs|))
    case Call => CallAmount(p, d, c, j)
    case Join => if j < |node.withs| then On(d, c) else {All}
    case Gate => On(d, c)
    case _ => {All}
  }

  // ---- closed demand assignments

  ghost predicate PushClosed(p: Problem, d: DemandMap, c: NodeId)
    requires c in p.g.node
  {
    On(d, c) != {} ==> forall j :: 0 <= j < |Inputs(p, c)| ==> Leq(Amount(p, d, c, j), On(d, Inputs(p, c)[j]))
  }

  ghost predicate ExitClosed(p: Problem, d: DemandMap, h: GraphId)
    requires h in p.g.exitSrc
  {
    && (h == p.root ==> All in On(d, p.g.exitSrc[h]))
    && forall s :: s in Sites(p, h) ==> Leq(On(d, s), On(d, p.g.exitSrc[h]))
  }

  /** Closed under every propagation rule: root result, call-site results and all node kinds. */
  ghost predicate Closed(p: Problem, d: DemandMap) {
    && (forall h :: h in p.g.exitSrc ==> ExitClosed(p, d, h))
    && (forall c :: c in p.g.node ==> PushClosed(p, d, c))
  }

  ghost predicate Under(d: DemandMap, d': DemandMap) {
    forall n :: n in d ==> Leq(d[n], On(d', n))
  }

  ghost predicate LeastClosed(p: Problem, d: DemandMap) {
    Closed(p, d) && forall e :: Closed(p, e) ==> Under(d, e)
  }

  lemma PortDemandsMonotone(p: Problem, d: DemandMap, e: DemandMap, hs: set<GraphId>, kind: PortKind, index: nat)
    requires Under(d, e)
    ensures Leq(PortDemands(p, d, hs, kind, index), PortDemands(p, e, hs, kind, index))
  {
    forall w | w in PortDemands(p, d, hs, kind, index)
      ensures w in PortDemands(p, e, hs, kind, index) || All in PortDemands(p, e, hs, kind, index)
    {
      var h :| h in hs && w in PortDemand(p, d, PortKey(h, kind, index));
      assert Leq(PortDemand(p, d, PortKey(h, kind, index)), PortDemand(p, e, PortKey(h, kind, index)));
      assert w in PortDemand(p, e, PortKey(h, kind, index)) || All in PortDemand(p, e, PortKey(h, kind, index));
    }
  }

  /** A bigger demand on the graph pushes bigger amounts. */
  lemma AmountMonotone(p: Problem, d: DemandMap, e: DemandMap, c: NodeId, j: nat)
    requires c in p.g.node && j < |Inputs(p, c)| && Under(d, e)
    ensures Leq(Amount(p, d, c, j), Amount(p, e, c, j))
  {
    assert Leq(On(d, c), On(e, c));
    if p.g.node[c].kind.Call? {
      var hs, node := Callees(p.g, p.memo, c), p.g.node[c];
      if 0 < j < |node.withs| { PortDemandsMonotone(p, d, e, hs, With, j - 1); }
      if |node.withs| <= j { PortDemandsMonotone(p, d, e, hs, Norm, j - |node.withs|); }
    }
  }

  /** Which nodes are unused does not depend on how the least assignment was computed. */
  lemma UnusedIsUnique(p: Problem, d: DemandMap, e: DemandMap, n: NodeId)
    requires LeastClosed(p, d) && LeastClosed(p, e)
    ensures On(d, n) == {} <==> On(e, n) == {}
    ensures All in On(d, n) <==> All in On(e, n)
    ensures All !in On(d, n) ==> On(d, n) == On(e, n)
  {
    assert Under(d, e) && Under(e, d);
    assert Leq(On(d, n), On(e, n)) && Leq(On(e, n), On(d, n));
  }

  /** The slot keys of a tuple, or of a struct. */
  ghost predicate SlotKeys(keys: seq<Key>) {
    || (forall i :: 0 <= i < |keys| ==> keys[i] == Index(i))
    || ((forall i :: 0 <= i < |keys| ==> keys[i].Name?) && (forall i, j :: 0 <= i < j < |keys| ==> keys[i] != keys[j]))
  }

  /** Demand is exact on slots: a tuple or struct passes demand to the input of slot `j` exactly when
      it is read whole or through a key that means slot `j`. */
  lemma SlotDemandExact(p: Problem, d: DemandMap, c: NodeId, j: nat)
    requires c in p.g.node && p.g.node[c].kind.Fill? && j < |p.g.node[c].withs|
    requires ClosureTarget(p.g, c).None? && FillKeys(p.g, c).Some? && SlotKeys(FillKeys(p.g, c).value)
    ensures FillAmount(p, d, c, j) != {} <==>
      All in On(d, c) || exists k :: Slot(k) in On(d, c) && SlotOf(FillKeys(p.g, c).value, k) == Some(j)
  {
    var keys := FillKeys(p.g, c).value;
    OwnSlot(keys, j);
    if Slot(keys[j]) in On(d, c) { assert SlotOf(keys, keys[j]) == Some(j); }
    if Slot(Index(j)) in On(d, c) { assert SlotOf(keys, Index(j)) == Some(j); }
  }

  lemma OwnSlot(keys: seq<Key>, j: nat)
    requires SlotKeys(keys) && j < |keys|
    ensures SlotOf(keys, keys[j]) == Some(j) && SlotOf(keys, Index(j)) == Some(j)
  {
    assert keys[j] in keys;
  }
}
