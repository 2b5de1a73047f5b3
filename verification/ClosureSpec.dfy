/** Which graphs the value of a node at an access path may be a closure of: the equations that
    the closure fixpoint solves, and what a solution is. */
module ClosureSpec {
  import opened Wrappers
  import opened FlowGraph

  const MAX_PATH: nat := 8

  type Path = seq<Key>
  type MemoKey = (NodeId, Path)
  type Memo = map<MemoKey, set<GraphId>>

  function Look(m: Memo, k: MemoKey): set<GraphId> {
    if k in m then m[k] else {}
  }

  function Tail(path: Path): Path {
    if path == [] then [] else path[1..]
  }

  function Calls(g: Graph): set<NodeId> {
    set n | n in g.node && g.node[n].kind.Call?
  }

  function FuncSites(g: Graph, h: GraphId): set<NodeId> {
    set n | n in g.node && g.node[n].kind == Func(Some(h))
  }

  /** FILL nodes that create closures of `h`. */
  function FillsOf(g: Graph, h: GraphId): set<NodeId> {
    set n | n in g.node && g.node[n].kind.Fill? && ClosureTarget(g, n) == Some(h)
  }

  /** Every graph some constant or FILL makes a closure of. */
  function ClosureGraphs(g: Graph): set<GraphId> {
    set n | n in g.node && ClosureTarget(g, n).Some? :: ClosureTarget(g, n).value
  }

  function FuncArgs(g: Graph, s: NodeId, kind: PortKind): seq<NodeId>
    requires s in g.node
  {
    if kind.With? then g.node[s].withs else g.node[s].norms
  }

  function CallArgs(g: Graph, c: NodeId, kind: PortKind): seq<NodeId>
    requires c in g.node && g.node[c].withs != []
  {
    if kind.With? then g.node[c].withs[1..] else g.node[c].norms
  }

  /** Does CALL node `c` possibly run graph `h`, as far as `m` knows? */
  predicate MayCall(g: Graph, m: Memo, c: NodeId, h: GraphId) {
    c in g.node && g.node[c].kind.Call? && g.node[c].withs != [] && h in Look(m, (g.node[c].withs[0], []))
  }

  /** The graphs the table lists for a CALL. */
  function Callees(g: Graph, m: Memo, c: NodeId): (r: set<GraphId>)
    requires c in g.node
    ensures g.node[c].kind.Call? ==> forall h :: h in r <==> MayCall(g, m, c, h)
  {
    if g.node[c].withs != [] then Look(m, (g.node[c].withs[0], [])) else {}
  }

  function PortSources(g: Graph, m: Memo, k: PortKey, path: Path): set<MemoKey> {
    (set s | s in FuncSites(g, k.graph) && k.index < |FuncArgs(g, s, k.kind)| ::
       (FuncArgs(g, s, k.kind)[k.index], path))
    + (set c | c in Calls(g) && MayCall(g, m, c, k.graph) && k.index < |CallArgs(g, c, k.kind)| ::
         (CallArgs(g, c, k.kind)[k.index], path))
  }

  function FillSources(g: Graph, n: NodeId, path: Path): set<MemoKey>
    requires n in g.node
  {
    var withs := g.node[n].withs;
    match FillKeys(g, n)
    case Some(keys) =>
      if path != [] && SlotOf(keys, path[0]).Some? then {(withs[SlotOf(keys, path[0]).value], path[1..])} else {}
    case None => (set w | w in withs :: (w, Tail(path))) + (set w | w in withs :: (w, path))
  }

  /** The entries whose union is the value of node `n` at `path`. */
  function Sources(g: Graph, m: Memo, n: NodeId, path: Path): set<MemoKey>
    requires n in g.node
  {
    var node := g.node[n];
    match node.kind
    case Data(_) => {}
    case Oper => {}
    case Accs(k) => if node.norms == [] then {} else {(node.norms[0], [k] + path)}
    case Fill(_) => if ClosureTarget(g, n).Some? then {} else FillSources(g, n, path)
    case Func(t) => if t.Some? && t.value in g.exitSrc then {(g.exitSrc[t.value], path)} else {}
    case Call =>
      set h | h in g.exitSrc && MayCall(g, m, n, h) :: (g.exitSrc[h], path)
    case Port(slot) => if slot.Some? then PortSources(g, m, slot.value, path) else {}
    case ClosurePort =>
      var ports := CPorts(g, node.graph);
      if n !in ports then {} else
      set f | f in FillsOf(g, node.graph) && IndexIn(ports, n) < |g.node[f].withs| ::
        (g.node[f].withs[IndexIn(ports, n)], path)
    case Join => set w | w in node.withs :: (w, path)
    case Gate => set w | w in node.withs + node.norms :: (w, path)
    case Loop(_) => {}
  }

  /** The callee entries read only to decide which sources there are. */
  function Controls(g: Graph, n: NodeId): set<MemoKey>
    requires n in g.node
  {
    match g.node[n].kind
    case Call => if g.node[n].withs != [] then {(g.node[n].withs[0], [])} else {}
    case Port(slot) => if slot.Some? then Seeds(g) else {}
    case _ => {}
  }

  /** The entries the analysis starts from: the callee of every CALL. */
  function Seeds(g: Graph): set<MemoKey> {
    set c | c in Calls(g) && g.node[c].withs != [] :: (g.node[c].withs[0], [])
  }

  predicate Cut(path: Path) { |path| > MAX_PATH }

  function Reads(g: Graph, m: Memo, k: MemoKey): set<MemoKey>
    requires k.0 in g.node
  {
    if Cut(k.1) then {} else Controls(g, k.0) + Sources(g, m, k.0, k.1)
  }

  function Union(m: Memo, ks: set<MemoKey>): (r: set<GraphId>)
    ensures forall h :: h in r <==> exists k :: k in ks && h in Look(m, k)
  {
    set k, h | k in ks && h in Look(m, k) :: h
  }

  /** One evaluation of entry `k` from what `m` knows. */
  function Step(g: Graph, m: Memo, k: MemoKey): set<GraphId>
    requires k.0 in g.node
  {
    if Cut(k.1) then {}
    else if ClosureTarget(g, k.0).Some? then (if k.1 == [] then {ClosureTarget(g, k.0).value} else {})
    else Union(m, Sources(g, m, k.0, k.1))
  }

  // ---- order and solutions

  ghost predicate Below(m: Memo, m': Memo) {
    m.Keys <= m'.Keys && forall k :: k in m ==> m[k] <= m'[k]
  }

  ghost predicate KeysInside(g: Graph, m: Memo) {
    forall k :: k in m ==> k.0 in g.node
  }

  /** A table that answers everything the analysis asks for and everything those answers read,
      and never leaves out what one more evaluation would find. */
  ghost predicate Solution(g: Graph, m: Memo) {
    && KeysInside(g, m)
    && Seeds(g) <= m.Keys
    && forall k :: k in m ==> Reads(g, m, k) <= m.Keys && Step(g, m, k) <= m[k]
  }

  ghost predicate BelowEverySolution(g: Graph, m: Memo) {
    forall s :: Solution(g, s) ==> Below(m, s)
  }

  ghost predicate LeastSolution(g: Graph, m: Memo) {
    Solution(g, m) && BelowEverySolution(g, m)
  }

  lemma LookMonotone(m: Memo, m': Memo, k: MemoKey)
    requires Below(m, m')
    ensures Look(m, k) <= Look(m', k)
  {
  }

  /** More knowledge never removes a source. */
  lemma SourcesMonotone(g: Graph, m: Memo, m': Memo, n: NodeId, path: Path)
    requires n in g.node && Below(m, m')
    ensures Sources(g, m, n, path) <= Sources(g, m', n, path)
  {
    forall c, h | MayCall(g, m, c, h) ensures MayCall(g, m', c, h) {
      LookMonotone(m, m', (g.node[c].withs[0], []));
    }
    if g.node[n].kind.Port? && g.node[n].kind.slot.Some? {
      assert PortSources(g, m, g.node[n].kind.slot.value, path) <= PortSources(g, m', g.node[n].kind.slot.value, path);
    }
  }

  lemma StepMonotone(g: Graph, m: Memo, m': Memo, k: MemoKey)
    requires k.0 in g.node && Below(m, m')
    ensures Reads(g, m, k) <= Reads(g, m', k)
    ensures Step(g, m, k) <= Step(g, m', k)
  {
    SourcesMonotone(g, m, m', k.0, k.1);
    forall s ensures Look(m, s) <= Look(m', s) { LookMonotone(m, m', s); }
  }

  /** There is only one least solution, so it does not depend on how it is computed. */
  lemma LeastSolutionUnique(g: Graph, m: Memo, m': Memo)
    requires LeastSolution(g, m) && LeastSolution(g, m')
    ensures m == m'
  {
    assert Below(m, m') && Below(m', m);
    assert m.Keys == m'.Keys;
    forall k | k in m ensures m[k] == m'[k] {}
  }
}
