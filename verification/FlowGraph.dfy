/** The step graph as the analysis reads it: nodes with two ordered groups of data inputs
    (`WITH`, `NORM`), ports, capture ports and one result node per graph. Labels are already
    classified: a FUNC and a function constant carry the graph that name lookup gave them, and a
    template constant carries its slot keys. */
module FlowGraph {
  import opened Wrappers

  type NodeId = nat
  type GraphId = nat

  /** A slot key: a position (`t.0`) or a field name (`p.y`). */
  datatype Key = Index(i: nat) | Name(s: string)

  /** Run-time values. `Bot` is "no value": stuck, removed, faulted or not finished yet.
      A `Token` is what an operator sees of a closure: which function, not what it captured. */
  datatype Value =
    | Bot
    | Atom(a: int)
    | Token(g: GraphId)
    | Rec(keys: seq<Key>, fields: seq<Value>)
    | Clo(target: GraphId, caps: seq<Value>)

  datatype Constant =
    | Function(target: Option<GraphId>)
    | Template(keys: seq<Key>, consts: seq<Value>, plain: bool)  // plain: its label lists flat slots
    | Literal(v: Value)

  datatype PortKind = With | Norm
  datatype PortKey = PortKey(graph: GraphId, kind: PortKind, index: nat)

  /** `Oper` stands for operators, branch heads and every node type the analysis does not know. To
      the analysis a loop is one of those too. */
  datatype Kind =
    | Data(constant: Constant)
    | Oper
    | Accs(key: Key)
    | Fill(at: seq<nat>)                 // template position filled by each WITH input
    | Func(callee: Option<GraphId>)
    | Call
    | Port(slot: Option<PortKey>)        // which parameter this node is; None: a loop binds it
    | ClosurePort
    | Join
    | Gate
    | Loop(ports: seq<NodeId>)           // the nodes its rounds bind

  /** A part of a graph that runs under control: an arm of the branch that a JOIN closes, or the
      condition or the body of a loop. */
  datatype Region = Arm(join: NodeId, index: nat) | LoopCond(loop: NodeId) | LoopBody(loop: NodeId) {
    function Owner(): NodeId { if Arm? then join else loop }
  }

  /** `ctrls` only order execution; they carry no value. `regions` are the regions the node is in,
      outermost first; the analysis does not read them. */
  datatype Node = Node(kind: Kind, graph: GraphId, withs: seq<NodeId>, norms: seq<NodeId>, ctrls: seq<NodeId>,
                       regions: seq<Region>)

  datatype Graph = Graph(
    node: map<NodeId, Node>,
    cports: map<GraphId, seq<NodeId>>,
    port: map<PortKey, NodeId>,
    exitSrc: map<GraphId, NodeId>)

  function CPorts(g: Graph, h: GraphId): seq<NodeId> {
    if h in g.cports then g.cports[h] else []
  }

  /** The constant a FILL starts from. */
  function TemplateOf(g: Graph, n: NodeId): Option<Constant>
    requires n in g.node
  {
    var norms := g.node[n].norms;
    if norms != [] && norms[0] in g.node && g.node[norms[0]].kind.Data?
    then Some(g.node[norms[0]].kind.constant) else None
  }

  function ConstTarget(c: Constant): Option<GraphId> {
    if c.Function? then c.target else None
  }

  /** The graph a function constant, or the FILL that closes over it, stands for. */
  function ClosureTarget(g: Graph, n: NodeId): Option<GraphId>
    requires n in g.node
  {
    match g.node[n].kind
    case Data(c) => ConstTarget(c)
    case Fill(_) =>
      var t := TemplateOf(g, n);
      if t.Some? then ConstTarget(t.value) else None
    case _ => None
  }

  /** Slot keys of a tuple or struct FILL, one per WITH input, or None when they cannot be told. */
  function FillKeys(g: Graph, n: NodeId): Option<seq<Key>>
    requires n in g.node
  {
    var t := TemplateOf(g, n);
    if t.Some? && t.value.Template? && t.value.plain && |t.value.keys| == |g.node[n].withs|
    then Some(t.value.keys) else None
  }

  function IndexIn<T(==)>(xs: seq<T>, x: T): (i: nat)
    requires x in xs
    ensures i < |xs| && xs[i] == x && x !in xs[..i]
  {
    if xs[0] == x then 0 else IndexIn(xs[1..], x) + 1
  }

  /** The slot key `k` names: by name first, else by position. */
  function SlotOf(keys: seq<Key>, k: Key): (j: Option<nat>)
    ensures j.Some? ==> j.value < |keys| && (keys[j.value] == k || Index(j.value) == k)
  {
    if k in keys then Some(IndexIn(keys, k))
    else if k.Index? && k.i < |keys| then Some(k.i)
    else None
  }

  // ---- well-formedness: what the compiler checks of every graph before it prints it

  ghost predicate InputsInside(g: Graph, n: NodeId, xs: seq<NodeId>)
    requires n in g.node
  {
    forall i :: 0 <= i < |xs| ==> xs[i] in g.node && g.node[xs[i]].graph == g.node[n].graph
  }

  /** A FILL starts from a constant; when its slots are told by their keys, the WITH inputs
      fill them in order. */
  ghost predicate FillOk(g: Graph, n: NodeId)
    requires n in g.node
  {
    g.node[n].kind.Fill? ==>
      && TemplateOf(g, n).Some?
      && (FillKeys(g, n).Some? ==>
            && |TemplateOf(g, n).value.consts| == |g.node[n].withs| == |g.node[n].kind.at|
            && forall j :: 0 <= j < |g.node[n].withs| ==> g.node[n].kind.at[j] == j)
  }

  ghost predicate PortOk(g: Graph, n: NodeId)
    requires n in g.node
  {
    g.node[n].kind.Port? && g.node[n].kind.slot.Some? ==>
      var k := g.node[n].kind.slot.value;
      k in g.port && g.port[k] == n && k.graph == g.node[n].graph
  }

  ghost predicate NodeOk(g: Graph, n: NodeId)
    requires n in g.node
  {
    && InputsInside(g, n, g.node[n].withs)
    && InputsInside(g, n, g.node[n].norms)
    && FillOk(g, n)
    && PortOk(g, n)
    && (g.node[n].kind.ClosurePort? ==> n in CPorts(g, g.node[n].graph))
  }

  ghost predicate WellFormed(g: Graph) {
    && (forall n :: n in g.node ==> NodeOk(g, n))
    && (forall h :: h in g.exitSrc ==> g.exitSrc[h] in g.node && g.node[g.exitSrc[h]].graph == h)
    && (forall k :: k in g.port ==>
          g.port[k] in g.node && g.node[g.port[k]].kind == Port(Some(k)))
    && (forall h, j :: 0 <= j < |CPorts(g, h)| ==>
          CPorts(g, h)[j] in g.node && g.node[CPorts(g, h)[j]].kind.ClosurePort?
          && g.node[CPorts(g, h)[j]].graph == h)
    && (forall h, i, j :: 0 <= i < j < |CPorts(g, h)| ==> CPorts(g, h)[i] != CPorts(g, h)[j])
  }
}
