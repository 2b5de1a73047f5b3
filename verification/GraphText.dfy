/** Reading the printed program: clusters nest by brackets, nodes belong to the innermost cluster,
    edges are filed under the consumer and under the source, and a name is looked up outwards from
    where it is used. Lines are already classified. */
module GraphText {
  import opened Wrappers

  type Gid = string
  type Nid = string

  datatype Line =
    | Cluster(gid: Gid)
    | Close
    | Label(text: string)
    | NodeLine(nid: Nid)
    | DataEdge(src: Nid, use: Use)
    | PortEdge(key: PortName, port: Nid)
    | ExitEdge(result: Nid, exit: Nid)
    | Other

  /** Which input of which node: the edge's kind and slot. */
  datatype Use = Use(to: Nid, kind: string, slot: nat)

  datatype PortName = PortName(graph: Gid, kind: string, index: nat)

  type Text = seq<Line>

  // ---- bracket nesting

  /** Clusters opened minus clusters closed on lines `a` to `b - 1`. */
  function Net(t: Text, a: nat, b: nat): int
    requires a <= b <= |t|
  {
    if a == b then 0
    else Net(t, a, b - 1) + Turn(t[b - 1])
  }

  function Turn(line: Line): int {
    if line.Cluster? then 1 else if line.Close? then -1 else 0
  }

  function Since(t: Text, j: nat, k: nat): int
    requires j < k <= |t|
  {
    Net(t, j + 1, k)
  }

  /** The cluster opened on line `j` is still open before line `i`. */
  ghost predicate OpenAt(t: Text, j: nat, i: nat) {
    j < i <= |t| && t[j].Cluster? && forall k :: j < k <= i ==> Since(t, j, k) >= 0
  }

  /** The opening lines on the reader's stack before line `i`. */
  function StackAt(t: Text, i: nat): seq<nat>
    requires i <= |t|
  {
    if i == 0 then []
    else
      var s := StackAt(t, i - 1);
      if t[i - 1].Cluster? then s + [i - 1]
      else if t[i - 1].Close? && s != [] then s[..|s| - 1]
      else s
  }

  ghost predicate IsNest(t: Text, i: nat, s: seq<nat>)
    requires i <= |t|
  {
    && (forall k :: 0 <= k < |s| ==> s[k] < i && t[s[k]].Cluster? && Since(t, s[k], i) == |s| - 1 - k)
    && (forall j, k :: 0 <= j < k < |s| ==> s[j] < s[k])
    && (forall j :: j in s <==> OpenAt(t, j, i))
  }

  lemma OpenStep(t: Text, j: nat, i: nat)
    requires 0 < i <= |t|
    ensures j < i - 1 ==> (OpenAt(t, j, i) <==> OpenAt(t, j, i - 1) && Since(t, j, i) >= 0)
    ensures j == i - 1 ==> (OpenAt(t, j, i) <==> t[j].Cluster?)
    ensures j >= i ==> !OpenAt(t, j, i)
  {
  }

  lemma SinceStep(t: Text, j: nat, i: nat)
    requires j < i - 1 && i <= |t|
    ensures Since(t, j, i) == Since(t, j, i - 1) + Turn(t[i - 1])
  {
  }

  lemma SinceOpening(t: Text, i: nat)
    requires 0 < i <= |t|
    ensures Since(t, i - 1, i) == 0
  {
  }

  /** The stack holds exactly the clusters that are open, outermost first, for every text. */
  lemma {:induction false} StackIsNest(t: Text, i: nat)
    requires i <= |t|
    ensures IsNest(t, i, StackAt(t, i))
  {
    if i > 0 {
      StackIsNest(t, i - 1);
      StackStep(t, i);
      if t[i - 1].Cluster? { NestOpens(t, i, StackAt(t, i - 1)); }
      else if t[i - 1].Close? { NestCloses(t, i, StackAt(t, i - 1)); }
      else { NestStays(t, i, StackAt(t, i - 1)); }
    }
  }

  lemma NestOpens(t: Text, i: nat, s: seq<nat>)
    requires 0 < i <= |t| && IsNest(t, i - 1, s) && t[i - 1].Cluster?
    ensures IsNest(t, i, s + [i - 1])
  {
    hide Since, OpenAt;
    forall k | 0 <= k < |s| ensures Since(t, s[k], i) == |s| - k { SinceStep(t, s[k], i); }
    SinceOpening(t, i);
    forall j: nat ensures j in s + [i - 1] <==> OpenAt(t, j, i) {
      OpenStep(t, j, i);
      if j < i - 1 { SinceStep(t, j, i); SinceOpen(t, j, i - 1); }
      if j in s { var k :| 0 <= k < |s| && s[k] == j; }
    }
  }

  lemma NestStays(t: Text, i: nat, s: seq<nat>)
    requires 0 < i <= |t| && IsNest(t, i - 1, s) && !t[i - 1].Cluster? && !t[i - 1].Close?
    ensures IsNest(t, i, s)
  {
    hide Since, OpenAt;
    forall k | 0 <= k < |s| ensures Since(t, s[k], i) == |s| - 1 - k { SinceStep(t, s[k], i); }
    forall j: nat ensures j in s <==> OpenAt(t, j, i) {
      OpenStep(t, j, i);
      if j < i - 1 { SinceStep(t, j, i); SinceOpen(t, j, i - 1); }
    }
  }

  /** A bracket that closes takes away the cluster opened last, and only that one. */
  lemma NestCloses(t: Text, i: nat, s: seq<nat>)
    requires 0 < i <= |t| && IsNest(t, i - 1, s) && t[i - 1].Close?
    ensures IsNest(t, i, if s == [] then s else s[..|s| - 1])
  {
    hide Since, OpenAt;
    var s' := if s == [] then s else s[..|s| - 1];
    forall k | 0 <= k < |s| ensures Since(t, s[k], i) == |s| - 2 - k { SinceStep(t, s[k], i); }
    forall k | 0 <= k < |s'| ensures s'[k] == s[k] {}
    forall j: nat ensures j in s' <==> OpenAt(t, j, i) { StillOpen(t, i, s, j); }
  }

  /** What stays open after a closing bracket: all but the cluster opened last. */
  lemma StillOpen(t: Text, i: nat, s: seq<nat>, j: nat)
    requires 0 < i <= |t| && t[i - 1].Close?
    requires forall k :: 0 <= k < |s| ==> s[k] < i - 1 && Since(t, s[k], i) == |s| - 2 - k
    requires (forall x, y :: 0 <= x < y < |s| ==> s[x] < s[y]) && (j in s <==> OpenAt(t, j, i - 1))
    ensures j in (if s == [] then s else s[..|s| - 1]) <==> OpenAt(t, j, i)
  {
    hide Since, OpenAt;
    OpenStep(t, j, i);
    var s' := if s == [] then s else s[..|s| - 1];
    if j in s {
      var k :| 0 <= k < |s| && s[k] == j;
      if k < |s| - 1 { assert s'[k] == j; }
    }
    if j in s' {
      var k :| 0 <= k < |s'| && s'[k] == j;
      assert s[k] == j;
    }
  }

  lemma SinceOpen(t: Text, j: nat, i: nat)
    requires j < i <= |t|
    ensures OpenAt(t, j, i) ==> Since(t, j, i) >= 0
  {
  }

  lemma StackStep(t: Text, i: nat)
    requires 0 < i <= |t|
    ensures var s := StackAt(t, i - 1);
      StackAt(t, i) == if t[i - 1].Cluster? then s + [i - 1] else if t[i - 1].Close? && s != [] then s[..|s| - 1] else s
  {
  }

  /** The cluster a line is directly inside. */
  function Innermost(t: Text, i: nat): (r: Option<nat>)
    requires i <= |t|
    ensures r.Some? ==> r.value < |t| && t[r.value].Cluster? && r.value < i
  {
    StackIsNest(t, i);
    var s := StackAt(t, i);
    if s == [] then None else Some(s[|s| - 1])
  }

  function InsideOf(t: Text, i: nat): Option<Gid>
    requires i <= |t|
  {
    var j := Innermost(t, i);
    if j.Some? then Some(t[j.value].gid) else None
  }

  // ---- the dictionaries

  datatype Dicts = Dicts(
    called: map<Gid, string>,
    parent: map<Gid, Option<Gid>>,
    children: map<Gid, seq<Gid>>,
    graphOf: map<Nid, Gid>,
    members: map<Gid, seq<Nid>>)

  function ListOf<T>(m: map<Gid, seq<T>>, g: Gid): seq<T> {
    if g in m then m[g] else []
  }

  ghost predicate ClustersDistinct(t: Text) {
    forall i, j :: 0 <= i < j < |t| && t[i].Cluster? && t[j].Cluster? ==> t[i].gid != t[j].gid
  }

  ghost predicate NodesDistinct(t: Text) {
    forall i, j :: 0 <= i < j < |t| && t[i].NodeLine? && t[j].NodeLine? ==> t[i].nid != t[j].nid
  }

  /** Clusters directly inside `g` opened before line `n`, in order. */
  function SubsOf(t: Text, g: Gid, n: nat): seq<Gid>
    requires n <= |t|
  {
    if n == 0 then []
    else SubsOf(t, g, n - 1) + if t[n - 1].Cluster? && InsideOf(t, n - 1) == Some(g) then [t[n - 1].gid] else []
  }

  function NodesOf(t: Text, g: Gid, n: nat): seq<Nid>
    requires n <= |t|
  {
    if n == 0 then []
    else NodesOf(t, g, n - 1) + if t[n - 1].NodeLine? && InsideOf(t, n - 1) == Some(g) then [t[n - 1].nid] else []
  }

  /** The first label line directly inside `g` before line `n`. */
  function LabelOf(t: Text, g: Gid, n: nat): Option<string>
    requires n <= |t|
  {
    if n == 0 then None
    else
      var before := LabelOf(t, g, n - 1);
      if before.None? && t[n - 1].Label? && InsideOf(t, n - 1) == Some(g) then Some(t[n - 1].text) else before
  }

  ghost predicate ReadsParents(t: Text, n: nat, d: Dicts)
    requires n <= |t|
  {
    && (forall g :: g in d.parent <==> exists i :: 0 <= i < n && t[i] == Cluster(g))
    && (forall i :: 0 <= i < n && t[i].Cluster? ==> t[i].gid in d.parent && d.parent[t[i].gid] == InsideOf(t, i))
  }

  ghost predicate ReadsNodes(t: Text, n: nat, d: Dicts)
    requires n <= |t|
  {
    && (forall x :: x in d.graphOf <==> exists i :: 0 <= i < n && t[i] == NodeLine(x) && InsideOf(t, i).Some?)
    && (forall i :: 0 <= i < n && t[i].NodeLine? && InsideOf(t, i).Some? ==>
          t[i].nid in d.graphOf && d.graphOf[t[i].nid] == InsideOf(t, i).value)
  }

  ghost predicate ReadsLists(t: Text, n: nat, d: Dicts)
    requires n <= |t|
  {
    && (forall g :: ListOf(d.children, g) == SubsOf(t, g, n))
    && (forall g :: ListOf(d.members, g) == NodesOf(t, g, n))
    && (forall g :: NameOf(d, g) == LabelOf(t, g, n))
  }

  function NameOf(d: Dicts, g: Gid): Option<string> {
    if g in d.called then Some(d.called[g]) else None
  }

  /** The dictionaries say of the first `n` lines exactly what their nesting says. */
  ghost predicate Reads(t: Text, n: nat, d: Dicts)
    requires n <= |t|
  {
    ReadsParents(t, n, d) && ReadsNodes(t, n, d) && ReadsLists(t, n, d)
  }

  /** One line read with `top` as the innermost open cluster. */
  function Feed(d: Dicts, line: Line, top: Option<Gid>): Dicts {
    match line
    case Cluster(g) =>
      var kids := d.children[g := ListOf(d.children, g)];
      Dicts(d.called, d.parent[g := top],
            if top.Some? then kids[top.value := ListOf(kids, top.value) + [g]] else kids,
            d.graphOf, d.members[g := ListOf(d.members, g)])
    case Label(text) => if top.Some? && top.value !in d.called then d.(called := d.called[top.value := text]) else d
    case NodeLine(x) =>
      if top.Some?
      then d.(graphOf := d.graphOf[x := top.value], members := d.members[top.value := ListOf(d.members, top.value) + [x]])
      else d
    case _ => d
  }

  lemma FeedMaps(d: Dicts, line: Line, top: Option<Gid>)
    ensures var d' := Feed(d, line, top);
      && d'.parent == (if line.Cluster? then d.parent[line.gid := top] else d.parent)
      && d'.graphOf == (if line.NodeLine? && top.Some? then d.graphOf[line.nid := top.value] else d.graphOf)
  {
  }

  lemma FeedParents(t: Text, n: nat, d: Dicts)
    requires n < |t| && ReadsParents(t, n, d) && ClustersDistinct(t)
    ensures ReadsParents(t, n + 1, Feed(d, t[n], InsideOf(t, n)))
  {
    hide InsideOf, Feed, ListOf;
    var d' := Feed(d, t[n], InsideOf(t, n));
    FeedMaps(d, t[n], InsideOf(t, n));
    forall g ensures g in d'.parent <==> exists i :: 0 <= i < n + 1 && t[i] == Cluster(g) {
      if g in d.parent { var i :| 0 <= i < n && t[i] == Cluster(g); }
      if t[n] == Cluster(g) { assert g in d'.parent; }
    }
  }

  lemma FeedNodes(t: Text, n: nat, d: Dicts)
    requires n < |t| && ReadsNodes(t, n, d) && NodesDistinct(t)
    ensures ReadsNodes(t, n + 1, Feed(d, t[n], InsideOf(t, n)))
  {
    hide InsideOf, Feed, ListOf;
    var d' := Feed(d, t[n], InsideOf(t, n));
    FeedMaps(d, t[n], InsideOf(t, n));
    forall x ensures x in d'.graphOf <==> exists i :: 0 <= i < n + 1 && t[i] == NodeLine(x) && InsideOf(t, i).Some? {
      if x in d.graphOf { var i :| 0 <= i < n && t[i] == NodeLine(x) && InsideOf(t, i).Some?; }
      if t[n] == NodeLine(x) && InsideOf(t, n).Some? { assert x in d'.graphOf; }
    }
  }

  /** What one line adds to the entries of graph `g`. */
  lemma FeedAdds(d: Dicts, line: Line, top: Option<Gid>, g: Gid)
    ensures var d' := Feed(d, line, top);
      && ListOf(d'.children, g) == ListOf(d.children, g) + (if line.Cluster? && top == Some(g) then [line.gid] else [])
      && ListOf(d'.members, g) == ListOf(d.members, g) + (if line.NodeLine? && top == Some(g) then [line.nid] else [])
      && NameOf(d', g) == (if NameOf(d, g).None? && line.Label? && top == Some(g) then Some(line.text) else NameOf(d, g))
  {
  }

  lemma FeedOneList(t: Text, n: nat, d: Dicts, g: Gid)
    requires n < |t| && ListOf(d.children, g) == SubsOf(t, g, n) && ListOf(d.members, g) == NodesOf(t, g, n)
    requires NameOf(d, g) == LabelOf(t, g, n)
    ensures var d' := Feed(d, t[n], InsideOf(t, n));
      && ListOf(d'.children, g) == SubsOf(t, g, n + 1) && ListOf(d'.members, g) == NodesOf(t, g, n + 1)
      && NameOf(d', g) == LabelOf(t, g, n + 1)
  {
    hide InsideOf, Feed, ListOf, NameOf;
    FeedAdds(d, t[n], InsideOf(t, n), g);
  }

  lemma FeedLists(t: Text, n: nat, d: Dicts)
    requires n < |t| && ReadsLists(t, n, d)
    ensures ReadsLists(t, n + 1, Feed(d, t[n], InsideOf(t, n)))
  {
    hide InsideOf, Feed, SubsOf, NodesOf, LabelOf, ListOf, NameOf;
    var d' := Feed(d, t[n], InsideOf(t, n));
    forall g
      ensures ListOf(d'.children, g) == SubsOf(t, g, n + 1) && ListOf(d'.members, g) == NodesOf(t, g, n + 1)
      ensures NameOf(d', g) == LabelOf(t, g, n + 1)
    {
      FeedOneList(t, n, d, g);
    }
  }

  // ---- the edges

  datatype Edges = Edges(
    ins: map<Use, Nid>,
    outs: map<Nid, seq<Use>>,
    port: map<PortName, Nid>,
    exitSrc: map<Gid, Nid>)

  function At<K, V>(m: map<K, V>, k: K): Option<V> {
    if k in m then Some(m[k]) else None
  }

  function FeedEdge(e: Edges, d: Dicts, line: Line, top: Option<Gid>): Edges {
    if top.None? then e else
    match line
    case DataEdge(x, u) => e.(ins := e.ins[u := x], outs := e.outs[x := ListOf(e.outs, x) + [u]])
    case PortEdge(k, n) => e.(port := e.port[k := n])
    case ExitEdge(x, n) => e.(exitSrc := e.exitSrc[(if n in d.graphOf then d.graphOf[n] else top.value) := x])
    case _ => e
  }

  predicate IsEdge(t: Text, i: nat)
    requires i < |t|
  {
    t[i].DataEdge? && InsideOf(t, i).Some?
  }

  /** The source of the last edge before line `n` that fills input `u`. */
  function SourceOf(t: Text, u: Use, n: nat): Option<Nid>
    requires n <= |t|
  {
    if n == 0 then None
    else if IsEdge(t, n - 1) && t[n - 1].use == u then Some(t[n - 1].src)
    else SourceOf(t, u, n - 1)
  }

  /** The inputs node `x` feeds, in the order of the lines. */
  function UsesOf(t: Text, x: Nid, n: nat): seq<Use>
    requires n <= |t|
  {
    if n == 0 then []
    else UsesOf(t, x, n - 1) + if IsEdge(t, n - 1) && t[n - 1].src == x then [t[n - 1].use] else []
  }

  function PortNode(t: Text, k: PortName, n: nat): Option<Nid>
    requires n <= |t|
  {
    if n == 0 then None
    else if t[n - 1].PortEdge? && t[n - 1].key == k && InsideOf(t, n - 1).Some? then Some(t[n - 1].port)
    else PortNode(t, k, n - 1)
  }

  /** The graph node `x` was declared in before line `n`. */
  function GraphOf(t: Text, x: Nid, n: nat): Option<Gid>
    requires n <= |t|
  {
    if n == 0 then None
    else if t[n - 1] == NodeLine(x) && InsideOf(t, n - 1).Some? then InsideOf(t, n - 1)
    else GraphOf(t, x, n - 1)
  }

  /** The graph an exit edge speaks about: that of its exit node, or the one the line is in if the
      node is not declared yet. */
  function ExitGraph(t: Text, i: nat): Option<Gid>
    requires i < |t|
  {
    if !t[i].ExitEdge? || InsideOf(t, i).None? then None
    else if GraphOf(t, t[i].exit, i).Some? then GraphOf(t, t[i].exit, i)
    else InsideOf(t, i)
  }

  function ResultOf(t: Text, g: Gid, n: nat): Option<Nid>
    requires n <= |t|
  {
    if n == 0 then None
    else if ExitGraph(t, n - 1) == Some(g) then Some(t[n - 1].result)
    else ResultOf(t, g, n - 1)
  }

  ghost predicate ReadsEdges(t: Text, n: nat, e: Edges)
    requires n <= |t|
  {
    && (forall u :: At(e.ins, u) == SourceOf(t, u, n))
    && (forall x :: ListOf(e.outs, x) == UsesOf(t, x, n))
    && (forall k :: At(e.port, k) == PortNode(t, k, n))
    && (forall g :: At(e.exitSrc, g) == ResultOf(t, g, n))
  }

  lemma {:induction false} GraphOfIs(t: Text, x: Nid, n: nat, d: Dicts)
    requires n <= |t| && ReadsNodes(t, n, d) && NodesDistinct(t)
    ensures At(d.graphOf, x) == GraphOf(t, x, n)
  {
    hide InsideOf;
    DeclaredAt(t, x, n);
    if i :| 0 <= i < n && t[i] == NodeLine(x) && InsideOf(t, i).Some? { assert d.graphOf[x] == InsideOf(t, i).value; }
  }

  lemma {:induction false} DeclaredAt(t: Text, x: Nid, n: nat)
    requires n <= |t| && NodesDistinct(t)
    ensures GraphOf(t, x, n).Some? <==> exists i :: 0 <= i < n && t[i] == NodeLine(x) && InsideOf(t, i).Some?
    ensures forall i :: 0 <= i < n && t[i] == NodeLine(x) && InsideOf(t, i).Some? ==> GraphOf(t, x, n) == InsideOf(t, i)
  {
    hide InsideOf;
    if n > 0 { DeclaredAt(t, x, n - 1); }
  }

  /** What one line adds to the entries asked for. */
  lemma FeedEdgeAdds(e: Edges, d: Dicts, line: Line, top: Option<Gid>, u: Use, x: Nid, k: PortName, g: Gid)
    ensures var e' := FeedEdge(e, d, line, top);
      && At(e'.ins, u) == (if top.Some? && line.DataEdge? && line.use == u then Some(line.src) else At(e.ins, u))
      && ListOf(e'.outs, x) == ListOf(e.outs, x) + (if top.Some? && line.DataEdge? && line.src == x then [line.use] else [])
      && At(e'.port, k) == (if top.Some? && line.PortEdge? && line.key == k then Some(line.port) else At(e.port, k))
      && At(e'.exitSrc, g) ==
           (if top.Some? && line.ExitEdge? && (if line.exit in d.graphOf then d.graphOf[line.exit] else top.value) == g
            then Some(line.result) else At(e.exitSrc, g))
  {
  }

  lemma FeedEdges(t: Text, n: nat, d: Dicts, e: Edges)
    requires n < |t| && ReadsNodes(t, n, d) && NodesDistinct(t) && ReadsEdges(t, n, e)
    ensures ReadsEdges(t, n + 1, FeedEdge(e, d, t[n], InsideOf(t, n)))
  {
    hide InsideOf, FeedEdge, ListOf, ReadsNodes, GraphOf, SourceOf, UsesOf, PortNode, ResultOf;
    var e' := FeedEdge(e, d, t[n], InsideOf(t, n));
    if t[n].ExitEdge? { GraphOfIs(t, t[n].exit, n, d); }
    forall u ensures At(e'.ins, u) == SourceOf(t, u, n + 1) { FeedOneEdge(t, n, d, e, u, "", NO_PORT, ""); }
    forall x ensures ListOf(e'.outs, x) == UsesOf(t, x, n + 1) { FeedOneEdge(t, n, d, e, NO_USE, x, NO_PORT, ""); }
    forall k ensures At(e'.port, k) == PortNode(t, k, n + 1) { FeedOneEdge(t, n, d, e, NO_USE, "", k, ""); }
    forall g ensures At(e'.exitSrc, g) == ResultOf(t, g, n + 1) { FeedOneEdge(t, n, d, e, NO_USE, "", NO_PORT, g); }
  }

  const NO_USE := Use("", "", 0)
  const NO_PORT := PortName("", "", 0)

  lemma FeedOneEdge(t: Text, n: nat, d: Dicts, e: Edges, u: Use, x: Nid, k: PortName, g: Gid)
    requires n < |t| && ReadsEdges(t, n, e)
    requires t[n].ExitEdge? ==> At(d.graphOf, t[n].exit) == GraphOf(t, t[n].exit, n)
    ensures var e' := FeedEdge(e, d, t[n], InsideOf(t, n));
      && At(e'.ins, u) == SourceOf(t, u, n + 1) && ListOf(e'.outs, x) == UsesOf(t, x, n + 1)
      && At(e'.port, k) == PortNode(t, k, n + 1) && At(e'.exitSrc, g) == ResultOf(t, g, n + 1)
  {
    hide InsideOf, FeedEdge, ListOf, GraphOf;
    FeedEdgeAdds(e, d, t[n], InsideOf(t, n), u, x, k, g);
  }

  /** The reader's stack of names, as the lines that opened them. */
  ghost predicate NamesStack(t: Text, i: nat, stack: seq<Gid>)
    requires i <= |t|
  {
    var s := StackAt(t, i);
    |stack| == |s| && forall k :: 0 <= k < |s| ==> s[k] < |t| && t[s[k]] == Cluster(stack[k])
  }

  function TopOf(stack: seq<Gid>): Option<Gid> {
    if stack == [] then None else Some(stack[|stack| - 1])
  }

  function Moved(stack: seq<Gid>, line: Line): seq<Gid> {
    if line.Cluster? then stack + [line.gid]
    else if line.Close? && stack != [] then stack[..|stack| - 1]
    else stack
  }

  lemma StackMoves(t: Text, i: nat, stack: seq<Gid>)
    requires i < |t| && NamesStack(t, i, stack)
    ensures TopOf(stack) == InsideOf(t, i) && NamesStack(t, i + 1, Moved(stack, t[i]))
  {
  }

  class StepGraph {
    var d: Dicts
    var e: Edges
    ghost const text: Text

    ghost predicate Valid()
      reads this
    {
      ClustersDistinct(text) && NodesDistinct(text) && Reads(text, |text|, d) && ReadsEdges(text, |text|, e)
    }

    constructor (t: Text)
      requires ClustersDistinct(t) && NodesDistinct(t)
      ensures text == t && Valid()
    {
      text := t;
      d, e := Dicts(map[], map[], map[], map[], map[]), Edges(map[], map[], map[], map[]);
      new;
      hide ReadsParents, ReadsNodes, ReadsLists, ReadsEdges, NamesStack, Feed, FeedEdge, InsideOf;
      NothingRead(t);
      var stack: seq<Gid> := [];
      for i := 0 to |t|
        invariant text == t && Reads(t, i, d) && ReadsEdges(t, i, e) && NamesStack(t, i, stack)
      {
        StackMoves(t, i, stack);
        FeedParents(t, i, d);
        FeedNodes(t, i, d);
        FeedLists(t, i, d);
        FeedEdges(t, i, d, e);
        e := FeedEdge(e, d, t[i], TopOf(stack));
        d := Feed(d, t[i], TopOf(stack));
        stack := Moved(stack, t[i]);
      }
    }

    /** The sources of one kind of input of node `n`, in slot order. */
    method Inputs(n: Nid, kind: string) returns (sources: seq<Nid>, slots: seq<nat>)
      ensures |sources| == |slots| && Increasing(slots)
      ensures forall i :: 0 <= i < |slots| ==> At(e.ins, Use(n, kind, slots[i])) == Some(sources[i])
      ensures forall j: nat :: Use(n, kind, j) in e.ins ==> j in slots
    {
      var todo := set u | u in e.ins && u.to == n && u.kind == kind :: u.slot;
      assert forall j: nat :: Use(n, kind, j) in e.ins ==> Use(n, kind, j).slot in todo;
      sources, slots := [], [];
      while todo != {}
        invariant |sources| == |slots| && Increasing(slots)
        invariant forall i :: 0 <= i < |slots| ==> At(e.ins, Use(n, kind, slots[i])) == Some(sources[i])
        invariant forall j: nat :: j in todo ==> Use(n, kind, j) in e.ins
        invariant forall i, j :: 0 <= i < |slots| && j in todo ==> slots[i] < j
        invariant forall j: nat :: Use(n, kind, j) in e.ins ==> j in slots || j in todo
      {
        var least := Least(todo);
        todo := todo - {least};
        sources, slots := sources + [e.ins[Use(n, kind, least)]], slots + [least];
      }
    }

    /** The graph called `name` as seen from graph `frm`. */
    method Resolve(name: string, frm: Gid) returns (r: Option<Gid>)
      requires Valid()
      ensures Nearest(text, name, frm, r)
    {
      hide Nearest;
      hide ReadsParents, ReadsNodes, ReadsLists, ReadsEdges, ClustersDistinct, Scopes, HereCalled, Height, OnlyCalled;
      var g := Some(frm);
      ghost var seen: seq<Gid> := [];
      while g.Some?
        invariant seen + Outward(text, d, g) == Scopes(text, d, frm)
        invariant forall k :: 0 <= k < |seen| ==> HereCalled(d, name, seen[k]).None?
        decreases g.Some?, if g.Some? then Height(text, g.value, |text|) else 0
      {
        ScopesUnfold(text, d, g.value);
        OuterIsLower(text, d, g.value);
        var here := HereCalled(d, name, g.value);
        if here.Some? {
          assert Scopes(text, d, frm)[|seen|] == g.value;
          NearestMeans(text, d, name, frm, here);
          return here;
        }
        seen := seen + [g.value];
        g := ParentOf(d, g.value);
      }
      assert seen == Scopes(text, d, frm);
      r := Only(d, name);
      NearestMeans(text, d, name, frm, r);
    }
  }

  ghost predicate Increasing(xs: seq<nat>) {
    forall i, j :: 0 <= i < j < |xs| ==> xs[i] < xs[j]
  }

  method Least(s: set<nat>) returns (m: nat)
    requires s != {}
    ensures m in s && forall x :: x in s ==> m <= x
  {
    m :| m in s;
    var rest := s - {m};
    while rest != {}
      invariant rest <= s && m in s && forall x :: x in s && x !in rest ==> m <= x
    {
      var x :| x in rest;
      if x < m { m := x; }
      rest := rest - {x};
    }
  }

  /** The only graph called `name`, if there is just one. */
  method Only(d: Dicts, name: string) returns (r: Option<Gid>)
    ensures OnlyCalled(d, name, r)
  {
    var found := set x | x in d.called && d.called[x] == name;
    r := None;
    if |found| == 1 {
      var x :| x in found;
      SingletonIs(found, x);
      assert forall g :: IsCalled(d, g, name) ==> g in found;
      r := Some(x);
    } else {
      forall g | IsCalled(d, g, name) ensures exists g' :: IsCalled(d, g', name) && g' != g {
        assert g in found;
        assert found != {g};
        var g' :| g' in found && g' != g;
        assert IsCalled(d, g', name);
      }
    }
  }

  lemma NothingRead(t: Text)
    ensures Reads(t, 0, Dicts(map[], map[], map[], map[], map[])) && NamesStack(t, 0, [])
    ensures ReadsEdges(t, 0, Edges(map[], map[], map[], map[]))
  {
  }

  lemma SingletonIs(s: set<Gid>, x: Gid)
    requires |s| == 1 && x in s
    ensures s == {x}
  {
    assert |s - {x}| == 0;
    assert s - {x} == {};
  }

  // ---- lexical lookup

  function ParentOf(d: Dicts, g: Gid): Option<Gid> {
    if g in d.parent then d.parent[g] else None
  }

  /** One more than the line that opens `g`, or 0. */
  function Height(t: Text, g: Gid, n: nat): nat
    requires n <= |t|
  {
    if n == 0 then 0 else if t[n - 1] == Cluster(g) then n else Height(t, g, n - 1)
  }

  lemma {:induction false} HeightIs(t: Text, i: nat, n: nat)
    requires i < n <= |t| && t[i].Cluster? && ClustersDistinct(t)
    ensures Height(t, t[i].gid, n) == i + 1
  {
    if i < n - 1 { HeightIs(t, i, n - 1); }
  }

  /** A graph is opened after the one around it, so looking outwards ends. */
  lemma OuterIsLower(t: Text, d: Dicts, g: Gid)
    requires ClustersDistinct(t) && Reads(t, |t|, d)
    ensures ParentOf(d, g).Some? ==> Height(t, ParentOf(d, g).value, |t|) < Height(t, g, |t|)
  {
    if ParentOf(d, g).Some? {
      var i :| 0 <= i < |t| && t[i] == Cluster(g);
      var j := Innermost(t, i).value;
      HeightIs(t, i, |t|);
      HeightIs(t, j, |t|);
    }
  }

  /** `g` and the graphs around it, from the inside out. */
  ghost function Scopes(t: Text, d: Dicts, g: Gid): (s: seq<Gid>)
    requires ClustersDistinct(t) && Reads(t, |t|, d)
    ensures s != [] && s[0] == g
    decreases Height(t, g, |t|)
  {
    OuterIsLower(t, d, g);
    if ParentOf(d, g).Some? then [g] + Scopes(t, d, ParentOf(d, g).value) else [g]
  }

  /** The scopes still to be looked at. */
  ghost function Outward(t: Text, d: Dicts, g: Option<Gid>): seq<Gid>
    requires ClustersDistinct(t) && Reads(t, |t|, d)
  {
    if g.Some? then Scopes(t, d, g.value) else []
  }

  lemma ScopesUnfold(t: Text, d: Dicts, g: Gid)
    requires ClustersDistinct(t) && Reads(t, |t|, d)
    ensures Scopes(t, d, g) == [g] + Outward(t, d, ParentOf(d, g))
  {
  }

  predicate IsCalled(d: Dicts, g: Gid, name: string) {
    g in d.called && d.called[g] == name
  }

  function FirstCalled(d: Dicts, gs: seq<Gid>, name: string): Option<Gid> {
    if gs == [] then None else if IsCalled(d, gs[0], name) then Some(gs[0]) else FirstCalled(d, gs[1..], name)
  }

  /** What `name` means directly in `g`: a graph written in it, else `g` itself. */
  function HereCalled(d: Dicts, name: string, g: Gid): Option<Gid> {
    var child := FirstCalled(d, ListOf(d.children, g), name);
    if child.Some? then child else if IsCalled(d, g, name) then Some(g) else None
  }

  /** The innermost scope that knows the name decides; if none does, the only graph of that name. */
  ghost predicate IsNearest(d: Dicts, name: string, scopes: seq<Gid>, r: Option<Gid>) {
    || (exists k :: 0 <= k < |scopes| && r.Some? && HereCalled(d, name, scopes[k]) == r
          && forall j :: 0 <= j < k ==> HereCalled(d, name, scopes[j]).None?)
    || ((forall k :: 0 <= k < |scopes| ==> HereCalled(d, name, scopes[k]).None?) && OnlyCalled(d, name, r))
  }

  ghost predicate OnlyCalled(d: Dicts, name: string, r: Option<Gid>) {
    if r.Some? then IsCalled(d, r.value, name) && forall g :: IsCalled(d, g, name) ==> g == r.value
    else forall g :: IsCalled(d, g, name) ==> exists g' :: IsCalled(d, g', name) && g' != g
  }

  // ---- lookup, from the text alone

  /** The first label line directly inside graph `g` says `name`. */
  ghost predicate Named(t: Text, g: Gid, name: string) {
    LabelOf(t, g, |t|) == Some(name)
  }

  /** Graph `g` is written directly inside `h`. */
  ghost predicate Around(t: Text, g: Gid, h: Gid) {
    exists i :: 0 <= i < |t| && t[i] == Cluster(g) && InsideOf(t, i) == Some(h)
  }

  ghost predicate Outermost(t: Text, g: Gid) {
    forall h :: !Around(t, g, h)
  }

  /** `frm` and what is around it, outwards to a graph with nothing around it. */
  ghost predicate Outwards(t: Text, frm: Gid, scopes: seq<Gid>) {
    && scopes != [] && scopes[0] == frm
    && (forall k :: 0 < k < |scopes| ==> Around(t, scopes[k - 1], scopes[k]))
    && Outermost(t, scopes[|scopes| - 1])
  }

  /** `r` is the first graph of that name written directly inside `g`. */
  ghost predicate FirstInside(t: Text, g: Gid, name: string, r: Gid) {
    var subs := SubsOf(t, g, |t|);
    exists i :: 0 <= i < |subs| && subs[i] == r && Named(t, r, name) && forall j :: 0 <= j < i ==> !Named(t, subs[j], name)
  }

  ghost predicate NoneInside(t: Text, g: Gid, name: string) {
    forall x :: x in SubsOf(t, g, |t|) ==> !Named(t, x, name)
  }

  /** What `name` means in scope `g`: a graph written in it first, and only else `g` itself. */
  ghost predicate Answers(t: Text, g: Gid, name: string, r: Gid) {
    FirstInside(t, g, name, r) || (NoneInside(t, g, name) && Named(t, g, name) && r == g)
  }

  ghost predicate Silent(t: Text, g: Gid, name: string) {
    NoneInside(t, g, name) && !Named(t, g, name)
  }

  ghost predicate AllSilent(t: Text, scopes: seq<Gid>, n: nat, name: string) {
    n <= |scopes| && forall j :: 0 <= j < n ==> Silent(t, scopes[j], name)
  }

  /** The only graph of that name in the text, or none if there is none or more than one. */
  ghost predicate TheOnly(t: Text, name: string, r: Option<Gid>) {
    if r.Some? then Named(t, r.value, name) && forall g :: Named(t, g, name) ==> g == r.value
    else forall g :: Named(t, g, name) ==> exists g' :: Named(t, g', name) && g' != g
  }

  /** What `name` means as seen from `frm`: what it means in the nearest scope that knows it, else the
      only graph of that name. */
  ghost predicate Nearest(t: Text, name: string, frm: Gid, r: Option<Gid>) {
    exists scopes :: Outwards(t, frm, scopes)
      && ((r.Some? && exists k :: 0 <= k < |scopes| && Answers(t, scopes[k], name, r.value) && AllSilent(t, scopes, k, name))
          || (AllSilent(t, scopes, |scopes|, name) && TheOnly(t, name, r)))
  }

  lemma NamedIs(t: Text, d: Dicts, g: Gid, name: string)
    requires ReadsLists(t, |t|, d)
    ensures IsCalled(d, g, name) <==> Named(t, g, name)
    ensures ListOf(d.children, g) == SubsOf(t, g, |t|)
  {
    hide LabelOf, SubsOf, NodesOf;
    assert NameOf(d, g) == LabelOf(t, g, |t|);
  }

  lemma {:induction false} FirstCalledIs(d: Dicts, gs: seq<Gid>, name: string)
    ensures FirstCalled(d, gs, name).None? ==> forall x :: x in gs ==> !IsCalled(d, x, name)
    ensures FirstCalled(d, gs, name).Some? ==>
      exists i :: 0 <= i < |gs| && gs[i] == FirstCalled(d, gs, name).value && IsCalled(d, gs[i], name)
                  && forall j :: 0 <= j < i ==> !IsCalled(d, gs[j], name)
  {
    if gs != [] && !IsCalled(d, gs[0], name) {
      FirstCalledIs(d, gs[1..], name);
      if FirstCalled(d, gs[1..], name).Some? {
        var i :| 0 <= i < |gs[1..]| && gs[1..][i] == FirstCalled(d, gs[1..], name).value && IsCalled(d, gs[1..][i], name)
                 && forall j :: 0 <= j < i ==> !IsCalled(d, gs[1..][j], name);
        forall j | 0 <= j < i + 1 ensures !IsCalled(d, gs[j], name) { if j > 0 { assert gs[1..][j - 1] == gs[j]; } }
        assert gs[i + 1] == gs[1..][i];
      }
    }
  }

  lemma HereMeans(t: Text, d: Dicts, g: Gid, name: string)
    requires ReadsLists(t, |t|, d)
    ensures HereCalled(d, name, g).Some? ==> Answers(t, g, name, HereCalled(d, name, g).value)
    ensures HereCalled(d, name, g).None? ==> Silent(t, g, name)
  {
    hide LabelOf, SubsOf, NodesOf, Named, IsCalled, FirstCalled, ReadsLists, ListOf;
    forall x ensures IsCalled(d, x, name) <==> Named(t, x, name) { NamedIs(t, d, x, name); }
    NamedIs(t, d, g, name);
    FirstCalledIs(d, ListOf(d.children, g), name);
  }

  lemma ParentMeans(t: Text, d: Dicts, g: Gid, h: Gid)
    requires ClustersDistinct(t) && ReadsParents(t, |t|, d)
    ensures ParentOf(d, g) == Some(h) <==> Around(t, g, h)
  {
    hide InsideOf;
    if ParentOf(d, g) == Some(h) { var i :| 0 <= i < |t| && t[i] == Cluster(g); }
  }

  lemma {:induction false} ScopesMean(t: Text, d: Dicts, g: Gid)
    requires ClustersDistinct(t) && Reads(t, |t|, d)
    ensures Outwards(t, g, Scopes(t, d, g))
    decreases Height(t, g, |t|)
  {
    hide ReadsLists, ReadsNodes, Around, Height;
    forall h ensures ParentOf(d, g) == Some(h) <==> Around(t, g, h) { ParentMeans(t, d, g, h); }
    OuterIsLower(t, d, g);
    ScopesUnfold(t, d, g);
    if ParentOf(d, g).Some? {
      var rest := Scopes(t, d, ParentOf(d, g).value);
      ScopesMean(t, d, ParentOf(d, g).value);
      assert Scopes(t, d, g) == [g] + rest;
      forall k | 0 < k < |rest| + 1 ensures Around(t, ([g] + rest)[k - 1], ([g] + rest)[k]) {
        if k > 1 { assert Around(t, rest[k - 2], rest[k - 1]); }
      }
    }
  }

  lemma OnlyMeans(t: Text, d: Dicts, name: string, r: Option<Gid>)
    requires ReadsLists(t, |t|, d) && OnlyCalled(d, name, r)
    ensures TheOnly(t, name, r)
  {
    hide LabelOf, SubsOf, NodesOf, Named, IsCalled, ReadsLists;
    forall x ensures IsCalled(d, x, name) <==> Named(t, x, name) { NamedIs(t, d, x, name); }
  }

  /** The lookup through the dictionaries is the lookup in the text. */
  lemma NearestMeans(t: Text, d: Dicts, name: string, frm: Gid, r: Option<Gid>)
    requires ClustersDistinct(t) && Reads(t, |t|, d) && IsNearest(d, name, Scopes(t, d, frm), r)
    ensures Nearest(t, name, frm, r)
  {
    hide ReadsLists, ReadsNodes, ReadsParents, ClustersDistinct, HereCalled, Answers, Silent, OnlyCalled, TheOnly, Outwards, Scopes;
    var scopes := Scopes(t, d, frm);
    ScopesMean(t, d, frm);
    forall k | 0 <= k < |scopes|
      ensures HereCalled(d, name, scopes[k]).Some? ==> Answers(t, scopes[k], name, HereCalled(d, name, scopes[k]).value)
      ensures HereCalled(d, name, scopes[k]).None? ==> Silent(t, scopes[k], name)
    {
      HereMeans(t, d, scopes[k], name);
    }
    if OnlyCalled(d, name, r) { OnlyMeans(t, d, name, r); }
    if k :| 0 <= k < |scopes| && r.Some? && HereCalled(d, name, scopes[k]) == r && forall j :: 0 <= j < k ==> HereCalled(d, name, scopes[j]).None? {
      assert AllSilent(t, scopes, k, name);
    } else {
      assert AllSilent(t, scopes, |scopes|, name);
    }
  }

  // ---- a forest

  lemma {:induction false} SubsAre(t: Text, g: Gid, n: nat, x: Gid)
    requires n <= |t|
    ensures x in SubsOf(t, g, n) <==> exists i :: 0 <= i < n && t[i] == Cluster(x) && InsideOf(t, i) == Some(g)
  {
    hide InsideOf;
    if n > 0 { SubsAre(t, g, n - 1, x); }
  }

  lemma {:induction false} MembersAre(t: Text, g: Gid, n: nat, x: Nid)
    requires n <= |t|
    ensures x in NodesOf(t, g, n) <==> exists i :: 0 <= i < n && t[i] == NodeLine(x) && InsideOf(t, i) == Some(g)
  {
    hide InsideOf;
    if n > 0 { MembersAre(t, g, n - 1, x); }
  }

  /** Parents and children agree, every node is a member of its own graph and no other, and a graph
      is never inside itself however far out one looks. */
  lemma IsForest(t: Text, d: Dicts, g: Gid, h: Gid, x: Nid)
    requires ClustersDistinct(t) && NodesDistinct(t) && Reads(t, |t|, d)
    ensures g in ListOf(d.children, h) <==> g in d.parent && d.parent[g] == Some(h)
    ensures x in ListOf(d.members, h) <==> x in d.graphOf && d.graphOf[x] == h
    ensures ParentOf(d, g).Some? ==> g !in Scopes(t, d, ParentOf(d, g).value)
  {
    hide InsideOf, SubsOf, NodesOf, LabelOf, Scopes, ReadsLists;
    ListsAre(t, d, h);
    SubsAre(t, h, |t|, g);
    MembersAre(t, h, |t|, x);
    if ParentOf(d, g).Some? { NeverInsideItself(t, d, g); }
  }

  lemma ListsAre(t: Text, d: Dicts, h: Gid)
    requires ReadsLists(t, |t|, d)
    ensures ListOf(d.children, h) == SubsOf(t, h, |t|) && ListOf(d.members, h) == NodesOf(t, h, |t|)
  {
  }

  lemma NeverInsideItself(t: Text, d: Dicts, g: Gid)
    requires ClustersDistinct(t) && Reads(t, |t|, d) && ParentOf(d, g).Some?
    ensures g !in Scopes(t, d, ParentOf(d, g).value)
  {
    OuterIsLower(t, d, g);
    var p := ParentOf(d, g).value;
    if g in Scopes(t, d, p) { ScopesLower(t, d, p, g); }
  }

  lemma {:induction false} ScopesLower(t: Text, d: Dicts, g: Gid, x: Gid)
    requires ClustersDistinct(t) && Reads(t, |t|, d) && x in Scopes(t, d, g)
    ensures Height(t, x, |t|) <= Height(t, g, |t|)
    decreases Height(t, g, |t|)
  {
    OuterIsLower(t, d, g);
    if x != g { ScopesLower(t, d, ParentOf(d, g).value, x); }
  }

  // ---- the two sides of an edge

  lemma {:induction false} UsesAre(t: Text, x: Nid, u: Use, n: nat)
    requires n <= |t|
    ensures u in UsesOf(t, x, n) <==> exists i :: 0 <= i < n && IsEdge(t, i) && t[i] == DataEdge(x, u)
  {
    hide InsideOf;
    if n > 0 { UsesAre(t, x, u, n - 1); }
  }

  lemma {:induction false} SourceIs(t: Text, u: Use, n: nat)
    requires n <= |t|
    ensures SourceOf(t, u, n).Some? ==>
      exists i :: 0 <= i < n && IsEdge(t, i) && t[i] == DataEdge(SourceOf(t, u, n).value, u)
    ensures forall i :: 0 <= i < n && IsEdge(t, i) && t[i].use == u ==> SourceOf(t, u, n).Some?
  {
    hide InsideOf;
    if n > 0 { SourceIs(t, u, n - 1); }
  }

  /** No input is filled from two different sources. */
  ghost predicate OneSource(t: Text) {
    forall i, j :: 0 <= i < |t| && 0 <= j < |t| && IsEdge(t, i) && IsEdge(t, j) && t[i].use == t[j].use ==>
      t[i].src == t[j].src
  }

  ghost predicate Mirrored(e: Edges) {
    forall x, u :: u in ListOf(e.outs, x) <==> At(e.ins, u) == Some(x)
  }

  /** Consumers and sources list the same edges exactly when no input is filled twice differently. */
  lemma EdgesMirror(t: Text, e: Edges)
    requires ReadsEdges(t, |t|, e)
    ensures Mirrored(e) <==> OneSource(t)
  {
    hide InsideOf, SourceOf, UsesOf, ListOf, PortNode, ResultOf;
    forall x, u ensures u in UsesOf(t, x, |t|) <==> exists i :: 0 <= i < |t| && IsEdge(t, i) && t[i] == DataEdge(x, u) {
      UsesAre(t, x, u, |t|);
    }
    if OneSource(t) {
      forall x, u ensures u in ListOf(e.outs, x) <==> At(e.ins, u) == Some(x) { SourceIs(t, u, |t|); }
    }
    if Mirrored(e) {
      forall i, j | 0 <= i < |t| && 0 <= j < |t| && IsEdge(t, i) && IsEdge(t, j) && t[i].use == t[j].use
        ensures t[i].src == t[j].src
      {
        assert t[i] == DataEdge(t[i].src, t[i].use) && t[j] == DataEdge(t[j].src, t[j].use);
        assert t[i].use in ListOf(e.outs, t[i].src) && t[j].use in ListOf(e.outs, t[j].src);
        assert At(e.ins, t[i].use) == Some(t[i].src) && At(e.ins, t[i].use) == Some(t[j].src);
      }
    }
  }
}
