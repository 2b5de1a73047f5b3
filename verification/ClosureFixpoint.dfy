/** The closure fixpoint: repeated passes over a table of access-path entries that grows while it
    is read. It terminates and leaves the least solution, whatever order a pass visits keys in. */
module ClosureFixpoint {
  import opened Wrappers
  import opened FlowGraph
  import opened ClosureSpec

  // ---- the finite universe of entries

  function Labels(g: Graph): set<Key> {
    set n | n in g.node && g.node[n].kind.Accs? :: g.node[n].kind.key
  }

  /** All paths over `labels` of length at most `n`. */
  function Paths(labels: set<Key>, n: nat): set<Path> {
    if n == 0 then {[]}
    else Paths(labels, n - 1) + set p, k | p in Paths(labels, n - 1) && k in labels :: [k] + p
  }

  lemma PathsStep(labels: set<Key>, n: nat, p: Path)
    requires n > 0
    ensures p in Paths(labels, n) <==>
      p in Paths(labels, n - 1) || (p != [] && p[0] in labels && p[1..] in Paths(labels, n - 1))
  {
    forall q, k | q in Paths(labels, n - 1) && k in labels && p == [k] + q ensures p[0] == k && p[1..] == q {}
    if p != [] { assert p == [p[0]] + p[1..]; }
  }

  lemma {:induction false} PathsComplete(labels: set<Key>, n: nat, p: Path)
    ensures p in Paths(labels, n) <==> |p| <= n && forall i :: 0 <= i < |p| ==> p[i] in labels
  {
    if n > 0 {
      hide Paths;
      PathsStep(labels, n, p);
      PathsComplete(labels, n - 1, p);
      if p != [] {
        PathsComplete(labels, n - 1, p[1..]);
        assert forall i :: 0 < i < |p| ==> p[i] == p[1..][i - 1];
      }
    }
  }

  function Universe(g: Graph): set<MemoKey> {
    set n, p | n in g.node && p in Paths(Labels(g), MAX_PATH + 1) :: (n, p)
  }

  lemma InUniverse(g: Graph, k: MemoKey)
    ensures k in Universe(g) <==>
      k.0 in g.node && |k.1| <= MAX_PATH + 1 && forall i :: 0 <= i < |k.1| ==> k.1[i] in Labels(g)
  {
    PathsComplete(Labels(g), MAX_PATH + 1, k.1);
  }

  lemma ReadsInUniverse(g: Graph, m: Memo, k: MemoKey)
    requires WellFormed(g) && k in Universe(g)
    ensures Reads(g, m, k) <= Universe(g)
  {
    InUniverse(g, k);
    assert NodeOk(g, k.0);
    forall r | r in Reads(g, m, k) ensures r in Universe(g) {
      InUniverse(g, r);
      SourceIsNear(g, m, k, r);
    }
  }

  lemma SeedInside(g: Graph, r: MemoKey)
    requires WellFormed(g) && r in Seeds(g)
    ensures r.0 in g.node && r.1 == []
  {
    var c :| c in Calls(g) && g.node[c].withs != [] && r == (g.node[c].withs[0], []);
    assert NodeOk(g, c);
  }

  lemma ControlsAreSeeds(g: Graph, n: NodeId)
    requires n in g.node
    ensures Controls(g, n) <= Seeds(g)
  {
    if g.node[n].kind.Call? { assert n in Calls(g); }
  }

  lemma PortSourceIsNear(g: Graph, m: Memo, p: PortKey, path: Path, r: MemoKey)
    requires WellFormed(g) && r in PortSources(g, m, p, path)
    ensures r.0 in g.node && r.1 == path
  {
    if s :| s in FuncSites(g, p.graph) && p.index < |FuncArgs(g, s, p.kind)|
            && r == (FuncArgs(g, s, p.kind)[p.index], path) {
      assert NodeOk(g, s);
    } else {
      var c :| c in Calls(g) && MayCall(g, m, c, p.graph) && p.index < |CallArgs(g, c, p.kind)|
               && r == (CallArgs(g, c, p.kind)[p.index], path);
      assert NodeOk(g, c);
    }
  }

  /** An entry read for `k` is at a node of the graph, and its path is a suffix of `k`'s or one
      access longer. */
  lemma SourceIsNear(g: Graph, m: Memo, k: MemoKey, r: MemoKey)
    requires WellFormed(g) && k.0 in g.node && r in Reads(g, m, k)
    ensures r.0 in g.node
    ensures r.1 == [] || r.1 == k.1 || r.1 == Tail(k.1)
            || exists a :: a in Labels(g) && r.1 == [a] + k.1
  {
    assert NodeOk(g, k.0);
    if r in Controls(g, k.0) {
      ControlsAreSeeds(g, k.0);
      SeedInside(g, r);
    } else {
      match g.node[k.0].kind
      case Port(slot) => PortSourceIsNear(g, m, slot.value, k.1, r);
      case ClosurePort =>
        var j := IndexIn(CPorts(g, g.node[k.0].graph), k.0);
        var f :| f in FillsOf(g, g.node[k.0].graph) && j < |g.node[f].withs| && r == (g.node[f].withs[j], k.1);
        assert NodeOk(g, f);
      case _ =>
    }
  }

  // ---- opening entries

  /** `m` with an empty entry for every key of `ks` it does not have. */
  function Opened(m: Memo, ks: set<MemoKey>): Memo {
    m + map k | k in ks - m.Keys :: {}
  }

  lemma OpenedSame(g: Graph, m: Memo, ks: set<MemoKey>, k: MemoKey)
    requires k.0 in g.node
    ensures Below(m, Opened(m, ks))
    ensures Sources(g, Opened(m, ks), k.0, k.1) == Sources(g, m, k.0, k.1)
    ensures Reads(g, Opened(m, ks), k) == Reads(g, m, k)
    ensures Step(g, Opened(m, ks), k) == Step(g, m, k)
  {
    var m' := Opened(m, ks);
    assert forall s :: Look(m', s) == Look(m, s);
    assert forall c, h :: MayCall(g, m', c, h) == MayCall(g, m, c, h);
    if g.node[k.0].kind.Port? && g.node[k.0].kind.slot.Some? {
      var p := g.node[k.0].kind.slot.value;
      assert PortSources(g, m', p, k.1) == PortSources(g, m, p, k.1);
    }
    assert Union(m', Sources(g, m, k.0, k.1)) == Union(m, Sources(g, m, k.0, k.1));
  }

  lemma OpenedMore(m: Memo, ks: set<MemoKey>, k: MemoKey)
    ensures Opened(Opened(m, ks), {k}) == Opened(m, ks + {k})
    ensures Look(Opened(m, ks), k) == Look(m, k)
    ensures k in Opened(m, ks) <==> k in m || k in ks
    ensures Union(m, ks + {k}) == Union(m, ks) + Look(m, k)
  {
    hide Union;
    assert Opened(Opened(m, ks), {k}).Keys == Opened(m, ks + {k}).Keys;
    UnionMore(m, ks, k);
  }

  lemma UnionMore(m: Memo, ks: set<MemoKey>, k: MemoKey)
    ensures Union(m, ks + {k}) == Union(m, ks) + Look(m, k)
  {
  }

  lemma OpenedTwice(m: Memo, ks: set<MemoKey>, ks': set<MemoKey>)
    ensures Opened(Opened(m, ks), ks') == Opened(m, ks + ks')
    ensures ks' <= Opened(m, ks).Keys + m.Keys <==> ks' <= m.Keys + ks
    ensures Union(Opened(m, ks), ks') == Union(m, ks')
  {
    hide Union;
    assert Opened(Opened(m, ks), ks').Keys == Opened(m, ks + ks').Keys;
    SameUnion(Opened(m, ks), m, ks');
  }

  lemma SameUnion(m: Memo, m': Memo, ks: set<MemoKey>)
    requires forall k :: Look(m, k) == Look(m', k)
    ensures Union(m, ks) == Union(m', ks)
  {
    forall h ensures h in Union(m, ks) <==> h in Union(m', ks) {
      assert forall k :: k in ks && h in Look(m, k) <==> k in ks && h in Look(m', k);
    }
  }

  // ---- what every pass keeps

  ghost predicate BelowImage(g: Graph, m: Memo) {
    KeysInside(g, m) && forall k :: k in m ==> m[k] <= Step(g, m, k)
  }

  ghost predicate Bounded(g: Graph, m: Memo) {
    m.Keys <= Universe(g) && forall k :: k in m ==> m[k] <= ClosureGraphs(g)
  }

  ghost predicate Invariant(g: Graph, m: Memo) {
    Bounded(g, m) && BelowImage(g, m) && Seeds(g) <= m.Keys && BelowEverySolution(g, m)
  }

  lemma BoundedInside(g: Graph, m: Memo)
    requires Bounded(g, m)
    ensures KeysInside(g, m)
  {
    forall k | k in m ensures k.0 in g.node { InUniverse(g, k); }
  }

  /** Opening the entries an evaluation reads keeps the invariant. */
  lemma OpenKeeps(g: Graph, m: Memo, k: MemoKey)
    requires WellFormed(g) && Invariant(g, m) && k in m
    ensures Invariant(g, Opened(m, Reads(g, m, k)))
  {
    var m' := Opened(m, Reads(g, m, k));
    ReadsInUniverse(g, m, k);
    BoundedInside(g, m');
    forall s | Solution(g, s) ensures Below(m', s) {
      StepMonotone(g, m, s, k);
    }
    forall x | x in m' ensures m'[x] <= Step(g, m', x) {
      if x in m { OpenedSame(g, m, Reads(g, m, k), x); }
    }
  }

  lemma StepBounded(g: Graph, m: Memo, k: MemoKey)
    requires Bounded(g, m) && k.0 in g.node
    ensures Step(g, m, k) <= ClosureGraphs(g)
  {
    forall h | h in Step(g, m, k) ensures h in ClosureGraphs(g) {
      if ClosureTarget(g, k.0).Some? {
        assert h == ClosureTarget(g, k.0).value;
      } else {
        var s :| s in Sources(g, m, k.0, k.1) && h in Look(m, s);
      }
    }
  }

  /** Replacing an entry by its re-evaluation keeps the invariant and only adds to it. */
  lemma ImproveKeeps(g: Graph, m: Memo, k: MemoKey)
    requires WellFormed(g) && Invariant(g, m) && k in m
    ensures var m' := m[k := m[k] + Step(g, m, k)];
      Below(m, m') && Invariant(g, m')
  {
    var m' := m[k := m[k] + Step(g, m, k)];
    assert m'.Keys == m.Keys;
    StepBounded(g, m, k);
    forall x | x in m' ensures m'[x] <= Step(g, m', x) { StepMonotone(g, m, m', x); }
    forall s | Solution(g, s) ensures Below(m', s) { StepMonotone(g, m, s, k); }
  }

  function Facts(m: Memo): set<(MemoKey, GraphId)> {
    set k, h | k in m && h in m[k] :: (k, h)
  }

  function AllFacts(g: Graph): set<(MemoKey, GraphId)> {
    set k, h | k in Universe(g) && h in ClosureGraphs(g) :: (k, h)
  }

  lemma FactsGrow(m: Memo, m': Memo, k: MemoKey)
    requires Below(m, m') && k in m && m[k] != m'[k]
    ensures Facts(m) < Facts(m')
  {
    assert forall h :: h in m'[k] ==> h in m'[k] - m[k] || h in m[k];
    var h :| h in m'[k] - m[k];
    assert (k, h) in Facts(m') - Facts(m);
  }

  lemma FactsInside(g: Graph, m: Memo)
    requires Bounded(g, m)
    ensures Facts(m) <= AllFacts(g)
  {
  }

  /** The table after entry `k` has been evaluated once more. */
  function Visited(g: Graph, m: Memo, k: MemoKey): Memo
    requires k.0 in g.node && k in m
  {
    Opened(m, Reads(g, m, k))[k := m[k] + Step(g, m, k)]
  }

  lemma VisitKeeps(g: Graph, m: Memo, k: MemoKey)
    requires WellFormed(g) && Invariant(g, m) && k in m
    ensures k.0 in g.node && Invariant(g, Visited(g, m, k)) && Below(m, Visited(g, m, k))
  {
    BoundedInside(g, m);
    var m' := Opened(m, Reads(g, m, k));
    OpenKeeps(g, m, k);
    OpenedSame(g, m, Reads(g, m, k), k);
    ImproveKeeps(g, m', k);
    assert Visited(g, m, k) == m'[k := m'[k] + Step(g, m', k)];
  }

  lemma VisitGrows(g: Graph, m: Memo, k: MemoKey)
    requires WellFormed(g) && Invariant(g, m) && k in m && k.0 in g.node
    ensures Visited(g, m, k).Keys == m.Keys + Reads(g, m, k)
    ensures Facts(m) <= Facts(Visited(g, m, k))
    ensures Step(g, m, k) != m[k] ==> Facts(m) < Facts(Visited(g, m, k))
    ensures Step(g, m, k) == m[k] && Reads(g, m, k) <= m.Keys ==> Visited(g, m, k) == m && Settled(g, m, k)
  {
    hide Step, Reads, BelowEverySolution, Bounded, Seeds;
    VisitKeeps(g, m, k);
    var m' := Visited(g, m, k);
    assert m[k] <= Step(g, m, k);
    assert m'[k] == Step(g, m, k);
    if Step(g, m, k) != m[k] { FactsGrow(m, m', k); }
    if Reads(g, m, k) <= m.Keys { assert Reads(g, m, k) - m.Keys == {}; }
  }

  ghost predicate HasCutKey(m: Memo) {
    exists k :: k in m && Cut(k.1)
  }

  /** Entry `k` is settled: everything it reads is there and evaluating it adds nothing. */
  ghost predicate Settled(g: Graph, m: Memo, k: MemoKey) {
    k in m && k.0 in g.node && Reads(g, m, k) <= m.Keys && Step(g, m, k) == m[k]
  }

  class Resolver {
    const g: Graph
    var memo: Memo
    var overflow: bool
    var dirty: bool

    constructor (g: Graph)
      requires WellFormed(g)
      ensures this.g == g
      ensures LeastSolution(g, memo) && (forall k :: k in memo ==> Settled(g, memo, k))
      ensures overflow <==> HasCutKey(memo)
    {
      this.g := g;
      memo, overflow, dirty := map[], false, false;
      new;
      Fixpoint();
    }

    method Get(k: MemoKey) returns (r: set<GraphId>)
      modifies `memo, `dirty
      ensures memo == Opened(old(memo), {k}) && r == Look(old(memo), k)
      ensures dirty == (old(dirty) || k !in old(memo))
    {
      if k !in memo {
        memo := memo[k := {}];
        dirty := true;
      }
      r := memo[k];
    }

    method GetAll(ks: set<MemoKey>) returns (out: set<GraphId>)
      modifies `memo, `dirty
      ensures memo == Opened(old(memo), ks) && out == Union(old(memo), ks)
      ensures dirty == (old(dirty) || !(ks <= old(memo).Keys))
    {
      out := {};
      var todo := ks;
      ghost var done: set<MemoKey> := {};
      while todo != {}
        invariant done + todo == ks
        invariant memo == Opened(old(memo), done) && out == Union(old(memo), done)
        invariant dirty == (old(dirty) || !(done <= old(memo).Keys))
      {
        var k :| k in todo;
        OpenedMore(old(memo), done, k);
        var r := Get(k);
        todo, out := todo - {k}, out + r;
        done := done + {k};
      }
      assert done == ks;
    }

    method Evaluate(k: MemoKey) returns (out: set<GraphId>)
      requires k.0 in g.node
      modifies `memo, `dirty, `overflow
      ensures out == Step(g, old(memo), k)
      ensures memo == Opened(old(memo), Reads(g, old(memo), k))
      ensures dirty == (old(dirty) || !(Reads(g, old(memo), k) <= old(memo).Keys))
      ensures overflow == (old(overflow) || Cut(k.1))
    {
      if Cut(k.1) {
        overflow := true;
        return {};
      }
      var controls := Controls(g, k.0);
      var _ := GetAll(controls);
      if ClosureTarget(g, k.0).Some? {
        return if k.1 == [] then {ClosureTarget(g, k.0).value} else {};
      }
      OpenedSame(g, old(memo), controls, k);
      OpenedTwice(old(memo), controls, Sources(g, old(memo), k.0, k.1));
      out := GetAll(Sources(g, memo, k.0, k.1));
    }

    /** Re-evaluates one entry. */
    method Visit(key: MemoKey) returns (improved: bool)
      requires key in memo && key.0 in g.node
      modifies `memo, `dirty, `overflow
      ensures memo == Visited(g, old(memo), key)
      ensures improved == (Step(g, old(memo), key) != old(memo)[key])
      ensures dirty == (old(dirty) || !(Reads(g, old(memo), key) <= old(memo).Keys))
      ensures overflow == (old(overflow) || Cut(key.1))
    {
      var found := Evaluate(key);
      improved := found != memo[key];
      assert memo[key] + memo[key] == memo[key];
      assert memo == memo[key := memo[key]];
      if improved {
        memo := memo[key := memo[key] + found];
      }
    }

    /** One pass over the entries that are there when it starts, in any order. */
    method Pass() returns (changed: bool)
      requires WellFormed(g) && Invariant(g, memo)
      modifies `memo, `dirty, `overflow
      ensures Invariant(g, memo) && old(memo).Keys <= memo.Keys && Facts(old(memo)) <= Facts(memo)
      ensures dirty ==> old(memo).Keys < memo.Keys
      ensures changed ==> Facts(old(memo)) < Facts(memo)
      ensures !changed && !dirty ==> forall k :: k in memo ==> Settled(g, memo, k)
      ensures overflow ==> old(overflow) || exists k :: k in memo && Cut(k.1)
      ensures !dirty ==> forall k :: k in memo && Cut(k.1) ==> overflow
    {
      hide *;
      changed, dirty := false, false;
      var pending := memo.Keys;
      while pending != {}
        invariant pending <= old(memo).Keys <= memo.Keys
        invariant Invariant(g, memo)
        invariant dirty == (old(memo).Keys != memo.Keys)
        invariant Facts(old(memo)) <= Facts(memo) && (changed ==> Facts(old(memo)) != Facts(memo))
        invariant changed || dirty || memo == old(memo)
        invariant changed || dirty || forall k :: k in memo && k !in pending ==> Settled(g, memo, k)
        invariant overflow ==> old(overflow) || exists k :: k in memo && Cut(k.1)
        invariant forall k :: k in old(memo) && k !in pending && Cut(k.1) ==> overflow
      {
        var key :| key in pending;
        pending := pending - {key};
        VisitKeeps(g, memo, key);
        VisitGrows(g, memo, key);
        var improved := Visit(key);
        changed := changed || improved;
      }
    }

    method Fixpoint()
      requires WellFormed(g) && memo == map[] && !overflow
      modifies `memo, `dirty, `overflow
      ensures LeastSolution(g, memo) && (forall k :: k in memo ==> Settled(g, memo, k))
      ensures overflow <==> HasCutKey(memo)
    {
      var seeds := Seeds(g);
      var _ := GetAll(seeds);
      SeedsBounded(g, memo);
      var again := true;
      while again
        invariant Invariant(g, memo)
        invariant overflow ==> HasCutKey(memo)
        invariant !again ==> forall k :: k in memo ==> Settled(g, memo, k)
        invariant !again && HasCutKey(memo) ==> overflow
        decreases again, Universe(g) - memo.Keys, AllFacts(g) - Facts(memo)
      {
        ghost var before := memo;
        var changed := Pass();
        FactsInside(g, before);
        FactsInside(g, memo);
        again := changed || dirty;
      }
      assert Solution(g, memo);
    }
  }

  lemma SeedsBounded(g: Graph, m: Memo)
    requires WellFormed(g) && m.Keys == Seeds(g) && forall k :: k in m ==> m[k] == {}
    ensures Invariant(g, m)
  {
    forall k | k in m ensures k in Universe(g) {
      SeedInside(g, k);
      InUniverse(g, k);
    }
    BoundedInside(g, m);
  }
}
