/** Walks over a phase report: phases in the order they opened, each with its nesting depth. */
module Phases {
  import opened Wrappers

  datatype Cost = Cost(wallNs: int, allocations: int, allocBytes: int) {
    function Plus(c: Cost): Cost { Cost(wallNs + c.wallNs, allocations + c.allocations, allocBytes + c.allocBytes) }
    function Minus(c: Cost): Cost { Cost(wallNs - c.wallNs, allocations - c.allocations, allocBytes - c.allocBytes) }
  }

  const ZERO := Cost(0, 0, 0)

  /** An absent detail is the empty string; an absent cost is zero. */
  datatype Phase = Phase(name: string, detail: string, depth: nat, cost: Cost)

  type Report = seq<Phase>

  function KindOf(p: Phase): string {
    if p.name == "pass" then p.name + ":" + p.detail else p.name
  }

  // ---- the stack

  function Truncate(stack: seq<nat>, depth: nat): seq<nat> {
    if depth < |stack| then stack[..depth] else stack
  }

  /** The stack when phase `i` opens, cut back to its depth. */
  function StackAt(ps: Report, i: nat): (s: seq<nat>)
    requires i < |ps|
    ensures forall k :: 0 <= k < |s| ==> s[k] < i
    ensures s == [] <==> i == 0 || ps[i].depth == 0
  {
    if i == 0 then [] else Truncate(StackAt(ps, i - 1) + [i - 1], ps[i].depth)
  }

  function ParentOf(ps: Report, i: nat): Option<nat>
    requires i < |ps|
  {
    var s := StackAt(ps, i);
    if s == [] then None else Some(s[|s| - 1])
  }

  /** What one phase opening at a time can produce. */
  ghost predicate WellNested(ps: Report) {
    (ps != [] ==> ps[0].depth == 0) && forall i :: 0 < i < |ps| ==> ps[i].depth <= ps[i - 1].depth + 1
  }

  /** Phase `j` is still open when phase `i` opens. */
  ghost predicate Encloses(ps: Report, j: nat, i: nat)
    requires i < |ps|
  {
    j < i && forall k :: j < k <= i ==> ps[j].depth < ps[k].depth
  }

  /** In a well-nested report the stack is exactly the chain of enclosing phases, one per depth. */
  lemma {:induction false} StackIsChain(ps: Report, i: nat)
    requires WellNested(ps) && i < |ps|
    ensures |StackAt(ps, i)| == ps[i].depth
    ensures forall k :: 0 <= k < |StackAt(ps, i)| ==> ps[StackAt(ps, i)[k]].depth == k
    ensures forall j :: j in StackAt(ps, i) <==> Encloses(ps, j, i)
  {
    if i > 0 {
      StackIsChain(ps, i - 1);
      ChainStep(ps, i, StackAt(ps, i - 1));
    }
  }

  lemma ChainStep(ps: Report, i: nat, s: seq<nat>)
    requires 0 < i < |ps| && |s| == ps[i - 1].depth && ps[i].depth <= ps[i - 1].depth + 1
    requires forall k :: 0 <= k < |s| ==> s[k] < i && ps[s[k]].depth == k
    requires forall j :: j in s <==> Encloses(ps, j, i - 1)
    ensures var s' := Truncate(s + [i - 1], ps[i].depth);
      && |s'| == ps[i].depth
      && (forall k :: 0 <= k < |s'| ==> s'[k] < i && ps[s'[k]].depth == k)
      && (forall j :: j in s' <==> Encloses(ps, j, i))
  {
    hide Encloses;
    var before := s + [i - 1];
    forall j: nat ensures j in Truncate(before, ps[i].depth) <==> Encloses(ps, j, i) {
      EnclosesStep(ps, j, i);
      CutByDepth(ps, before, ps[i].depth, j);
      if j >= i - 1 { NotAfter(ps, j, i - 1); }
      if j >= i { NotAfter(ps, j, i); }
    }
  }

  lemma NotAfter(ps: Report, j: nat, i: nat)
    requires i < |ps| && j >= i
    ensures !Encloses(ps, j, i)
  {
  }

  lemma EnclosesStep(ps: Report, j: nat, i: nat)
    requires 0 < i < |ps|
    ensures j < i ==> (Encloses(ps, j, i) <==> (j == i - 1 || Encloses(ps, j, i - 1)) && ps[j].depth < ps[i].depth)
  {
  }

  /** Cutting a stack with one phase per depth keeps exactly the shallower phases. */
  lemma CutByDepth(ps: Report, stack: seq<nat>, depth: nat, j: nat)
    requires forall k :: 0 <= k < |stack| ==> stack[k] < |ps| && ps[stack[k]].depth == k
    requires depth <= |stack|
    ensures j in Truncate(stack, depth) <==> j in stack && j < |ps| && ps[j].depth < depth
  {
    if j in stack {
      var k :| 0 <= k < |stack| && stack[k] == j;
      if k < depth { assert Truncate(stack, depth)[k] == j; }
    }
    if j in Truncate(stack, depth) {
      var k :| 0 <= k < depth && Truncate(stack, depth)[k] == j;
      assert stack[k] == j;
    }
  }

  /** The parent of a phase is the innermost phase that encloses it. */
  lemma ParentIsInnermost(ps: Report, i: nat, j: nat)
    requires WellNested(ps) && i < |ps|
    ensures ParentOf(ps, i) == Some(j) <==> Encloses(ps, j, i) && forall k: nat :: Encloses(ps, k, i) ==> k <= j
  {
    hide Encloses;
    StackIsChain(ps, i);
    var s := StackAt(ps, i);
    StackRises(ps, i);
    if s != [] {
      var last := s[|s| - 1];
      assert last in s;
      forall k: nat | Encloses(ps, k, i) ensures k <= last {
        assert k in s;
        var m :| 0 <= m < |s| && s[m] == k;
      }
    }
  }

  lemma {:induction false} StackRises(ps: Report, i: nat)
    requires i < |ps|
    ensures forall a, b :: 0 <= a < b < |StackAt(ps, i)| ==> StackAt(ps, i)[a] < StackAt(ps, i)[b]
  {
    if i > 0 { StackRises(ps, i - 1); }
  }

  /** Phases are told apart by name, and passes by what they are a pass of; only a phase whose own name
      spells a pass is taken for that pass. */
  lemma KindsTell(p: Phase, q: Phase)
    ensures KindOf(p) == KindOf(q) <==>
      || (p.name == q.name && (p.name == "pass" ==> p.detail == q.detail))
      || (p.name != "pass" && q.name == "pass" && p.name == "pass:" + q.detail)
      || (q.name != "pass" && p.name == "pass" && q.name == "pass:" + p.detail)
  {
    assert forall x: string :: "pass" + ":" + x == "pass:" + x;
    assert ("pass:" + p.detail)[5..] == p.detail && ("pass:" + q.detail)[5..] == q.detail;
    assert |"pass:" + p.detail| > 4 && |"pass:" + q.detail| > 4;
  }

  // ---- self costs

  /** The total of the phases before `n` directly inside phase `p`. */
  function InnerCost(ps: Report, p: nat, n: nat): Cost
    requires n <= |ps|
  {
    if n == 0 then ZERO
    else if ParentOf(ps, n - 1) == Some(p) then InnerCost(ps, p, n - 1).Plus(ps[n - 1].cost)
    else InnerCost(ps, p, n - 1)
  }

  /** The cost of a phase without the phases inside it. */
  function SelfCost(ps: Report, i: nat): Cost
    requires i < |ps|
  {
    ps[i].cost.Minus(InnerCost(ps, i, |ps|))
  }

  datatype Row = Row(cost: Cost, count: nat)

  /** Self cost and number of the first `n` phases of one kind. */
  function KindRow(ps: Report, kind: string, n: nat): Row
    requires n <= |ps|
  {
    if n == 0 then Row(ZERO, 0)
    else
      var r := KindRow(ps, kind, n - 1);
      if KindOf(ps[n - 1]) == kind then Row(r.cost.Plus(SelfCost(ps, n - 1)), r.count + 1) else r
  }

  /** Direct costs attributed to enclosing phases, one entry per phase. */
  method InnerCosts(ps: Report) returns (inner: seq<Cost>)
    ensures |inner| == |ps| && forall p :: 0 <= p < |ps| ==> inner[p] == InnerCost(ps, p, |ps|)
  {
    inner := seq(|ps|, i => ZERO);
    var stack: seq<nat> := [];
    for i := 0 to |ps|
      invariant |inner| == |ps| && forall p :: 0 <= p < |ps| ==> inner[p] == InnerCost(ps, p, i)
      invariant stack == if i == 0 then [] else StackAt(ps, i - 1) + [i - 1]
    {
      stack := Truncate(stack, ps[i].depth);
      assert stack == StackAt(ps, i);
      if stack != [] {
        var parent := stack[|stack| - 1];
        inner := inner[parent := inner[parent].Plus(ps[i].cost)];
      }
      stack := stack + [i];
    }
  }

  /** Phase kind to self cost: each phase minus the phases inside it. */
  method SelfCosts(ps: Report) returns (out: map<string, Row>)
    ensures forall kind :: kind in out <==> exists i :: 0 <= i < |ps| && KindOf(ps[i]) == kind
    ensures forall kind :: kind in out ==> out[kind] == KindRow(ps, kind, |ps|)
  {
    hide InnerCost, KindOf;
    var inner := InnerCosts(ps);
    out := map[];
    for i := 0 to |ps|
      invariant forall kind :: kind in out <==> exists j :: 0 <= j < i && KindOf(ps[j]) == kind
      invariant forall kind :: RowOf(out, kind) == KindRow(ps, kind, i)
    {
      var kind := KindOf(ps[i]);
      var row := RowOf(out, kind);
      ghost var before := out;
      out := out[kind := Row(row.cost.Plus(ps[i].cost.Minus(inner[i])), row.count + 1)];
      forall k ensures RowOf(out, k) == KindRow(ps, k, i + 1) {
        assert RowOf(before, k) == KindRow(ps, k, i);
      }
    }
    assert forall kind :: kind in out ==> out[kind] == RowOf(out, kind);
  }

  function RowOf(out: map<string, Row>, kind: string): Row {
    if kind in out then out[kind] else Row(ZERO, 0)
  }

  // ---- conservation

  function SumRows(rows: map<string, Row>, keys: seq<string>): Row
    requires forall k :: k in keys ==> k in rows
  {
    if keys == [] then Row(ZERO, 0)
    else var r := SumRows(rows, keys[1..]);
         Row(rows[keys[0]].cost.Plus(r.cost), rows[keys[0]].count + r.count)
  }

  /** Self costs of the first `n` phases, whatever their kind. */
  function SelfTotal(ps: Report, n: nat): Cost
    requires n <= |ps|
  {
    if n == 0 then ZERO else SelfTotal(ps, n - 1).Plus(SelfCost(ps, n - 1))
  }

  /** Costs of the phases with no enclosing phase: the first one and every one at depth 0. */
  function TopTotal(ps: Report, n: nat): Cost
    requires n <= |ps|
  {
    if n == 0 then ZERO
    else if n - 1 == 0 || ps[n - 1].depth == 0 then TopTotal(ps, n - 1).Plus(ps[n - 1].cost)
    else TopTotal(ps, n - 1)
  }

  function GrossTotal(ps: Report, n: nat): Cost
    requires n <= |ps|
  {
    if n == 0 then ZERO else GrossTotal(ps, n - 1).Plus(ps[n - 1].cost)
  }

  /** The inner costs of phases below `p`, from the first `n` phases. */
  function InnerTotal(ps: Report, p: nat, n: nat): Cost
    requires n <= |ps|
  {
    if p == 0 then ZERO else InnerTotal(ps, p - 1, n).Plus(InnerCost(ps, p - 1, n))
  }

  /** One more phase adds its cost to exactly one entry, or to none if nothing encloses it. */
  lemma {:induction false} InnerTotalStep(ps: Report, p: nat, n: nat)
    requires 0 < n <= |ps|
    ensures InnerTotal(ps, p, n) ==
      var parent := ParentOf(ps, n - 1);
      if parent.Some? && parent.value < p then InnerTotal(ps, p, n - 1).Plus(ps[n - 1].cost) else InnerTotal(ps, p, n - 1)
  {
    if p > 0 { InnerTotalStep(ps, p - 1, n); }
  }

  lemma {:induction false} InnerTotalIs(ps: Report, n: nat)
    requires n <= |ps|
    ensures InnerTotal(ps, |ps|, n) == GrossTotal(ps, n).Minus(TopTotal(ps, n))
  {
    if n == 0 {
      NoInnerYet(ps, |ps|);
    } else {
      InnerTotalIs(ps, n - 1);
      InnerTotalStep(ps, |ps|, n);
    }
  }

  lemma {:induction false} NoInnerYet(ps: Report, p: nat)
    ensures InnerTotal(ps, p, 0) == ZERO
  {
    if p > 0 { NoInnerYet(ps, p - 1); }
  }

  lemma {:induction false} SelfIsGrossMinusInner(ps: Report, n: nat)
    requires n <= |ps|
    ensures SelfTotal(ps, n) == GrossTotal(ps, n).Minus(InnerTotal(ps, n, |ps|))
  {
    if n > 0 { SelfIsGrossMinusInner(ps, n - 1); }
  }

  /** Nothing is lost or counted twice: self costs add up to what ran with nothing around it. */
  lemma SelfCostConserved(ps: Report)
    ensures SelfTotal(ps, |ps|) == TopTotal(ps, |ps|)
  {
    SelfIsGrossMinusInner(ps, |ps|);
    InnerTotalIs(ps, |ps|);
  }

  /** `keys` names every kind of the report once. */
  ghost predicate NamesKinds(ps: Report, n: nat, keys: seq<string>)
    requires n <= |ps|
  {
    && (forall i, j :: 0 <= i < j < |keys| ==> keys[i] != keys[j])
    && (forall i :: 0 <= i < n ==> KindOf(ps[i]) in keys)
  }

  /** Rows of the first `n` phases summed over a list of kinds. */
  function SumKinds(ps: Report, n: nat, keys: seq<string>): Row
    requires n <= |ps|
  {
    if keys == [] then Row(ZERO, 0)
    else var r := SumKinds(ps, n, keys[1..]);
         var k := KindRow(ps, keys[0], n);
         Row(k.cost.Plus(r.cost), k.count + r.count)
  }

  lemma {:induction false} SumKindsStep(ps: Report, n: nat, keys: seq<string>)
    requires 0 < n <= |ps| && forall i, j :: 0 <= i < j < |keys| ==> keys[i] != keys[j]
    ensures SumKinds(ps, n, keys) ==
      var r := SumKinds(ps, n - 1, keys);
      if KindOf(ps[n - 1]) in keys then Row(r.cost.Plus(SelfCost(ps, n - 1)), r.count + 1) else r
  {
    if keys != [] { SumKindsStep(ps, n, keys[1..]); }
  }

  lemma {:induction false} SumKindsIs(ps: Report, n: nat, keys: seq<string>)
    requires n <= |ps| && NamesKinds(ps, n, keys)
    ensures SumKinds(ps, n, keys) == Row(SelfTotal(ps, n), n)
  {
    hide SumKinds, SelfCost, KindOf;
    if n == 0 {
      NoKindsYet(ps, keys);
    } else {
      SumKindsIs(ps, n - 1, keys);
      SumKindsStep(ps, n, keys);
    }
  }

  lemma {:induction false} NoKindsYet(ps: Report, keys: seq<string>)
    ensures SumKinds(ps, 0, keys) == Row(ZERO, 0)
  {
    if keys != [] { NoKindsYet(ps, keys[1..]); }
  }

  lemma {:induction false} SumRowsIs(ps: Report, rows: map<string, Row>, keys: seq<string>)
    requires forall k :: k in keys ==> k in rows && rows[k] == KindRow(ps, k, |ps|)
    ensures SumRows(rows, keys) == SumKinds(ps, |ps|, keys)
  {
    if keys != [] { SumRowsIs(ps, rows, keys[1..]); }
  }

  /** Summed over all kinds, the self costs are the cost of the outermost phases, and the counts
      are the number of phases, for every report whatever its depths. */
  lemma SelfCostsConserved(ps: Report, out: map<string, Row>, keys: seq<string>)
    requires forall kind :: kind in out <==> exists i :: 0 <= i < |ps| && KindOf(ps[i]) == kind
    requires forall kind :: kind in out ==> out[kind] == KindRow(ps, kind, |ps|)
    requires (forall i, j :: 0 <= i < j < |keys| ==> keys[i] != keys[j]) && forall k :: k in keys <==> k in out
    ensures SumRows(out, keys) == Row(TopTotal(ps, |ps|), |ps|)
  {
    SumRowsIs(ps, out, keys);
    SumKindsIs(ps, |ps|, keys);
    SelfCostConserved(ps);
  }

  // ---- modules a pass caused to be compiled

  function Roots(ps: Report): set<string> {
    set i | 0 <= i < |ps| && ps[i].name == "library" && ps[i].detail != "" :: ps[i].detail
  }

  /** The phase itself names a library a pass loaded. */
  predicate NamesRoot(ps: Report, i: nat)
    requires i < |ps|
  {
    (ps[i].name == "library" || ps[i].name == "gct") && ps[i].detail in Roots(ps)
  }

  /** The phase or one on the stack when it opens names such a library. */
  ghost predicate PassLoaded(ps: Report, i: nat)
    requires i < |ps|
  {
    NamesRoot(ps, i) || exists a :: a in StackAt(ps, i) && NamesRoot(ps, a)
  }

  /** Phase `i` compiles module `m` on behalf of a pass. */
  ghost predicate LoadsAt(ps: Report, i: nat, m: string) {
    i < |ps| && ps[i].name == "gct" && ps[i].detail == m && m != "" && PassLoaded(ps, i)
  }

  /** What is below a phase on the stack was the stack when that phase opened, for every report. */
  lemma {:induction false} StackBelow(ps: Report, i: nat, k: nat)
    requires i < |ps| && k < |StackAt(ps, i)|
    ensures StackAt(ps, i)[..k] == StackAt(ps, StackAt(ps, i)[k])
  {
    var before := StackAt(ps, i - 1);
    assert StackAt(ps, i) == (before + [i - 1])[..|StackAt(ps, i)|];
    if k < |before| {
      StackBelow(ps, i - 1, k);
      assert StackAt(ps, i)[..k] == before[..k];
    } else {
      assert StackAt(ps, i)[..k] == before;
    }
  }

  /** A phase is inside a marked one exactly when something on the stack names a root. */
  lemma InsideMeans(ps: Report, i: nat)
    requires i < |ps|
    ensures (exists a :: a in StackAt(ps, i) && PassLoaded(ps, a)) <==> exists a :: a in StackAt(ps, i) && NamesRoot(ps, a)
  {
    hide StackAt, NamesRoot;
    if a :| a in StackAt(ps, i) && PassLoaded(ps, a) {
      if !NamesRoot(ps, a) {
        var k :| 0 <= k < |StackAt(ps, i)| && StackAt(ps, i)[k] == a;
        StackBelow(ps, i, k);
        var b :| b in StackAt(ps, a) && NamesRoot(ps, b);
        assert b in StackAt(ps, i)[..k];
      }
    }
  }

  /** Phase `a` is the library or compile phase of a module for which there is a library phase. */
  ghost predicate OfLibrary(ps: Report, a: nat) {
    && a < |ps| && ps[a].detail != "" && (ps[a].name == "library" || ps[a].name == "gct")
    && exists k :: 0 <= k < |ps| && ps[k].name == "library" && ps[k].detail == ps[a].detail
  }

  /** In a well-nested report, a phase is marked exactly when it or a phase around it is the library or
      compile phase of a library that a pass loaded. */
  lemma MarkedMeans(ps: Report, i: nat)
    requires WellNested(ps) && i < |ps|
    ensures PassLoaded(ps, i) <==> OfLibrary(ps, i) || exists a: nat :: Encloses(ps, a, i) && OfLibrary(ps, a)
  {
    hide NamesRoot, OfLibrary;
    StackIsChain(ps, i);
    forall a: nat | a < |ps| ensures NamesRoot(ps, a) <==> OfLibrary(ps, a) { RootIs(ps, a); }
    if a: nat :| Encloses(ps, a, i) && OfLibrary(ps, a) { assert a in StackAt(ps, i); }
    if a :| a in StackAt(ps, i) && NamesRoot(ps, a) { assert Encloses(ps, a, i); }
  }

  lemma RootIs(ps: Report, a: nat)
    requires a < |ps|
    ensures NamesRoot(ps, a) <==> OfLibrary(ps, a)
  {
    if ps[a].detail in Roots(ps) {
      var k :| 0 <= k < |ps| && ps[k].name == "library" && ps[k].detail != "" && ps[k].detail == ps[a].detail;
    }
    if OfLibrary(ps, a) {
      var k :| 0 <= k < |ps| && ps[k].name == "library" && ps[k].detail == ps[a].detail;
      assert ps[k].detail in Roots(ps);
    }
  }

  /** `loaded` lists, once each and in order of first appearance, the modules loaded before `n`. */
  ghost predicate FirstLoads(ps: Report, n: nat, loaded: seq<string>)
    requires n <= |ps|
  {
    && (forall i, j :: 0 <= i < j < |loaded| ==> loaded[i] != loaded[j])
    && (forall m :: m in loaded <==> exists i :: 0 <= i < n && LoadsAt(ps, i, m))
    && (forall a, b :: 0 <= a < b < |loaded| ==> LoadedEarlier(ps, loaded[a], loaded[b]))
  }

  ghost predicate LoadedEarlier(ps: Report, x: string, y: string) {
    exists i :: 0 <= i < |ps| && LoadsAt(ps, i, x) && forall j :: 0 <= j <= i ==> !LoadsAt(ps, j, y)
  }

  lemma LoadOneMore(ps: Report, n: nat, loaded: seq<string>, m: string)
    requires n < |ps| && FirstLoads(ps, n, loaded) && LoadsAt(ps, n, m) && m !in loaded
    ensures FirstLoads(ps, n + 1, loaded + [m])
  {
    var more := loaded + [m];
    forall a, b | 0 <= a < b < |more| ensures LoadedEarlier(ps, more[a], more[b]) {
      if b == |loaded| {
        assert more[a] in loaded;
        var i :| 0 <= i < n && LoadsAt(ps, i, more[a]);
      }
    }
    forall x ensures x in more <==> exists i :: 0 <= i < n + 1 && LoadsAt(ps, i, x) {
      if x in loaded { var i :| 0 <= i < n && LoadsAt(ps, i, x); }
    }
  }

  lemma LoadNoMore(ps: Report, n: nat, loaded: seq<string>)
    requires n < |ps| && FirstLoads(ps, n, loaded)
    requires forall m :: LoadsAt(ps, n, m) ==> m in loaded
    ensures FirstLoads(ps, n + 1, loaded)
  {
    forall x ensures x in loaded <==> exists i :: 0 <= i < n + 1 && LoadsAt(ps, i, x) {
      if x in loaded { var i :| 0 <= i < n && LoadsAt(ps, i, x); }
    }
  }

  lemma StackCut(ps: Report, i: nat)
    requires i < |ps|
    ensures StackAt(ps, i) == Truncate(if i == 0 then [] else StackAt(ps, i - 1) + [i - 1], ps[i].depth)
  {
  }

  lemma NothingLoaded(ps: Report)
    ensures FirstLoads(ps, 0, [])
  {
  }

  /** How a phase is marked: by itself, or because it is inside a marked one. */
  lemma MarkMeans(ps: Report, i: nat, inside: bool)
    requires i < |ps|
    requires inside <==> exists a :: a in StackAt(ps, i) && PassLoaded(ps, a)
    ensures PassLoaded(ps, i) <==> NamesRoot(ps, i) || inside
  {
    InsideMeans(ps, i);
  }

  lemma LoadMeans(ps: Report, i: nat, mark: bool)
    requires i < |ps| && mark == PassLoaded(ps, i)
    ensures forall m :: LoadsAt(ps, i, m) <==> ps[i].name == "gct" && ps[i].detail == m && m != "" && mark
  {
  }

  /** Modules a pass caused to be compiled, in the order they first reached the compiler. */
  method PassLoadedModules(ps: Report) returns (loaded: seq<string>)
    ensures FirstLoads(ps, |ps|, loaded)
  {
    hide FirstLoads, PassLoaded, LoadsAt, StackAt;
    NothingLoaded(ps);
    var roots := Roots(ps);
    loaded := [];
    var marks: seq<bool> := [];
    var stack: seq<nat> := [];
    for i := 0 to |ps|
      invariant |marks| == i
      invariant stack == if i == 0 then [] else StackAt(ps, i - 1) + [i - 1]
      invariant forall j :: 0 <= j < i ==> marks[j] == PassLoaded(ps, j)
      invariant FirstLoads(ps, i, loaded)
    {
      stack := Truncate(stack, ps[i].depth);
      StackCut(ps, i);
      var inside := exists a :: a in stack && marks[a];
      assert inside <==> exists a :: a in StackAt(ps, i) && PassLoaded(ps, a);
      MarkMeans(ps, i, inside);
      var name, detail := ps[i].name, ps[i].detail;
      var mark := inside;
      ghost var before := loaded;
      if name == "library" && detail in roots {
        mark := true;
      } else if name == "gct" && detail != "" {
        mark := detail in roots || inside;
        if mark && detail !in loaded {
          loaded := loaded + [detail];
        }
      }
      LoadMeans(ps, i, mark);
      if loaded != before { LoadOneMore(ps, i, before, detail); } else { LoadNoMore(ps, i, before); }
      marks := marks + [mark];
      stack := stack + [i];
    }
  }
}
