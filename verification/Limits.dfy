/** Where the claim ends. The analysis does not follow closures through nodes it does not know, so
    if such a node hands a closure on (as a conversion or a copy does), a demanded operator can be
    called unused. One program shows it; `DataOnly` is what rules it out. */
module Limits {
  import opened Wrappers
  import opened FlowGraph
  import opened Semantics
  import opened ClosureSpec
  import opened ClosureSoundness
  import opened Demand
  import opened DemandSoundness

  const NODES: set<NodeId> := {1, 2, 3, 4, 5, 6, 7, 8, 9, 10}

  /** `(if c then convert(() => x) else k)()`, with `x` computed by node 1. */
  function NodeAt(n: NodeId): Node {
    match n
    case 2 => Node(Data(Function(Some(1))), 0, [], [], [], [])
    case 3 => Node(Fill([0]), 0, [1], [2], [], [])               // () => x
    case 4 => Node(Oper, 0, [], [3], [], [])                     // the conversion
    case 5 => Node(Call, 0, [10], [], [], [])
    case 6 => Node(ClosurePort, 1, [], [], [], [])               // x inside () => x
    case 7 => Node(Data(Function(Some(2))), 0, [], [], [], [])   // k
    case 8 => Node(Data(Literal(Atom(0))), 2, [], [], [], [])
    case 10 => Node(Join, 0, [4, 7], [9], [], [])
    case _ => Node(Oper, 0, [], [], [], [])                      // 1: x, 9: the selector
  }

  const PROGRAM: Graph := Graph(map n | n in NODES :: NodeAt(n), map[1 := [6]], map[], map[0 := 5, 1 := 6, 2 := 8])

  const TABLE: Memo := map[(10, []) := {2}, (4, []) := {}, (7, []) := {2}]
  const PROBLEM: Problem := Problem(PROGRAM, TABLE, 0)
  const DEMANDED: set<NodeId> := {3, 4, 5, 7, 8, 9, 10}
  const DEMAND: DemandMap := map n | n in DEMANDED :: {All}

  /** Node 1 yields `x`, the selector takes the first arm, the conversion hands its operand on. */
  function Table(x: int, n: NodeId, args: seq<Value>): Value {
    if n == 1 then Atom(x)
    else if n == 9 then Atom(0)
    else if n == 4 && |args| == 1 then args[0]
    else Bot
  }

  function Operators(x: int): Interp {
    (n: NodeId, args: seq<Value>) => Table(x, n, args)
  }

  lemma ProgramWellFormed()
    ensures WellFormed(PROGRAM)
  {
    forall n | n in PROGRAM.node ensures NodeOk(PROGRAM, n) { NodeIsOk(n); }
    assert forall h :: CPorts(PROGRAM, h) == if h == 1 then [6] else [];
  }

  lemma NodeIsOk(n: NodeId)
    requires n in NODES
    ensures NodeOk(PROGRAM, n)
  {
    assert PROGRAM.node[n] == NodeAt(n);
    if n == 3 {
      assert PROGRAM.node[2] == NodeAt(2);
      assert TemplateOf(PROGRAM, 3) == Some(Function(Some(1)));
    }
  }

  lemma OneCall()
    ensures Calls(PROGRAM) == {5} && Seeds(PROGRAM) == {(10, [])}
  {
    assert 5 in Calls(PROGRAM);
    assert (PROGRAM.node[5].withs[0], []) in Seeds(PROGRAM);
  }

  lemma JoinEntry()
    ensures 10 in PROGRAM.node && Reads(PROGRAM, TABLE, (10, [])) == {(4, []), (7, [])} && Step(PROGRAM, TABLE, (10, [])) == {2}
  {
    assert PROGRAM.node[10] == NodeAt(10);
    assert Sources(PROGRAM, TABLE, 10, []) == {(4, []), (7, [])};
    assert forall h :: h in Union(TABLE, {(4, []), (7, [])}) <==> h == 2;
  }

  lemma LeafEntries()
    ensures 4 in PROGRAM.node && Reads(PROGRAM, TABLE, (4, [])) == {} && Step(PROGRAM, TABLE, (4, [])) == {}
    ensures 7 in PROGRAM.node && Reads(PROGRAM, TABLE, (7, [])) == {} && Step(PROGRAM, TABLE, (7, [])) == {2}
  {
    assert PROGRAM.node[4] == NodeAt(4) && PROGRAM.node[7] == NodeAt(7);
    assert Sources(PROGRAM, TABLE, 4, []) == {};
  }

  lemma TableSolves()
    ensures Resolved(PROGRAM, TABLE)
  {
    hide WellFormed, Reads, Step, Seeds, Calls;
    ProgramWellFormed();
    OneCall();
    JoinEntry();
    LeafEntries();
    forall k | k in TABLE
      ensures k.0 in PROGRAM.node && Reads(PROGRAM, TABLE, k) <= TABLE.Keys && Step(PROGRAM, TABLE, k) <= TABLE[k] && !Cut(k.1)
    {
      assert k == (10, []) || k == (4, []) || k == (7, []);
    }
  }

  lemma TargetsAre(s: NodeId)
    requires s in PROGRAM.node
    ensures Targets(PROBLEM, s) == if s == 5 then {2} else {}
  {
    assert PROGRAM.node[s] == NodeAt(s);
    if s == 5 { assert Callees(PROGRAM, TABLE, 5) == {2}; }
  }

  lemma PushIsClosed(c: NodeId)
    requires c in PROGRAM.node
    ensures PushClosed(PROBLEM, DEMAND, c)
  {
    assert PROGRAM.node[c] == NodeAt(c);
    if c == 3 {
      assert PROGRAM.node[2] == NodeAt(2);
      assert ClosureTarget(PROGRAM, 3) == Some(1) && CPorts(PROGRAM, 1) == [6];
    }
  }

  lemma DemandCloses()
    ensures Closed(PROBLEM, DEMAND)
  {
    hide Targets, PushClosed;
    forall h | h in PROGRAM.exitSrc ensures ExitClosed(PROBLEM, DEMAND, h) {
      forall s | s in Sites(PROBLEM, h) ensures s == 5 && h == 2 { TargetsAre(s); }
    }
    forall c | c in PROGRAM.node ensures PushClosed(PROBLEM, DEMAND, c) { PushIsClosed(c); }
  }

  lemma {:induction false} CaptureRuns(x: int, env: Env)
    requires WellFormed(PROGRAM)
    ensures 3 in PROGRAM.node && Eval(PROGRAM, Operators(x), 3, env, 3) == Clo(1, [Atom(x)])
  {
    hide Eval, WellFormed;
    var g, I := PROGRAM, Operators(x);
    assert g.node[1] == NodeAt(1) && g.node[3] == NodeAt(3) && g.node[2] == NodeAt(2);
    InputValues(g, I, 2, env, 1);
    assert EvalAll(g, I, 1, env, []) + EvalAll(g, I, 1, env, []) == [];
    assert EvalAll(g, I, 2, env, [1]) == [Atom(x)];
    InputValues(g, I, 3, env, 3);
  }

  lemma {:induction false} ConversionRuns(x: int, env: Env)
    requires WellFormed(PROGRAM)
    ensures 4 in PROGRAM.node && Eval(PROGRAM, Operators(x), 4, env, 4) == Clo(1, [Atom(x)])
    ensures 9 in PROGRAM.node && Eval(PROGRAM, Operators(x), 4, env, 9) == Atom(0)
  {
    hide Eval, WellFormed;
    var g, I := PROGRAM, Operators(x);
    assert g.node[4] == NodeAt(4) && g.node[9] == NodeAt(9);
    CaptureRuns(x, env);
    assert EvalAll(g, I, 3, env, []) + EvalAll(g, I, 3, env, [3]) == [Clo(1, [Atom(x)])];
    InputValues(g, I, 4, env, 4);
    assert EvalAll(g, I, 3, env, []) + EvalAll(g, I, 3, env, []) == [];
    InputValues(g, I, 4, env, 9);
  }

  lemma {:induction false} RunsTo(x: int)
    requires WellFormed(PROGRAM)
    ensures Enter(PROGRAM, Operators(x), 6, 0, Env([], [], [], map[])) == Atom(x)
  {
    hide WellFormed;
    var g, I, env := PROGRAM, Operators(x), Env([], [], [], map[]);
    ConversionRuns(x, env);
    JoinRuns(g, I, env, Clo(1, [Atom(x)]));
    CallIsEntry(g, I, env, x);
  }

  lemma {:induction false} JoinRuns(g: Graph, I: Interp, env: Env, v: Value)
    requires g == PROGRAM && WellFormed(g) && 4 in g.node && 9 in g.node
    requires Eval(g, I, 4, env, 9) == Atom(0) && Eval(g, I, 4, env, 4) == v
    ensures 10 in g.node && Eval(g, I, 5, env, 10) == v
  {
    hide *;
    assert 10 in g.node && g.node[10] == NodeAt(10) == Node(Join, 0, [4, 7], [9], [], []) by { JoinNode(); }
    JoinValue(g, I, 5, env, 10);
  }

  lemma JoinNode()
    ensures 10 in PROGRAM.node && PROGRAM.node[10] == NodeAt(10) == Node(Join, 0, [4, 7], [9], [], [])
  {
  }

  lemma {:induction false} CallIsEntry(g: Graph, I: Interp, env: Env, x: int)
    requires g == PROGRAM && WellFormed(g) && 10 in g.node && Eval(g, I, 5, env, 10) == Clo(1, [Atom(x)])
    ensures 5 in g.node && Eval(g, I, 6, env, 5) == Atom(x)
  {
    hide WellFormed;
    assert g.node[5] == NodeAt(5) && g.node[6] == NodeAt(6);
    CallValue(g, I, 6, env, 5);
    var inner := Env(EvalAll(g, I, 5, env, g.node[5].withs[1..]), EvalAll(g, I, 5, env, g.node[5].norms), [Atom(x)], map[]);
    assert Eval(g, I, 5, inner, 6) == CaptureValue(g, 6, inner) == Atom(x);
    assert Enter(g, I, 5, 1, inner) == Atom(x);
  }

  /** What the entries of the table read and add, whatever the rest of the table says. */
  lemma EntriesNeed(s: Memo)
    ensures 10 in PROGRAM.node && 7 in PROGRAM.node
    ensures Reads(PROGRAM, s, (10, [])) == {(4, []), (7, [])} && Step(PROGRAM, s, (7, [])) == {2}
    ensures Look(s, (7, [])) <= Step(PROGRAM, s, (10, []))
  {
    assert PROGRAM.node[10] == NodeAt(10) && PROGRAM.node[7] == NodeAt(7);
    assert Sources(PROGRAM, s, 10, []) == {(4, []), (7, [])};
  }

  /** The table is the one the closure fixpoint computes. */
  lemma TableIsLeast()
    ensures LeastSolution(PROGRAM, TABLE)
  {
    hide Reads, Step, Seeds, Calls;
    TableSolves();
    OneCall();
    forall s | Solution(PROGRAM, s) ensures Below(TABLE, s) {
      EntriesNeed(s);
      assert (10, []) in s;
      assert (7, []) in s && (4, []) in s;
    }
  }

  lemma {:induction false} ResultIs(x: int)
    ensures WellFormed(PROGRAM) && Flat(Enter(PROGRAM, Operators(x), 6, 0, Env([], [], [], map[]))) == Atom(x)
  {
    hide WellFormed, Enter;
    ProgramWellFormed();
    RunsTo(x);
  }

  /** Whatever computes the least demand, node 1 is called unused, although the program returns it: two
      operator tables that differ there alone give different results. The table is the least solution
      and no path is cut. */
  lemma ClosureThroughOperatorIsMissed(d: DemandMap, x: int, y: int)
    requires LeastClosed(PROBLEM, d) && x != y
    ensures WellFormed(PROGRAM) && LeastSolution(PROGRAM, TABLE) && (forall k :: k in TABLE ==> !Cut(k.1))
    ensures On(d, 1) == {}
    ensures forall n, vs :: n != 1 ==> Operators(x)(n, vs) == Operators(y)(n, vs)
    ensures Flat(Enter(PROGRAM, Operators(x), 6, 0, Env([], [], [], map[]))) != Flat(Enter(PROGRAM, Operators(y), 6, 0, Env([], [], [], map[])))
  {
    hide LeastClosed, LeastSolution, WellFormed, Enter;
    TableIsLeast();
    CaptureIsUnused(d);
    ResultIs(x);
    ResultIs(y);
  }

  /** The analysis is not blunt either: whatever computes the least demand, it leaves the captured
      node 1 out, because the CALL is resolved to the other closure alone. */
  lemma CaptureIsUnused(d: DemandMap)
    requires LeastClosed(PROBLEM, d)
    ensures On(d, 1) == {} && Callees(PROGRAM, TABLE, 5) == {2}
  {
    DemandCloses();
    assert Under(d, DEMAND);
    assert PROGRAM.node[5] == NodeAt(5);
  }
}
