/** What a graph computes: a total, fuel-indexed evaluator. With too little fuel it answers `Bot`
    where a value is not known yet; more fuel only refines the answer (`MoreFuelRefines`). */
module Semantics {
  import opened Wrappers
  import opened FlowGraph

  /** An operator table, consulted per node. */
  type Interp = (NodeId, seq<Value>) -> Value

  /** The arguments and captures of one activation of a graph, and what the loops around bind. */
  datatype Env = Env(withs: seq<Value>, norms: seq<Value>, caps: seq<Value>, state: map<NodeId, Value>)

  /** A value without its closures' captures: the part an operator or the outside world observes. */
  function Flat(v: Value): Value {
    match v
    case Rec(keys, fields) => Rec(keys, FlatAll(fields))
    case Clo(t, _) => Token(t)
    case _ => v
  }

  function FlatAll(vs: seq<Value>): (r: seq<Value>)
    ensures |r| == |vs| && forall i :: 0 <= i < |vs| ==> r[i] == Flat(vs[i])
  {
    if vs == [] then [] else [Flat(vs[0])] + FlatAll(vs[1..])
  }

  /** No part an operator would read is missing. */
  predicate Whole(v: Value) {
    match v
    case Bot => false
    case Rec(_, fields) => forall i :: 0 <= i < |fields| ==> Whole(fields[i])
    case _ => true
  }

  ghost predicate ClosureFree(v: Value) {
    match v
    case Rec(_, fields) => forall i :: 0 <= i < |fields| ==> ClosureFree(fields[i])
    case Clo(_, _) => false
    case _ => true
  }

  /** The operators compute on data: they neither look into closures nor hand them on. */
  ghost predicate DataOnly(I: Interp) {
    forall n, args :: ClosureFree(I(n, args)) && I(n, args) == I(n, FlatAll(args))
  }

  /** Operators are strict. */
  function Apply(I: Interp, n: NodeId, args: seq<Value>): Value {
    if forall i :: 0 <= i < |args| ==> Whole(args[i]) then I(n, args) else Bot
  }

  function Access(v: Value, k: Key): Value {
    if v.Rec? && SlotOf(v.keys, k).Some? && SlotOf(v.keys, k).value < |v.fields|
    then v.fields[SlotOf(v.keys, k).value] else Bot
  }

  function AtPath(v: Value, path: seq<Key>): Value
    decreases |path|
  {
    if path == [] then v else AtPath(Access(v, path[0]), path[1..])
  }

  function ConstValue(c: Constant): Value {
    match c
    case Function(t) => if t.Some? then Clo(t.value, []) else Bot
    case Template(keys, consts, _) => Rec(keys, FlatAll(consts))
    case Literal(v) => Flat(v)
  }

  /** A copy of `fields` with `vals[j]` put at position `at[j]`. */
  function FillFields(fields: seq<Value>, at: seq<nat>, vals: seq<Value>): (r: seq<Value>)
    ensures |r| == |fields|
    decreases at
  {
    if at == [] || vals == [] then fields
    else FillFields(if at[0] < |fields| then fields[at[0] := vals[0]] else fields, at[1..], vals[1..])
  }

  function FillValue(g: Graph, n: NodeId, vals: seq<Value>): Value
    requires n in g.node && g.node[n].kind.Fill?
  {
    if ClosureTarget(g, n).Some? then Clo(ClosureTarget(g, n).value, vals)
    else match TemplateOf(g, n)
      case Some(Template(keys, consts, _)) =>
        Rec(keys, FillFields(FlatAll(consts), g.node[n].kind.at, vals))
      case _ => Bot
  }

  function PortValue(k: PortKey, env: Env): Value {
    var args := if k.kind.With? then env.withs else env.norms;
    if k.index < |args| then args[k.index] else Bot
  }

  function CaptureValue(g: Graph, n: NodeId, env: Env): Value
    requires n in g.node
  {
    var ports := CPorts(g, g.node[n].graph);
    if n in ports && IndexIn(ports, n) < |env.caps| then env.caps[IndexIn(ports, n)] else Bot
  }

  // ---- loops

  const AGAIN: seq<Key> := [Name("again")]

  /** A loop's answer to a round: bindings for one more round, or else its result. */
  predicate Again(v: Value) {
    v.Rec? && v.keys == AGAIN
  }

  function Bind(state: map<NodeId, Value>, ports: seq<NodeId>, vals: seq<Value>): map<NodeId, Value>
    decreases ports
  {
    if ports == [] || vals == [] then state else Bind(state[ports[0] := vals[0]], ports[1..], vals[1..])
  }

  function Bound(env: Env, ports: seq<NodeId>, v: Value): Env
    requires v.Rec?
  {
    env.(state := Bind(env.state, ports, v.fields))
  }

  function StateValue(n: NodeId, env: Env): Value {
    if n in env.state then env.state[n] else Bot
  }

  /** The value of node `n` in the activation `env`. A branch computes only the arm selected. */
  function Eval(g: Graph, I: Interp, fuel: nat, env: Env, n: NodeId): Value
    requires WellFormed(g) && n in g.node
    decreases fuel, 0
  {
    if fuel == 0 then Bot else
    assert NodeOk(g, n);
    var node := g.node[n];
    match node.kind
    case Data(c) => ConstValue(c)
    case Oper =>
      Apply(I, n, EvalAll(g, I, fuel - 1, env, node.withs) + EvalAll(g, I, fuel - 1, env, node.norms))
    case Accs(k) => if node.norms == [] then Bot else Access(Eval(g, I, fuel - 1, env, node.norms[0]), k)
    case Fill(_) => FillValue(g, n, EvalAll(g, I, fuel - 1, env, node.withs))
    case Func(t) =>
      var ws, ns := EvalAll(g, I, fuel - 1, env, node.withs), EvalAll(g, I, fuel - 1, env, node.norms);
      if t.Some? then Enter(g, I, fuel - 1, t.value, Env(ws, ns, [], map[])) else Apply(I, n, ws + ns)
    case Call =>
      if node.withs == [] then Bot else
      var f := Eval(g, I, fuel - 1, env, node.withs[0]);
      if !f.Clo? then Bot else
      Enter(g, I, fuel - 1, f.target,
            Env(EvalAll(g, I, fuel - 1, env, node.withs[1..]), EvalAll(g, I, fuel - 1, env, node.norms), f.caps, map[]))
    case Port(slot) => if slot.Some? then PortValue(slot.value, env) else StateValue(n, env)
    case ClosurePort => CaptureValue(g, n, env)
    case Join =>
      if node.norms == [] then Bot else
      var arm := Eval(g, I, fuel - 1, env, node.norms[0]);
      if arm.Atom? && 0 <= arm.a < |node.withs| then Eval(g, I, fuel - 1, env, node.withs[arm.a]) else Bot
    case Gate =>
      if node.norms != [] then Eval(g, I, fuel - 1, env, node.norms[0])
      else if node.withs != [] then Eval(g, I, fuel - 1, env, node.withs[0])
      else Bot
    case Loop(_) => Turn(g, I, fuel - 1, env, n, [])
  }

  /** The rounds of a loop from here on. The loop is asked with its NORM inputs and the results its
      parts gave in the last round (none before the first): it ends with a result, or binds its ports
      for another round. That covers `for`, `while` and both together. */
  function Turn(g: Graph, I: Interp, fuel: nat, env: Env, n: NodeId, results: seq<Value>): Value
    requires WellFormed(g) && n in g.node && g.node[n].kind.Loop?
    decreases fuel, 3
  {
    assert NodeOk(g, n);
    var v := Apply(I, n, EvalAll(g, I, fuel, env, g.node[n].norms) + results);
    if !Again(v) then v
    else if fuel == 0 then Bot
    else
      Turn(g, I, fuel - 1, env, n, EvalAll(g, I, fuel - 1, Bound(env, g.node[n].kind.ports, v), g.node[n].withs))
  }

  function EvalAll(g: Graph, I: Interp, fuel: nat, env: Env, xs: seq<NodeId>): (vs: seq<Value>)
    requires WellFormed(g) && forall i :: 0 <= i < |xs| ==> xs[i] in g.node
    ensures |vs| == |xs| && forall i :: 0 <= i < |xs| ==> vs[i] == Eval(g, I, fuel, env, xs[i])
    decreases fuel, 1, |xs|
  {
    if xs == [] then [] else [Eval(g, I, fuel, env, xs[0])] + EvalAll(g, I, fuel, env, xs[1..])
  }

  /** The result of running graph `h`. */
  function Enter(g: Graph, I: Interp, fuel: nat, h: GraphId, env: Env): Value
    requires WellFormed(g)
    decreases fuel, 2
  {
    if h in g.exitSrc then Eval(g, I, fuel, env, g.exitSrc[h]) else Bot
  }

  /** What a CALL node computes. */
  lemma CallValue(g: Graph, I: Interp, fuel: nat, env: Env, n: NodeId)
    requires WellFormed(g) && n in g.node && g.node[n].kind.Call? && fuel > 0
    ensures NodeOk(g, n)
    ensures g.node[n].withs == [] ==> Eval(g, I, fuel, env, n) == Bot
    ensures g.node[n].withs != [] ==>
      var a := Eval(g, I, fuel - 1, env, g.node[n].withs[0]);
      Eval(g, I, fuel, env, n) ==
        if !a.Clo? then Bot else
        Enter(g, I, fuel - 1, a.target,
              Env(EvalAll(g, I, fuel - 1, env, g.node[n].withs[1..]), EvalAll(g, I, fuel - 1, env, g.node[n].norms), a.caps, map[]))
  {
    assert NodeOk(g, n);
  }

  /** What an operator node and a constructor compute. */
  lemma InputValues(g: Graph, I: Interp, fuel: nat, env: Env, n: NodeId)
    requires WellFormed(g) && n in g.node && fuel > 0
    ensures NodeOk(g, n)
    ensures g.node[n].kind.Oper? ==>
      Eval(g, I, fuel, env, n) == Apply(I, n, EvalAll(g, I, fuel - 1, env, g.node[n].withs) + EvalAll(g, I, fuel - 1, env, g.node[n].norms))
    ensures g.node[n].kind.Fill? ==>
      Eval(g, I, fuel, env, n) == FillValue(g, n, EvalAll(g, I, fuel - 1, env, g.node[n].withs))
  {
    assert NodeOk(g, n);
  }

  /** What a FUNC node computes. */
  lemma FuncValue(g: Graph, I: Interp, fuel: nat, env: Env, n: NodeId)
    requires WellFormed(g) && n in g.node && g.node[n].kind.Func? && fuel > 0
    ensures NodeOk(g, n)
    ensures
      var ws, ns := EvalAll(g, I, fuel - 1, env, g.node[n].withs), EvalAll(g, I, fuel - 1, env, g.node[n].norms);
      Eval(g, I, fuel, env, n) ==
        if g.node[n].kind.callee.Some? then Enter(g, I, fuel - 1, g.node[n].kind.callee.value, Env(ws, ns, [], map[]))
        else Apply(I, n, ws + ns)
  {
    assert NodeOk(g, n);
  }

  /** What a JOIN node computes. */
  lemma JoinValue(g: Graph, I: Interp, fuel: nat, env: Env, n: NodeId)
    requires WellFormed(g) && n in g.node && g.node[n].kind.Join? && g.node[n].norms != [] && fuel > 0
    ensures NodeOk(g, n) && g.node[n].norms[0] in g.node
    ensures
      var arm := Eval(g, I, fuel - 1, env, g.node[n].norms[0]);
      Eval(g, I, fuel, env, n) ==
        if arm.Atom? && 0 <= arm.a < |g.node[n].withs| && g.node[n].withs[arm.a] in g.node
        then Eval(g, I, fuel - 1, env, g.node[n].withs[arm.a]) else Bot
  {
    assert NodeOk(g, n);
  }

  /** What a LOOP node computes, and one turn of it. */
  lemma LoopValue(g: Graph, I: Interp, fuel: nat, env: Env, n: NodeId)
    requires WellFormed(g) && n in g.node && g.node[n].kind.Loop? && fuel > 0
    ensures NodeOk(g, n) && Eval(g, I, fuel, env, n) == Turn(g, I, fuel - 1, env, n, [])
  {
    assert NodeOk(g, n);
  }

  lemma TurnValue(g: Graph, I: Interp, fuel: nat, env: Env, n: NodeId, results: seq<Value>)
    requires WellFormed(g) && n in g.node && g.node[n].kind.Loop?
    ensures NodeOk(g, n)
    ensures var v := Apply(I, n, EvalAll(g, I, fuel, env, g.node[n].norms) + results);
      Turn(g, I, fuel, env, n, results) ==
        if !Again(v) then v else if fuel == 0 then Bot
        else Turn(g, I, fuel - 1, env, n, EvalAll(g, I, fuel - 1, Bound(env, g.node[n].kind.ports, v), g.node[n].withs))
  {
    assert NodeOk(g, n);
  }
}
