/** Closure resolution is sound: in every run, the graph a CALL enters is one the table lists
    for it, however the closure got there (tuples, accesses, ports, captures, joins, results). */
module ClosureSoundness {
  import opened Wrappers
  import opened FlowGraph
  import opened Semantics
  import opened ClosureSpec

  /** A table that solves the equations and never hit the path limit. */
  ghost predicate Resolved(g: Graph, m: Memo) {
    WellFormed(g) && Solution(g, m) && forall k :: k in m ==> !Cut(k.1)
  }

  /** Wherever the table is asked about node `n`, it covers the closures inside `v`. */
  ghost predicate Sound(m: Memo, n: NodeId, v: Value) {
    forall path :: (n, path) in m && AtPath(v, path).Clo? ==> AtPath(v, path).target in m[(n, path)]
  }

  ghost predicate CapsSound(g: Graph, m: Memo, h: GraphId, caps: seq<Value>) {
    forall j :: 0 <= j < |caps| && j < |CPorts(g, h)| ==> Sound(m, CPorts(g, h)[j], caps[j])
  }

  /** Every closure inside `v`, at any depth, holds captures its capture ports are sound for. */
  ghost predicate Good(g: Graph, m: Memo, v: Value) {
    match v
    case Rec(_, fields) => forall i :: 0 <= i < |fields| ==> Good(g, m, fields[i])
    case Clo(t, caps) =>
      CapsSound(g, m, t, caps) && forall i :: 0 <= i < |caps| ==> Good(g, m, caps[i])
    case _ => true
  }

  ghost predicate AllGood(g: Graph, m: Memo, vs: seq<Value>) {
    forall i :: 0 <= i < |vs| ==> Good(g, m, vs[i])
  }

  ghost predicate PortsSound(g: Graph, m: Memo, h: GraphId, env: Env) {
    forall k :: k in g.port && k.graph == h ==> Sound(m, g.port[k], PortValue(k, env))
  }

  /** What loops bind holds no closures. */
  ghost predicate FreeState(state: map<NodeId, Value>) {
    forall n :: n in state ==> ClosureFree(state[n])
  }

  ghost predicate EnvGood(g: Graph, m: Memo, h: GraphId, env: Env) {
    && AllGood(g, m, env.withs) && AllGood(g, m, env.norms) && AllGood(g, m, env.caps)
    && PortsSound(g, m, h, env) && CapsSound(g, m, h, env.caps) && FreeState(env.state)
  }

  // ---- values without closures

  lemma {:induction false} FlatIsFree(v: Value)
    ensures ClosureFree(Flat(v))
  {
    if v.Rec? {
      forall i | 0 <= i < |v.fields| ensures ClosureFree(Flat(v.fields[i])) { FlatIsFree(v.fields[i]); }
    }
  }

  lemma {:induction false} FreeAtPath(v: Value, path: Path)
    requires ClosureFree(v)
    ensures ClosureFree(AtPath(v, path))
    decreases |path|
  {
    if path != [] { FreeAtPath(Access(v, path[0]), path[1..]); }
  }

  lemma {:induction false} FreeIsGood(g: Graph, m: Memo, v: Value)
    requires ClosureFree(v)
    ensures Good(g, m, v)
  {
    if v.Rec? {
      forall i | 0 <= i < |v.fields| ensures Good(g, m, v.fields[i]) { FreeIsGood(g, m, v.fields[i]); }
    }
  }

  lemma FreeIsSound(g: Graph, m: Memo, n: NodeId, v: Value)
    requires ClosureFree(v)
    ensures Good(g, m, v) && Sound(m, n, v)
  {
    FreeIsGood(g, m, v);
    forall path ensures !AtPath(v, path).Clo? { FreeAtPath(v, path); }
  }

  lemma AtPathBot(v: Value, path: Path)
    requires !v.Rec? && path != []
    ensures AtPath(v, path) == Bot
    decreases |path|
  {
    if |path| > 1 { AtPathBot(Bot, path[1..]); }
  }

  // ---- how facts flow along the equations

  /** What the table knows of a source it knows of the entry too. */
  lemma SourceFlows(g: Graph, m: Memo, k: MemoKey, s: MemoKey)
    requires Resolved(g, m) && k in m && s in Sources(g, m, k.0, k.1)
    requires ClosureTarget(g, k.0).None?
    ensures s in m && m[s] <= m[k]
  {
    assert s in Reads(g, m, k);
    assert m[s] <= Step(g, m, k) by {
      forall h | h in m[s] ensures h in Union(m, Sources(g, m, k.0, k.1)) {
        assert h in Look(m, s);
      }
    }
  }

  /** If every entry of `n` has the matching entry of `w` among its sources, soundness carries over. */
  lemma PassOn(g: Graph, m: Memo, n: NodeId, w: NodeId, v: Value)
    requires Resolved(g, m) && n in g.node && ClosureTarget(g, n).None? && Sound(m, w, v)
    requires forall path :: (n, path) in m ==> (w, path) in Sources(g, m, n, path)
    ensures Sound(m, n, v)
  {
    forall path | (n, path) in m && AtPath(v, path).Clo?
      ensures AtPath(v, path).target in m[(n, path)]
    {
      SourceFlows(g, m, (n, path), (w, path));
    }
  }

  lemma AccessSound(g: Graph, m: Memo, n: NodeId, u: Value)
    requires Resolved(g, m) && n in g.node && g.node[n].kind.Accs? && g.node[n].norms != []
    requires Sound(m, g.node[n].norms[0], u) && Good(g, m, u)
    ensures Sound(m, n, Access(u, g.node[n].kind.key)) && Good(g, m, Access(u, g.node[n].kind.key))
  {
    var k, w := g.node[n].kind.key, g.node[n].norms[0];
    var v := Access(u, k);
    forall path | (n, path) in m && AtPath(v, path).Clo?
      ensures AtPath(v, path).target in m[(n, path)]
    {
      assert ([k] + path)[1..] == path;
      assert AtPath(u, [k] + path) == AtPath(v, path);
      SourceFlows(g, m, (n, path), (w, [k] + path));
    }
  }

  // ---- FILL

  /** Position `p` of a filled template holds the template's constant or one of the values. */
  lemma {:induction false} FillFieldFrom(fields: seq<Value>, at: seq<nat>, vals: seq<Value>, p: nat)
    requires p < |fields|
    ensures FillFields(fields, at, vals)[p] == fields[p] || FillFields(fields, at, vals)[p] in vals
    decreases at
  {
    if at != [] && vals != [] {
      var next := if at[0] < |fields| then fields[at[0] := vals[0]] else fields;
      FillFieldFrom(next, at[1..], vals[1..], p);
    }
  }

  /** Filling every position in order leaves exactly the values. */
  lemma {:induction false} FillInOrder(fields: seq<Value>, at: seq<nat>, vals: seq<Value>, from: nat)
    requires |at| == |vals| == |fields| - from && from <= |fields|
    requires forall j :: 0 <= j < |at| ==> at[j] == from + j
    ensures FillFields(fields, at, vals) == fields[..from] + vals
    decreases at
  {
    if at == [] {
      assert fields[..from] == fields;
    } else {
      var next := fields[from := vals[0]];
      FillInOrder(next, at[1..], vals[1..], from + 1);
      assert next[..from + 1] + vals[1..] == fields[..from] + vals;
    }
  }

  /** The slot an access of a keyed FILL reaches is the WITH input of that slot. */
  lemma KeyedFillValue(g: Graph, n: NodeId, vals: seq<Value>)
    requires WellFormed(g) && n in g.node && g.node[n].kind.Fill? && |vals| == |g.node[n].withs|
    requires FillKeys(g, n).Some?
    ensures ClosureTarget(g, n).None? && FillValue(g, n, vals) == Rec(FillKeys(g, n).value, vals)
  {
    assert NodeOk(g, n);
    var Template(keys, consts, _) := TemplateOf(g, n).value;
    FillInOrder(FlatAll(consts), g.node[n].kind.at, vals, 0);
    assert FlatAll(consts)[..0] + vals == vals;
  }

  /** Without known keys, every field of the result is a constant or one of the WITH inputs. */
  lemma OpaqueFillField(g: Graph, n: NodeId, vals: seq<Value>, p: nat)
    requires n in g.node && g.node[n].kind.Fill? && FillValue(g, n, vals).Rec?
    requires p < |FillValue(g, n, vals).fields|
    ensures ClosureFree(FillValue(g, n, vals).fields[p]) || FillValue(g, n, vals).fields[p] in vals
  {
    var Template(_, consts, _) := TemplateOf(g, n).value;
    FillFieldFrom(FlatAll(consts), g.node[n].kind.at, vals, p);
    FlatIsFree(consts[p]);
  }

  lemma FillGood(g: Graph, m: Memo, n: NodeId, vals: seq<Value>)
    requires n in g.node && g.node[n].kind.Fill? && AllGood(g, m, vals)
    requires ClosureTarget(g, n).None?
    ensures Good(g, m, FillValue(g, n, vals))
  {
    var v := FillValue(g, n, vals);
    if v.Rec? {
      forall p | 0 <= p < |v.fields| ensures Good(g, m, v.fields[p]) {
        OpaqueFillField(g, n, vals, p);
        if ClosureFree(v.fields[p]) { FreeIsGood(g, m, v.fields[p]); }
      }
    }
  }

  ghost predicate AllSound(m: Memo, xs: seq<NodeId>, vals: seq<Value>)
  {
    |vals| == |xs| && forall i :: 0 <= i < |xs| ==> Sound(m, xs[i], vals[i])
  }

  lemma RecordFillSound(g: Graph, m: Memo, n: NodeId, vals: seq<Value>)
    requires Resolved(g, m) && n in g.node && g.node[n].kind.Fill? && ClosureTarget(g, n).None?
    requires AllSound(m, g.node[n].withs, vals) && AllGood(g, m, vals)
    ensures Good(g, m, FillValue(g, n, vals)) && Sound(m, n, FillValue(g, n, vals))
  {
    var v, withs := FillValue(g, n, vals), g.node[n].withs;
    FillGood(g, m, n, vals);
    forall path | (n, path) in m && AtPath(v, path).Clo?
      ensures AtPath(v, path).target in m[(n, path)]
    {
      assert path != [] && v.Rec? by { if !v.Rec? && path != [] { AtPathBot(v, path); } }
      var field := Access(v, path[0]);
      if FillKeys(g, n).Some? {
        KeyedFillValue(g, n, vals);
        var j := SlotOf(v.keys, path[0]);
        if j.Some? {
          SourceFlows(g, m, (n, path), (withs[j.value], path[1..]));
          assert Sound(m, withs[j.value], vals[j.value]);
        } else {
          FreeAtPath(Bot, path[1..]);
        }
      } else {
        OpaqueFieldSound(g, m, n, vals, path);
      }
    }
  }

  lemma OpaqueFieldSound(g: Graph, m: Memo, n: NodeId, vals: seq<Value>, path: Path)
    requires Resolved(g, m) && n in g.node && g.node[n].kind.Fill? && ClosureTarget(g, n).None?
    requires AllSound(m, g.node[n].withs, vals) && FillKeys(g, n).None?
    requires path != [] && (n, path) in m && FillValue(g, n, vals).Rec?
    requires AtPath(FillValue(g, n, vals), path).Clo?
    ensures AtPath(FillValue(g, n, vals), path).target in m[(n, path)]
  {
    var v, withs := FillValue(g, n, vals), g.node[n].withs;
    var field := Access(v, path[0]);
    assert AtPath(v, path) == AtPath(field, path[1..]);
    if ClosureFree(field) { FreeAtPath(field, path[1..]); }
    var p := SlotOf(v.keys, path[0]).value;
    OpaqueFillField(g, n, vals, p);
    var i :| 0 <= i < |vals| && vals[i] == field;
    assert (withs[i], Tail(path)) in FillSources(g, n, path);
    SourceFlows(g, m, (n, path), (withs[i], path[1..]));
    assert Sound(m, withs[i], vals[i]);
  }

  /** A closure made here has captures its capture ports are sound for. */
  lemma ClosureFillSound(g: Graph, m: Memo, n: NodeId, vals: seq<Value>)
    requires Resolved(g, m) && n in g.node && g.node[n].kind.Fill? && ClosureTarget(g, n).Some?
    requires AllSound(m, g.node[n].withs, vals) && AllGood(g, m, vals)
    ensures Good(g, m, FillValue(g, n, vals)) && Sound(m, n, FillValue(g, n, vals))
  {
    var h := ClosureTarget(g, n).value;
    var ports := CPorts(g, h);
    forall j | 0 <= j < |vals| && j < |ports| ensures Sound(m, ports[j], vals[j]) {
      CaptureSound(g, m, n, j, vals);
    }
    ClosureSound(g, m, n, vals);
  }

  /** A closure constant or FILL is itself listed. */
  lemma ClosureSound(g: Graph, m: Memo, n: NodeId, caps: seq<Value>)
    requires Resolved(g, m) && n in g.node && ClosureTarget(g, n).Some?
    ensures Sound(m, n, Clo(ClosureTarget(g, n).value, caps))
  {
    var v := Clo(ClosureTarget(g, n).value, caps);
    forall path | (n, path) in m && AtPath(v, path).Clo?
      ensures AtPath(v, path).target in m[(n, path)]
    {
      if path != [] { AtPathBot(v, path); }
      assert Step(g, m, (n, path)) <= m[(n, path)];
    }
  }

  lemma CaptureSound(g: Graph, m: Memo, n: NodeId, j: nat, vals: seq<Value>)
    requires Resolved(g, m) && n in g.node && g.node[n].kind.Fill? && ClosureTarget(g, n).Some?
    requires AllSound(m, g.node[n].withs, vals)
    requires j < |vals| && j < |CPorts(g, ClosureTarget(g, n).value)|
    ensures Sound(m, CPorts(g, ClosureTarget(g, n).value)[j], vals[j])
  {
    var h := ClosureTarget(g, n).value;
    var p := CPorts(g, h)[j];
    assert g.node[p].kind.ClosurePort? && g.node[p].graph == h;
    DistinctCPorts(g, h, j);
    assert n in FillsOf(g, h);
    assert Sound(m, g.node[n].withs[j], vals[j]);
    PassOn(g, m, p, g.node[n].withs[j], vals[j]);
  }

  lemma DistinctCPorts(g: Graph, h: GraphId, j: nat)
    requires WellFormed(g) && j < |CPorts(g, h)|
    ensures IndexIn(CPorts(g, h), CPorts(g, h)[j]) == j
  {
  }

  // ---- calls

  lemma FuncArgIsSource(g: Graph, m: Memo, n: NodeId, k: PortKey, path: Path)
    requires WellFormed(g) && n in g.node && g.node[n].kind == Func(Some(k.graph)) && k in g.port
    requires k.index < |FuncArgs(g, n, k.kind)|
    ensures (FuncArgs(g, n, k.kind)[k.index], path) in Sources(g, m, g.port[k], path)
  {
    assert n in FuncSites(g, k.graph);
  }

  lemma CallArgIsSource(g: Graph, m: Memo, n: NodeId, k: PortKey, path: Path)
    requires WellFormed(g) && MayCall(g, m, n, k.graph) && k in g.port
    requires k.index < |CallArgs(g, n, k.kind)|
    ensures (CallArgs(g, n, k.kind)[k.index], path) in Sources(g, m, g.port[k], path)
  {
    assert n in Calls(g);
  }

  lemma FuncPortSound(g: Graph, m: Memo, n: NodeId, k: PortKey, v: Value)
    requires Resolved(g, m) && n in g.node && g.node[n].kind == Func(Some(k.graph)) && k in g.port
    requires k.index < |FuncArgs(g, n, k.kind)| && Sound(m, FuncArgs(g, n, k.kind)[k.index], v)
    ensures Sound(m, g.port[k], v)
  {
    hide Sources, Solution, Sound;
    var arg := FuncArgs(g, n, k.kind)[k.index];
    forall path ensures (arg, path) in Sources(g, m, g.port[k], path) { FuncArgIsSource(g, m, n, k, path); }
    PassOn(g, m, g.port[k], arg, v);
  }

  lemma CallPortSound(g: Graph, m: Memo, n: NodeId, k: PortKey, v: Value)
    requires Resolved(g, m) && MayCall(g, m, n, k.graph) && k in g.port
    requires k.index < |CallArgs(g, n, k.kind)| && Sound(m, CallArgs(g, n, k.kind)[k.index], v)
    ensures Sound(m, g.port[k], v)
  {
    hide Sources, Solution, Sound;
    var arg := CallArgs(g, n, k.kind)[k.index];
    forall path ensures (arg, path) in Sources(g, m, g.port[k], path) { CallArgIsSource(g, m, n, k, path); }
    PassOn(g, m, g.port[k], arg, v);
  }

  /** Arguments of a FUNC reach the ports of its callee. */
  lemma FuncEnvGood(g: Graph, m: Memo, n: NodeId, h: GraphId, ws: seq<Value>, ns: seq<Value>)
    requires Resolved(g, m) && n in g.node && g.node[n].kind == Func(Some(h))
    requires AllSound(m, g.node[n].withs, ws) && AllSound(m, g.node[n].norms, ns)
    requires AllGood(g, m, ws) && AllGood(g, m, ns)
    ensures EnvGood(g, m, h, Env(ws, ns, [], map[]))
  {
    hide Resolved, Sound, Good;
    var env := Env(ws, ns, [], map[]);
    forall k | k in g.port && k.graph == h ensures Sound(m, g.port[k], PortValue(k, env)) {
      if k.index < |FuncArgs(g, n, k.kind)| {
        FuncPortSound(g, m, n, k, PortValue(k, env));
      } else {
        FreeIsSound(g, m, g.port[k], Bot);
      }
    }
  }

  /** Arguments and captures of a CALL reach the ports of the closure it runs. */
  lemma CallEnvGood(g: Graph, m: Memo, n: NodeId, f: Value, ws: seq<Value>, ns: seq<Value>)
    requires Resolved(g, m) && n in g.node && g.node[n].kind.Call? && g.node[n].withs != []
    requires f.Clo? && Good(g, m, f) && MayCall(g, m, n, f.target)
    requires AllSound(m, g.node[n].withs[1..], ws) && AllSound(m, g.node[n].norms, ns)
    requires AllGood(g, m, ws) && AllGood(g, m, ns)
    ensures EnvGood(g, m, f.target, Env(ws, ns, f.caps, map[]))
  {
    hide Resolved, Sound, MayCall;
    var env, h := Env(ws, ns, f.caps, map[]), f.target;
    forall k | k in g.port && k.graph == h ensures Sound(m, g.port[k], PortValue(k, env)) {
      if k.index < |CallArgs(g, n, k.kind)| {
        CallPortSound(g, m, n, k, PortValue(k, env));
      } else {
        FreeIsSound(g, m, g.port[k], Bot);
      }
    }
  }

  /** The graph a CALL's callee value stands for is one the table lists. */
  lemma CalleeListed(g: Graph, m: Memo, n: NodeId, f: Value)
    requires Resolved(g, m) && n in g.node && g.node[n].kind.Call? && g.node[n].withs != []
    requires f.Clo? && Sound(m, g.node[n].withs[0], f)
    ensures MayCall(g, m, n, f.target)
  {
    var w := g.node[n].withs[0];
    assert n in Calls(g);
    assert (w, []) in Seeds(g);
    assert AtPath(f, []) == f;
  }

  // ---- the theorem

  lemma {:induction false} EvalAllSound(g: Graph, m: Memo, I: Interp, fuel: nat, env: Env, n: NodeId, xs: seq<NodeId>)
    requires Resolved(g, m) && n in g.node && InputsInside(g, n, xs) && DataOnly(I)
    requires EnvGood(g, m, g.node[n].graph, env)
    ensures AllSound(m, xs, EvalAll(g, I, fuel, env, xs)) && AllGood(g, m, EvalAll(g, I, fuel, env, xs))
    decreases fuel, 1
  {
    forall i | 0 <= i < |xs|
      ensures Sound(m, xs[i], Eval(g, I, fuel, env, xs[i])) && Good(g, m, Eval(g, I, fuel, env, xs[i]))
    {
      EvalSound(g, m, I, fuel, env, xs[i]);
    }
  }

  /** In an activation whose arguments and captures are covered, so is the value of every node. */
  lemma {:induction false} EvalSound(g: Graph, m: Memo, I: Interp, fuel: nat, env: Env, n: NodeId)
    requires Resolved(g, m) && n in g.node && DataOnly(I)
    requires EnvGood(g, m, g.node[n].graph, env)
    ensures Good(g, m, Eval(g, I, fuel, env, n)) && Sound(m, n, Eval(g, I, fuel, env, n))
    decreases fuel, 0
  {
    hide Sound, Good, Solution, EnvGood, AtPath, DataOnly;
    var v := Eval(g, I, fuel, env, n);
    if v == Bot {
      assert ClosureFree(v);
      FreeIsSound(g, m, n, v);
    } else {
      assert NodeOk(g, n);
      var node := g.node[n];
      match node.kind
      case Data(_) => ConstSound(g, m, n);
      case Oper =>
        OperatorSound(g, m, I, n, EvalAll(g, I, fuel - 1, env, node.withs) + EvalAll(g, I, fuel - 1, env, node.norms));
      case Accs(_) =>
        EvalSound(g, m, I, fuel - 1, env, node.norms[0]);
        AccessSound(g, m, n, Eval(g, I, fuel - 1, env, node.norms[0]));
      case Fill(_) =>
        EvalAllSound(g, m, I, fuel - 1, env, n, node.withs);
        FillSound(g, m, n, EvalAll(g, I, fuel - 1, env, node.withs));
      case Func(_) => FuncSound(g, m, I, fuel, env, n);
      case Call => CallSound(g, m, I, fuel, env, n);
      case Port(slot) =>
        if slot.Some? { PortSound(g, m, n, env); } else { StateSound(g, m, n, env); }
      case Loop(_) =>
        TurnFree(g, I, fuel - 1, env, n, []);
        FreeIsSound(g, m, n, v);
      case ClosurePort => CapturePortSound(g, m, n, env);
      case Join =>
        var arm := Eval(g, I, fuel - 1, env, node.norms[0]);
        EvalSound(g, m, I, fuel - 1, env, node.withs[arm.a]);
        InputPassesOn(g, m, n, node.withs[arm.a], v);
      case Gate =>
        var w := if node.norms != [] then node.norms[0] else node.withs[0];
        EvalSound(g, m, I, fuel - 1, env, w);
        InputPassesOn(g, m, n, w, v);
    }
  }

  lemma StateSound(g: Graph, m: Memo, n: NodeId, env: Env)
    requires n in g.node && EnvGood(g, m, g.node[n].graph, env)
    ensures Good(g, m, StateValue(n, env)) && Sound(m, n, StateValue(n, env))
  {
    assert ClosureFree(StateValue(n, env));
    FreeIsSound(g, m, n, StateValue(n, env));
  }

  /** A loop hands on data only. */
  lemma {:induction false} TurnFree(g: Graph, I: Interp, fuel: nat, env: Env, n: NodeId, results: seq<Value>)
    requires WellFormed(g) && n in g.node && g.node[n].kind.Loop? && DataOnly(I)
    ensures ClosureFree(Turn(g, I, fuel, env, n, results))
    decreases fuel
  {
    hide Eval, EvalAll, Turn;
    TurnValue(g, I, fuel, env, n, results);
    var v := Apply(I, n, EvalAll(g, I, fuel, env, g.node[n].norms) + results);
    if Again(v) && fuel > 0 {
      TurnFree(g, I, fuel - 1, env, n, EvalAll(g, I, fuel - 1, Bound(env, g.node[n].kind.ports, v), g.node[n].withs));
    }
  }

  lemma {:induction false} BindFree(state: map<NodeId, Value>, ports: seq<NodeId>, vals: seq<Value>)
    requires FreeState(state) && forall i :: 0 <= i < |vals| ==> ClosureFree(vals[i])
    ensures FreeState(Bind(state, ports, vals))
    decreases ports
  {
    if ports != [] && vals != [] { BindFree(state[ports[0] := vals[0]], ports[1..], vals[1..]); }
  }

  /** Binding a round keeps an activation covered. */
  lemma BoundGood(g: Graph, m: Memo, h: GraphId, env: Env, ports: seq<NodeId>, v: Value)
    requires EnvGood(g, m, h, env) && v.Rec? && ClosureFree(v)
    ensures EnvGood(g, m, h, Bound(env, ports, v))
  {
    hide Sound, Good;
    BindFree(env.state, ports, v.fields);
    var env' := Bound(env, ports, v);
    forall k | k in g.port && k.graph == h ensures Sound(m, g.port[k], PortValue(k, env')) {
      assert PortValue(k, env') == PortValue(k, env);
    }
  }

  lemma InputPassesOn(g: Graph, m: Memo, n: NodeId, w: NodeId, v: Value)
    requires Resolved(g, m) && n in g.node && Sound(m, w, v)
    requires g.node[n].kind.Join? || g.node[n].kind.Gate?
    requires w in g.node[n].withs || (g.node[n].kind.Gate? && w in g.node[n].norms)
    ensures Sound(m, n, v)
  {
    hide Solution;
    PassOn(g, m, n, w, v);
  }

  lemma ResultPassesOn(g: Graph, m: Memo, n: NodeId, h: GraphId, v: Value)
    requires Resolved(g, m) && n in g.node && h in g.exitSrc && Sound(m, g.exitSrc[h], v)
    requires g.node[n].kind == Func(Some(h)) || MayCall(g, m, n, h)
    ensures Sound(m, n, v)
  {
    hide Solution;
    PassOn(g, m, n, g.exitSrc[h], v);
  }

  lemma PortSound(g: Graph, m: Memo, n: NodeId, env: Env)
    requires Resolved(g, m) && n in g.node && EnvGood(g, m, g.node[n].graph, env)
    requires g.node[n].kind.Port? && g.node[n].kind.slot.Some?
    ensures Good(g, m, PortValue(g.node[n].kind.slot.value, env))
    ensures Sound(m, n, PortValue(g.node[n].kind.slot.value, env))
  {
    hide Solution;
    assert NodeOk(g, n);
    var k := g.node[n].kind.slot.value;
    assert Sound(m, g.port[k], PortValue(k, env));
  }

  lemma CapturePortSound(g: Graph, m: Memo, n: NodeId, env: Env)
    requires Resolved(g, m) && n in g.node && EnvGood(g, m, g.node[n].graph, env)
    ensures Good(g, m, CaptureValue(g, n, env)) && Sound(m, n, CaptureValue(g, n, env))
  {
    hide Solution;
    var ports := CPorts(g, g.node[n].graph);
    if CaptureValue(g, n, env) == Bot {
      FreeIsSound(g, m, n, Bot);
    } else {
      assert Sound(m, ports[IndexIn(ports, n)], env.caps[IndexIn(ports, n)]);
    }
  }

  lemma ConstSound(g: Graph, m: Memo, n: NodeId)
    requires Resolved(g, m) && n in g.node && g.node[n].kind.Data?
    ensures Good(g, m, ConstValue(g.node[n].kind.constant)) && Sound(m, n, ConstValue(g.node[n].kind.constant))
  {
    var c := g.node[n].kind.constant;
    if ClosureTarget(g, n).Some? {
      ClosureSound(g, m, n, []);
    } else {
      if !c.Function? { FlatIsFree(if c.Literal? then c.v else Rec(c.keys, c.consts)); }
      FreeIsSound(g, m, n, ConstValue(c));
    }
  }

  lemma FillSound(g: Graph, m: Memo, n: NodeId, vals: seq<Value>)
    requires Resolved(g, m) && n in g.node && g.node[n].kind.Fill?
    requires AllSound(m, g.node[n].withs, vals) && AllGood(g, m, vals)
    ensures Good(g, m, FillValue(g, n, vals)) && Sound(m, n, FillValue(g, n, vals))
  {
    if ClosureTarget(g, n).Some? {
      ClosureFillSound(g, m, n, vals);
    } else {
      RecordFillSound(g, m, n, vals);
    }
  }

  lemma OperatorSound(g: Graph, m: Memo, I: Interp, n: NodeId, args: seq<Value>)
    requires DataOnly(I)
    ensures Good(g, m, Apply(I, n, args)) && Sound(m, n, Apply(I, n, args))
  {
    FreeIsSound(g, m, n, Apply(I, n, args));
  }

  lemma {:induction false} FuncSound(g: Graph, m: Memo, I: Interp, fuel: nat, env: Env, n: NodeId)
    requires Resolved(g, m) && n in g.node && g.node[n].kind.Func? && fuel > 0 && DataOnly(I)
    requires EnvGood(g, m, g.node[n].graph, env)
    ensures Good(g, m, Eval(g, I, fuel, env, n)) && Sound(m, n, Eval(g, I, fuel, env, n))
    decreases fuel - 1, 3
  {
    hide Sound, Good, Solution, EnvGood, AtPath, DataOnly;
    assert NodeOk(g, n);
    var node := g.node[n];
    var ws, ns := EvalAll(g, I, fuel - 1, env, node.withs), EvalAll(g, I, fuel - 1, env, node.norms);
    if node.kind.callee.None? {
      OperatorSound(g, m, I, n, ws + ns);
    } else {
      var h := node.kind.callee.value;
      EvalAllSound(g, m, I, fuel - 1, env, n, node.withs);
      EvalAllSound(g, m, I, fuel - 1, env, n, node.norms);
      FuncEnvGood(g, m, n, h, ws, ns);
      assert Eval(g, I, fuel, env, n) == Enter(g, I, fuel - 1, h, Env(ws, ns, [], map[]));
      if h in g.exitSrc {
        EvalSound(g, m, I, fuel - 1, Env(ws, ns, [], map[]), g.exitSrc[h]);
        ResultPassesOn(g, m, n, h, Eval(g, I, fuel, env, n));
      } else {
        FreeIsSound(g, m, n, Bot);
      }
    }
  }

  lemma {:induction false} CallSound(g: Graph, m: Memo, I: Interp, fuel: nat, env: Env, n: NodeId)
    requires Resolved(g, m) && n in g.node && g.node[n].kind.Call? && fuel > 0 && DataOnly(I)
    requires EnvGood(g, m, g.node[n].graph, env)
    ensures Good(g, m, Eval(g, I, fuel, env, n)) && Sound(m, n, Eval(g, I, fuel, env, n))
    decreases fuel - 1, 3
  {
    hide Sound, Good, Solution, EnvGood, AtPath, DataOnly;
    assert NodeOk(g, n);
    var node := g.node[n];
    var v := Eval(g, I, fuel, env, n);
    if v == Bot {
      assert ClosureFree(v);
      FreeIsSound(g, m, n, v);
    } else {
      var f := Eval(g, I, fuel - 1, env, node.withs[0]);
      EvalSound(g, m, I, fuel - 1, env, node.withs[0]);
      CalleeListed(g, m, n, f);
      EvalAllSound(g, m, I, fuel - 1, env, n, node.withs[1..]);
      EvalAllSound(g, m, I, fuel - 1, env, n, node.norms);
      var ws, ns := EvalAll(g, I, fuel - 1, env, node.withs[1..]), EvalAll(g, I, fuel - 1, env, node.norms);
      CallEnvGood(g, m, n, f, ws, ns);
      assert v == Enter(g, I, fuel - 1, f.target, Env(ws, ns, f.caps, map[]));
      EvalSound(g, m, I, fuel - 1, Env(ws, ns, f.caps, map[]), g.exitSrc[f.target]);
      ResultPassesOn(g, m, n, f.target, v);
    }
  }

  // ---- whole runs

  /** One graph being executed with its arguments and captures. */
  datatype Activation = Activation(graph: GraphId, env: Env)

  /** FUNC or CALL node `n` of the first activation starts the second. */
  ghost predicate Starts(g: Graph, I: Interp, fuel: nat, a: Activation, n: NodeId, b: Activation)
    requires WellFormed(g)
  {
    && n in g.node && g.node[n].graph == a.graph && NodeOk(g, n)
    && (if g.node[n].kind.Func? then
          && g.node[n].kind.callee == Some(b.graph)
          && b.env == Env(EvalAll(g, I, fuel, a.env, g.node[n].withs), EvalAll(g, I, fuel, a.env, g.node[n].norms), [], map[])
        else
          && g.node[n].kind.Call? && g.node[n].withs != []
          && var f := Eval(g, I, fuel, a.env, g.node[n].withs[0]);
          && f.Clo? && b.graph == f.target
          && b.env == Env(EvalAll(g, I, fuel, a.env, g.node[n].withs[1..]),
                          EvalAll(g, I, fuel, a.env, g.node[n].norms), f.caps, map[]))
  }

  /** The activation in a round of its loops: with whatever data they bind. */
  function During(a: Activation, state: map<NodeId, Value>): Activation {
    Activation(a.graph, a.env.(state := state))
  }

  ghost predicate Follows(g: Graph, I: Interp, a: Activation, b: Activation)
    requires WellFormed(g)
  {
    exists fuel: nat, n: NodeId, state: map<NodeId, Value> :: FreeState(state) && Starts(g, I, fuel, During(a, state), n, b)
  }

  /** A chain of activations, each started by the one before it. */
  ghost predicate IsRun(g: Graph, I: Interp, run: seq<Activation>)
    requires WellFormed(g)
  {
    forall i :: 0 < i < |run| ==> Follows(g, I, run[i - 1], run[i])
  }

  ghost predicate FreeEnv(env: Env) {
    && (forall i :: 0 <= i < |env.withs| ==> ClosureFree(env.withs[i]))
    && (forall i :: 0 <= i < |env.norms| ==> ClosureFree(env.norms[i]))
    && (forall i :: 0 <= i < |env.caps| ==> ClosureFree(env.caps[i]))
    && FreeState(env.state)
  }

  lemma FreeEnvGood(g: Graph, m: Memo, h: GraphId, env: Env)
    requires FreeEnv(env)
    ensures EnvGood(g, m, h, env)
  {
    hide Sound, Good;
    forall i | 0 <= i < |env.withs| ensures Good(g, m, env.withs[i]) { FreeIsGood(g, m, env.withs[i]); }
    forall i | 0 <= i < |env.norms| ensures Good(g, m, env.norms[i]) { FreeIsGood(g, m, env.norms[i]); }
    forall i | 0 <= i < |env.caps| ensures Good(g, m, env.caps[i]) { FreeIsGood(g, m, env.caps[i]); }
    forall k | k in g.port && k.graph == h ensures Sound(m, g.port[k], PortValue(k, env)) {
      assert ClosureFree(PortValue(k, env));
      FreeIsSound(g, m, g.port[k], PortValue(k, env));
    }
    forall j | 0 <= j < |env.caps| && j < |CPorts(g, h)| ensures Sound(m, CPorts(g, h)[j], env.caps[j]) {
      FreeIsSound(g, m, CPorts(g, h)[j], env.caps[j]);
    }
  }

  lemma StartsGood(g: Graph, m: Memo, I: Interp, fuel: nat, a: Activation, n: NodeId, b: Activation)
    requires Resolved(g, m) && EnvGood(g, m, a.graph, a.env) && Starts(g, I, fuel, a, n, b) && DataOnly(I)
    ensures EnvGood(g, m, b.graph, b.env)
  {
    hide Sound, Good, Solution, EnvGood, AtPath, DataOnly;
    var node := g.node[n];
    EvalAllSound(g, m, I, fuel, a.env, n, node.norms);
    if node.kind.Func? {
      EvalAllSound(g, m, I, fuel, a.env, n, node.withs);
      FuncEnvGood(g, m, n, b.graph, b.env.withs, b.env.norms);
    } else {
      var f := Eval(g, I, fuel, a.env, node.withs[0]);
      EvalSound(g, m, I, fuel, a.env, node.withs[0]);
      EvalAllSound(g, m, I, fuel, a.env, n, node.withs[1..]);
      CalleeListed(g, m, n, f);
      CallEnvGood(g, m, n, f, b.env.withs, b.env.norms);
    }
  }

  lemma DuringGood(g: Graph, m: Memo, a: Activation, state: map<NodeId, Value>)
    requires EnvGood(g, m, a.graph, a.env) && FreeState(state)
    ensures EnvGood(g, m, a.graph, During(a, state).env)
  {
    hide Sound, Good;
    forall k | k in g.port && k.graph == a.graph ensures Sound(m, g.port[k], PortValue(k, During(a, state).env)) {
      assert PortValue(k, During(a, state).env) == PortValue(k, a.env);
    }
  }

  lemma {:induction false} RunGood(g: Graph, m: Memo, I: Interp, run: seq<Activation>, i: nat)
    requires Resolved(g, m) && IsRun(g, I, run) && i < |run| && FreeEnv(run[0].env) && DataOnly(I)
    ensures EnvGood(g, m, run[i].graph, run[i].env)
  {
    if i == 0 {
      FreeEnvGood(g, m, run[0].graph, run[0].env);
    } else {
      RunGood(g, m, I, run, i - 1);
      var fuel: nat, n: NodeId, state: map<NodeId, Value> :|
        FreeState(state) && Starts(g, I, fuel, During(run[i - 1], state), n, run[i]);
      DuringGood(g, m, run[i - 1], state);
      StartsGood(g, m, I, fuel, During(run[i - 1], state), n, run[i]);
    }
  }

  /** Along every run that starts with closure-free arguments, whatever the operators compute and in
      whatever round of the loops around it, a CALL that has a closure to enter enters a graph listed
      for it. */
  lemma CallsAreListed(g: Graph, m: Memo, I: Interp, run: seq<Activation>, i: nat, state: map<NodeId, Value>, fuel: nat, c: NodeId)
    requires Resolved(g, m) && IsRun(g, I, run) && i < |run| && FreeEnv(run[0].env) && DataOnly(I) && FreeState(state)
    requires c in g.node && g.node[c].graph == run[i].graph && g.node[c].kind.Call? && g.node[c].withs != []
    requires g.node[c].withs[0] in g.node
    ensures var f := Eval(g, I, fuel, During(run[i], state).env, g.node[c].withs[0]);
      f.Clo? ==> f.target in Callees(g, m, c)
  {
    hide Sound, Good, Solution, EnvGood, AtPath, IsRun, DataOnly, FreeState, During;
    RunGood(g, m, I, run, i);
    DuringGood(g, m, run[i], state);
    assert NodeOk(g, c);
    var env := During(run[i], state).env;
    EvalSound(g, m, I, fuel, env, g.node[c].withs[0]);
    var f := Eval(g, I, fuel, env, g.node[c].withs[0]);
    if f.Clo? { CalleeListed(g, m, c, f); }
  }
}
