/** More fuel only refines what a graph computes, so a finished result is final. */
module Fuel {
  import opened Wrappers
  import opened FlowGraph
  import opened Semantics

  /** `w` is `v` with some missing parts filled in. */
  ghost predicate Refines(v: Value, w: Value) {
    match v
    case Bot => true
    case Rec(keys, fields) =>
      w.Rec? && w.keys == keys && |w.fields| == |fields|
      && forall i :: 0 <= i < |fields| ==> Refines(fields[i], w.fields[i])
    case Clo(t, caps) =>
      w.Clo? && w.target == t && |w.caps| == |caps|
      && forall i :: 0 <= i < |caps| ==> Refines(caps[i], w.caps[i])
    case _ => v == w
  }

  ghost predicate RefinesAll(vs: seq<Value>, ws: seq<Value>) {
    |vs| == |ws| && forall i :: 0 <= i < |vs| ==> Refines(vs[i], ws[i])
  }

  ghost predicate StateRefines(s: map<NodeId, Value>, t: map<NodeId, Value>) {
    s.Keys == t.Keys && forall n :: n in s ==> Refines(s[n], t[n])
  }

  ghost predicate EnvRefines(e: Env, f: Env) {
    && RefinesAll(e.withs, f.withs) && RefinesAll(e.norms, f.norms) && RefinesAll(e.caps, f.caps)
    && StateRefines(e.state, f.state)
  }

  lemma {:induction false} RefinesItself(v: Value)
    ensures Refines(v, v)
  {
    if v.Rec? {
      forall i | 0 <= i < |v.fields| ensures Refines(v.fields[i], v.fields[i]) { RefinesItself(v.fields[i]); }
    } else if v.Clo? {
      forall i | 0 <= i < |v.caps| ensures Refines(v.caps[i], v.caps[i]) { RefinesItself(v.caps[i]); }
    }
  }

  /** A value with nothing missing cannot change any more, as far as anyone outside can see. */
  lemma {:induction false} WholeIsFinal(v: Value, w: Value)
    requires Refines(v, w) && Whole(v)
    ensures Flat(v) == Flat(w) && Whole(w)
  {
    if v.Rec? {
      forall i | 0 <= i < |v.fields| ensures Flat(v.fields[i]) == Flat(w.fields[i]) && Whole(w.fields[i]) {
        WholeIsFinal(v.fields[i], w.fields[i]);
      }
      assert FlatAll(v.fields) == FlatAll(w.fields);
    }
  }

  lemma ApplyRefines(I: Interp, n: NodeId, vs: seq<Value>, ws: seq<Value>)
    requires RefinesAll(vs, ws) && DataOnly(I)
    ensures Refines(Apply(I, n, vs), Apply(I, n, ws))
  {
    if forall i :: 0 <= i < |vs| ==> Whole(vs[i]) {
      forall i | 0 <= i < |vs| ensures Flat(vs[i]) == Flat(ws[i]) && Whole(ws[i]) { WholeIsFinal(vs[i], ws[i]); }
      assert FlatAll(vs) == FlatAll(ws);
      assert I(n, vs) == I(n, FlatAll(vs)) == I(n, ws);
      RefinesItself(Apply(I, n, vs));
    }
  }

  /** An operator that has its inputs answers for good. */
  lemma ApplyFinal(I: Interp, n: NodeId, vs: seq<Value>, ws: seq<Value>)
    requires RefinesAll(vs, ws) && DataOnly(I)
    ensures Apply(I, n, vs) == Bot || Apply(I, n, vs) == Apply(I, n, ws)
  {
    if forall i :: 0 <= i < |vs| ==> Whole(vs[i]) {
      forall i | 0 <= i < |vs| ensures Flat(vs[i]) == Flat(ws[i]) && Whole(ws[i]) { WholeIsFinal(vs[i], ws[i]); }
      assert FlatAll(vs) == FlatAll(ws);
      assert I(n, vs) == I(n, FlatAll(vs)) == I(n, ws);
    }
  }

  lemma {:induction false} BindRefines(s: map<NodeId, Value>, t: map<NodeId, Value>, ports: seq<NodeId>, vals: seq<Value>)
    requires StateRefines(s, t)
    ensures StateRefines(Bind(s, ports, vals), Bind(t, ports, vals))
    decreases ports
  {
    if ports != [] && vals != [] {
      RefinesItself(vals[0]);
      BindRefines(s[ports[0] := vals[0]], t[ports[0] := vals[0]], ports[1..], vals[1..]);
    }
  }

  lemma BoundRefines(e: Env, f: Env, ports: seq<NodeId>, v: Value)
    requires EnvRefines(e, f) && v.Rec?
    ensures EnvRefines(Bound(e, ports, v), Bound(f, ports, v))
  {
    BindRefines(e.state, f.state, ports, v.fields);
  }

  lemma {:induction false} FillFieldsRefine(fs: seq<Value>, gs: seq<Value>, at: seq<nat>, vs: seq<Value>, ws: seq<Value>)
    requires RefinesAll(fs, gs) && RefinesAll(vs, ws)
    ensures RefinesAll(FillFields(fs, at, vs), FillFields(gs, at, ws))
    decreases at
  {
    if at != [] && vs != [] {
      var fs' := if at[0] < |fs| then fs[at[0] := vs[0]] else fs;
      var gs' := if at[0] < |gs| then gs[at[0] := ws[0]] else gs;
      FillFieldsRefine(fs', gs', at[1..], vs[1..], ws[1..]);
    }
  }

  lemma FillRefines(g: Graph, n: NodeId, vs: seq<Value>, ws: seq<Value>)
    requires n in g.node && g.node[n].kind.Fill? && RefinesAll(vs, ws)
    ensures Refines(FillValue(g, n, vs), FillValue(g, n, ws))
  {
    if ClosureTarget(g, n).None? && TemplateOf(g, n).Some? && TemplateOf(g, n).value.Template? {
      var base := FlatAll(TemplateOf(g, n).value.consts);
      forall i | 0 <= i < |base| ensures Refines(base[i], base[i]) { RefinesItself(base[i]); }
      FillFieldsRefine(base, base, g.node[n].kind.at, vs, ws);
    }
  }

  lemma {:induction false} EvalAllRefines(g: Graph, I: Interp, fuel: nat, more: nat, e: Env, f: Env, n: NodeId, xs: seq<NodeId>)
    requires WellFormed(g) && EnvRefines(e, f) && fuel <= more && n in g.node && InputsInside(g, n, xs) && DataOnly(I)
    ensures RefinesAll(EvalAll(g, I, fuel, e, xs), EvalAll(g, I, more, f, xs))
    decreases fuel, 1
  {
    forall i | 0 <= i < |xs| ensures Refines(Eval(g, I, fuel, e, xs[i]), Eval(g, I, more, f, xs[i])) {
      MoreFuelRefines(g, I, fuel, more, e, f, xs[i]);
    }
  }

  lemma {:induction false} EnterRefines(g: Graph, I: Interp, fuel: nat, more: nat, e: Env, f: Env, h: GraphId)
    requires WellFormed(g) && EnvRefines(e, f) && fuel <= more && DataOnly(I)
    ensures Refines(Enter(g, I, fuel, h, e), Enter(g, I, more, h, f))
    decreases fuel, 2
  {
    if h in g.exitSrc { MoreFuelRefines(g, I, fuel, more, e, f, g.exitSrc[h]); }
  }

  lemma {:induction false} MoreFuelRefines(g: Graph, I: Interp, fuel: nat, more: nat, e: Env, f: Env, n: NodeId)
    requires WellFormed(g) && EnvRefines(e, f) && fuel <= more && n in g.node && DataOnly(I)
    ensures Refines(Eval(g, I, fuel, e, n), Eval(g, I, more, f, n))
    decreases fuel, 0
  {
    hide Refines, EnvRefines, Eval;
    if fuel == 0 {
      NoFuelRefines(g, I, more, e, f, n);
    } else {
      match g.node[n].kind
      case Oper => InputsRefine(g, I, fuel, more, e, f, n);
      case Fill(_) => InputsRefine(g, I, fuel, more, e, f, n);
      case Func(_) => FuncRefines(g, I, fuel, more, e, f, n);
      case Call => CallRefines(g, I, fuel, more, e, f, n);
      case Accs(_) => ThroughRefines(g, I, fuel, more, e, f, n);
      case Join => ThroughRefines(g, I, fuel, more, e, f, n);
      case Gate => ThroughRefines(g, I, fuel, more, e, f, n);
      case Loop(_) => LoopRefines(g, I, fuel, more, e, f, n);
      case _ => LeafRefines(g, I, fuel, more, e, f, n);
    }
  }

  lemma NoFuelRefines(g: Graph, I: Interp, more: nat, e: Env, f: Env, n: NodeId)
    requires WellFormed(g) && n in g.node
    ensures Refines(Eval(g, I, 0, e, n), Eval(g, I, more, f, n))
  {
  }

  lemma LeafRefines(g: Graph, I: Interp, fuel: nat, more: nat, e: Env, f: Env, n: NodeId)
    requires WellFormed(g) && EnvRefines(e, f) && 0 < fuel <= more && n in g.node
    requires g.node[n].kind.Data? || g.node[n].kind.Port? || g.node[n].kind.ClosurePort?
    ensures Refines(Eval(g, I, fuel, e, n), Eval(g, I, more, f, n))
  {
    if g.node[n].kind.Data? { RefinesItself(ConstValue(g.node[n].kind.constant)); }
  }

  /** Operators and constructors: all inputs are evaluated. */
  lemma {:induction false} InputsRefine(g: Graph, I: Interp, fuel: nat, more: nat, e: Env, f: Env, n: NodeId)
    requires WellFormed(g) && EnvRefines(e, f) && 0 < fuel <= more && n in g.node && DataOnly(I)
    requires g.node[n].kind.Oper? || g.node[n].kind.Fill?
    ensures Refines(Eval(g, I, fuel, e, n), Eval(g, I, more, f, n))
    decreases fuel - 1, 3
  {
    hide Refines, EnvRefines, Eval, Apply, FillValue;
    InputValues(g, I, fuel, e, n);
    InputValues(g, I, more, f, n);
    var node := g.node[n];
    var x, y := fuel - 1, more - 1;
    EvalAllRefines(g, I, x, y, e, f, n, node.withs);
    EvalAllRefines(g, I, x, y, e, f, n, node.norms);
    if node.kind.Oper? {
      ApplyRefines(I, n, EvalAll(g, I, x, e, node.withs) + EvalAll(g, I, x, e, node.norms),
                   EvalAll(g, I, y, f, node.withs) + EvalAll(g, I, y, f, node.norms));
    } else {
      FillRefines(g, n, EvalAll(g, I, x, e, node.withs), EvalAll(g, I, y, f, node.withs));
    }
  }

  /** Accesses, joins and gates: one input is passed through. */
  lemma {:induction false} ThroughRefines(g: Graph, I: Interp, fuel: nat, more: nat, e: Env, f: Env, n: NodeId)
    requires WellFormed(g) && EnvRefines(e, f) && 0 < fuel <= more && n in g.node && DataOnly(I)
    requires g.node[n].kind.Accs? || g.node[n].kind.Join? || g.node[n].kind.Gate?
    ensures Refines(Eval(g, I, fuel, e, n), Eval(g, I, more, f, n))
    decreases fuel - 1, 3
  {
    hide EnvRefines, Refines, Access;
    assert NodeOk(g, n);
    var node := g.node[n];
    var x, y := fuel - 1, more - 1;
    BotRefines(Eval(g, I, more, f, n));
    if node.norms != [] {
      MoreFuelRefines(g, I, x, y, e, f, node.norms[0]);
      var arm, arm' := Eval(g, I, x, e, node.norms[0]), Eval(g, I, y, f, node.norms[0]);
      if node.kind.Accs? { AccessRefines(arm, arm', node.kind.key); }
      if node.kind.Join? && arm.Atom? && 0 <= arm.a < |node.withs| {
        AtomIsFinal(arm, arm');
        MoreFuelRefines(g, I, x, y, e, f, node.withs[arm.a]);
      }
    } else if node.withs != [] {
      MoreFuelRefines(g, I, x, y, e, f, node.withs[0]);
    }
  }

  lemma AccessRefines(v: Value, w: Value, k: Key)
    requires Refines(v, w)
    ensures Refines(Access(v, k), Access(w, k))
  {
  }

  lemma AtomIsFinal(v: Value, w: Value)
    requires Refines(v, w) && v.Atom?
    ensures w == v
  {
  }

  lemma {:induction false} FuncRefines(g: Graph, I: Interp, fuel: nat, more: nat, e: Env, f: Env, n: NodeId)
    requires WellFormed(g) && EnvRefines(e, f) && 0 < fuel <= more && n in g.node && g.node[n].kind.Func? && DataOnly(I)
    ensures Refines(Eval(g, I, fuel, e, n), Eval(g, I, more, f, n))
    decreases fuel - 1, 3
  {
    hide Refines, Eval, Apply, Enter;
    FuncValue(g, I, fuel, e, n);
    FuncValue(g, I, more, f, n);
    var node := g.node[n];
    var x, y := fuel - 1, more - 1;
    EvalAllRefines(g, I, x, y, e, f, n, node.withs);
    EvalAllRefines(g, I, x, y, e, f, n, node.norms);
    var ws, ns := EvalAll(g, I, x, e, node.withs), EvalAll(g, I, x, e, node.norms);
    var ws', ns' := EvalAll(g, I, y, f, node.withs), EvalAll(g, I, y, f, node.norms);
    if node.kind.callee.Some? {
      EnterRefines(g, I, x, y, Env(ws, ns, [], map[]), Env(ws', ns', [], map[]), node.kind.callee.value);
    } else {
      ApplyRefines(I, n, ws + ns, ws' + ns');
    }
  }

  lemma {:induction false} CallRefines(g: Graph, I: Interp, fuel: nat, more: nat, e: Env, f: Env, n: NodeId)
    requires WellFormed(g) && EnvRefines(e, f) && 0 < fuel <= more && n in g.node && g.node[n].kind.Call? && DataOnly(I)
    ensures Refines(Eval(g, I, fuel, e, n), Eval(g, I, more, f, n))
    decreases fuel - 1, 3
  {
    hide Eval, Refines;
    CallValue(g, I, fuel, e, n);
    CallValue(g, I, more, f, n);
    assert NodeOk(g, n);
    var node := g.node[n];
    var x, y := fuel - 1, more - 1;
    BotRefines(Eval(g, I, more, f, n));
    if node.withs != [] {
      MoreFuelRefines(g, I, x, y, e, f, node.withs[0]);
      EvalAllRefines(g, I, x, y, e, f, n, node.withs[1..]);
      EvalAllRefines(g, I, x, y, e, f, n, node.norms);
      var a, b := Eval(g, I, x, e, node.withs[0]), Eval(g, I, y, f, node.withs[0]);
      if a.Clo? {
        CapturesRefine(a, b);
        var e' := Env(EvalAll(g, I, x, e, node.withs[1..]), EvalAll(g, I, x, e, node.norms), a.caps, map[]);
        var f' := Env(EvalAll(g, I, y, f, node.withs[1..]), EvalAll(g, I, y, f, node.norms), b.caps, map[]);
        EnterRefines(g, I, x, y, e', f', a.target);
      }
    }
  }

  lemma {:induction false} LoopRefines(g: Graph, I: Interp, fuel: nat, more: nat, e: Env, f: Env, n: NodeId)
    requires WellFormed(g) && EnvRefines(e, f) && 0 < fuel <= more && n in g.node && g.node[n].kind.Loop? && DataOnly(I)
    ensures Refines(Eval(g, I, fuel, e, n), Eval(g, I, more, f, n))
    decreases fuel - 1, 4
  {
    hide Eval, Refines, Turn;
    LoopValue(g, I, fuel, e, n);
    LoopValue(g, I, more, f, n);
    TurnRefines(g, I, fuel - 1, more - 1, e, f, n, [], []);
  }

  lemma {:induction false} TurnRefines(g: Graph, I: Interp, fuel: nat, more: nat, e: Env, f: Env, n: NodeId, rs: seq<Value>, ss: seq<Value>)
    requires WellFormed(g) && EnvRefines(e, f) && fuel <= more && n in g.node && g.node[n].kind.Loop? && DataOnly(I)
    requires RefinesAll(rs, ss)
    ensures Refines(Turn(g, I, fuel, e, n, rs), Turn(g, I, more, f, n, ss))
    decreases fuel, 3
  {
    hide Eval, EvalAll, Turn, Refines, EnvRefines, DataOnly, Apply;
    TurnValue(g, I, fuel, e, n, rs);
    TurnValue(g, I, more, f, n, ss);
    var node := g.node[n];
    var us, vs := EvalAll(g, I, fuel, e, node.norms), EvalAll(g, I, more, f, node.norms);
    EvalAllRefines(g, I, fuel, more, e, f, n, node.norms);
    ApplyFinal(I, n, us + rs, vs + ss);
    var v := Apply(I, n, us + rs);
    BotRefines(Turn(g, I, more, f, n, ss));
    RefinesItself(v);
    if Again(v) && fuel > 0 {
      var e', f' := Bound(e, node.kind.ports, v), Bound(f, node.kind.ports, v);
      BoundRefines(e, f, node.kind.ports, v);
      EvalAllRefines(g, I, fuel - 1, more - 1, e', f', n, node.withs);
      TurnRefines(g, I, fuel - 1, more - 1, e, f, n,
                  EvalAll(g, I, fuel - 1, e', node.withs), EvalAll(g, I, more - 1, f', node.withs));
    }
  }

  lemma BotRefines(w: Value)
    ensures Refines(Bot, w)
  {
  }

  lemma CapturesRefine(a: Value, b: Value)
    requires Refines(a, b) && a.Clo?
    ensures b.Clo? && b.target == a.target && RefinesAll(a.caps, b.caps)
  {
  }

  /** A result that is complete with some fuel is the result with any more fuel. */
  lemma FinishedIsFinal(g: Graph, I: Interp, fuel: nat, more: nat, h: GraphId, args: Env)
    requires WellFormed(g) && fuel <= more && Whole(Enter(g, I, fuel, h, args)) && DataOnly(I)
    ensures Whole(Enter(g, I, more, h, args))
    ensures Flat(Enter(g, I, more, h, args)) == Flat(Enter(g, I, fuel, h, args))
  {
    forall v ensures Refines(v, v) { RefinesItself(v); }
    EnterRefines(g, I, fuel, more, args, args, h);
    WholeIsFinal(Enter(g, I, fuel, h, args), Enter(g, I, more, h, args));
  }
}
