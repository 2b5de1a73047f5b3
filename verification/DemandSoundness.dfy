/** "Unused" means removable: two operator tables that agree on every demanded node give the root
    the same result, for every program, every input and however long it is run. */
module DemandSoundness {
  import opened Wrappers
  import opened FlowGraph
  import opened Semantics
  import opened ClosureSpec
  import opened ClosureSoundness
  import opened Demand

  /** The two values cannot be told apart by someone who reads them whole. Closures must stand for
      the same graph, and their captures must agree as far as that graph demands them. */
  ghost predicate Same(p: Problem, d: DemandMap, v: Value, w: Value)
    decreases v, 0
  {
    match v
    case Rec(keys, fields) =>
      w.Rec? && w.keys == keys && |w.fields| == |fields|
      && forall i :: 0 <= i < |fields| ==> Same(p, d, fields[i], w.fields[i])
    case Clo(t, caps) =>
      w.Clo? && w.target == t && |w.caps| == |caps|
      && forall j :: 0 <= j < |caps| && j < |CPorts(p.g, t)| ==>
           SameAt(p, d, On(d, CPorts(p.g, t)[j]), caps[j], w.caps[j])
    case _ => v == w
  }

  /** The two values agree as far as the demand `wants` reads them. */
  ghost predicate SameAt(p: Problem, d: DemandMap, wants: Wants, v: Value, w: Value)
    decreases v, 1
  {
    if All in wants then Same(p, d, v, w)
    else forall k :: Slot(k) in wants ==> SameSlot(p, d, k, v, w)
  }

  ghost predicate SameSlot(p: Problem, d: DemandMap, k: Key, v: Value, w: Value)
    decreases v, 0
  {
    if Access(v, k) == Bot || Access(w, k) == Bot then Access(v, k) == Access(w, k)
    else Same(p, d, Access(v, k), Access(w, k))
  }

  lemma SameSlotIs(p: Problem, d: DemandMap, k: Key, v: Value, w: Value)
    ensures SameSlot(p, d, k, v, w) <==> Same(p, d, Access(v, k), Access(w, k))
  {
  }

  lemma SameAccess(p: Problem, d: DemandMap, k: Key, v: Value, w: Value)
    requires Same(p, d, v, w)
    ensures Same(p, d, Access(v, k), Access(w, k))
  {
  }

  lemma SameIsSameAt(p: Problem, d: DemandMap, wants: Wants, v: Value, w: Value)
    requires Same(p, d, v, w)
    ensures SameAt(p, d, wants, v, w)
  {
    forall k ensures SameSlot(p, d, k, v, w) {
      SameAccess(p, d, k, v, w);
      SameSlotIs(p, d, k, v, w);
    }
  }

  /** A smaller demand sees less difference. */
  lemma SameAtLeq(p: Problem, d: DemandMap, wants: Wants, more: Wants, v: Value, w: Value)
    requires Leq(wants, more) && SameAt(p, d, more, v, w)
    ensures SameAt(p, d, wants, v, w)
  {
    if All in more { SameIsSameAt(p, d, wants, v, w); }
  }

  /** Values that agree when read whole look identical from outside. */
  lemma {:induction false} SameIsFlatEqual(p: Problem, d: DemandMap, v: Value, w: Value)
    requires Same(p, d, v, w)
    ensures Flat(v) == Flat(w) && (Whole(v) <==> Whole(w))
  {
    if v.Rec? {
      forall i | 0 <= i < |v.fields|
        ensures Flat(v.fields[i]) == Flat(w.fields[i]) && (Whole(v.fields[i]) <==> Whole(w.fields[i]))
      {
        SameIsFlatEqual(p, d, v.fields[i], w.fields[i]);
      }
      assert FlatAll(v.fields) == FlatAll(w.fields);
    }
  }

  lemma {:induction false} FreeIsSame(p: Problem, d: DemandMap, v: Value)
    requires ClosureFree(v)
    ensures Same(p, d, v, v)
  {
    if v.Rec? {
      forall i | 0 <= i < |v.fields| ensures Same(p, d, v.fields[i], v.fields[i]) { FreeIsSame(p, d, v.fields[i]); }
    }
  }

  // ---- environments

  ghost predicate EnvSame(p: Problem, d: DemandMap, h: GraphId, e: Env, f: Env) {
    && (forall k :: k in p.g.port && k.graph == h ==> SameAt(p, d, On(d, p.g.port[k]), PortValue(k, e), PortValue(k, f)))
    && |e.caps| == |f.caps| && e.state == f.state && FreeState(e.state)
    && forall j :: 0 <= j < |e.caps| && j < |CPorts(p.g, h)| ==>
         SameAt(p, d, On(d, CPorts(p.g, h)[j]), e.caps[j], f.caps[j])
  }

  /** The two tables answer alike on every node that is demanded. */
  ghost predicate Agree(d: DemandMap, I: Interp, J: Interp) {
    forall n, args :: On(d, n) != {} ==> I(n, args) == J(n, args)
  }

  /** The analysis result in use: a resolved closure table and a closed demand assignment. */
  ghost predicate Analysed(p: Problem, d: DemandMap) {
    Resolved(p.g, p.memo) && Closed(p, d)
  }

  ghost predicate AllSameAt(p: Problem, d: DemandMap, xs: seq<NodeId>, vs: seq<Value>, ws: seq<Value>) {
    |vs| == |ws| == |xs| && forall i :: 0 <= i < |xs| ==> SameAt(p, d, On(d, xs[i]), vs[i], ws[i])
  }

  /** What a demanded node asks of its `j`-th input, that input's two values agree on. */
  lemma InputAgrees(p: Problem, d: DemandMap, c: NodeId, j: nat, v: Value, w: Value)
    requires Closed(p, d) && c in p.g.node && On(d, c) != {} && j < |Inputs(p, c)|
    requires SameAt(p, d, On(d, Inputs(p, c)[j]), v, w)
    ensures SameAt(p, d, Amount(p, d, c, j), v, w)
  {
    assert PushClosed(p, d, c);
    SameAtLeq(p, d, Amount(p, d, c, j), On(d, Inputs(p, c)[j]), v, w);
  }

  // ---- node kinds

  lemma OperatorSame(p: Problem, d: DemandMap, I: Interp, J: Interp, n: NodeId, vs: seq<Value>, ws: seq<Value>)
    requires Agree(d, I, J) && On(d, n) != {} && DataOnly(I)
    requires |vs| == |ws| && forall i :: 0 <= i < |vs| ==> Same(p, d, vs[i], ws[i])
    ensures Same(p, d, Apply(I, n, vs), Apply(J, n, ws))
  {
    forall i | 0 <= i < |vs| ensures Flat(vs[i]) == Flat(ws[i]) && (Whole(vs[i]) <==> Whole(ws[i])) {
      SameIsFlatEqual(p, d, vs[i], ws[i]);
    }
    assert FlatAll(vs) == FlatAll(ws);
    assert I(n, vs) == I(n, FlatAll(vs)) == I(n, ws) == J(n, ws);
    FreeIsSame(p, d, Apply(I, n, vs));
  }

  /** Operators and everything unknown read all inputs whole. */
  lemma WholeReads(p: Problem, d: DemandMap, c: NodeId, vs: seq<Value>, ws: seq<Value>)
    requires Closed(p, d) && c in p.g.node && On(d, c) != {}
    requires p.g.node[c].kind.Oper? || p.g.node[c].kind == Func(None)
    requires AllSameAt(p, d, p.g.node[c].withs + p.g.node[c].norms, vs, ws)
    ensures forall i :: 0 <= i < |vs| ==> Same(p, d, vs[i], ws[i])
  {
    forall i | 0 <= i < |vs| ensures Same(p, d, vs[i], ws[i]) {
      InputAgrees(p, d, c, i, vs[i], ws[i]);
    }
  }

  lemma RecordFillSame(p: Problem, d: DemandMap, c: NodeId, vs: seq<Value>, ws: seq<Value>)
    requires Analysed(p, d) && c in p.g.node && p.g.node[c].kind.Fill? && On(d, c) != {}
    requires ClosureTarget(p.g, c).None? && AllSameAt(p, d, p.g.node[c].withs, vs, ws)
    ensures SameAt(p, d, On(d, c), FillValue(p.g, c, vs), FillValue(p.g, c, ws))
  {
    hide Solution, Closed, Same, FillValue;
    var keys := FillKeys(p.g, c);
    forall j | 0 <= j < |vs| ensures SameAt(p, d, FillAmount(p, d, c, j), vs[j], ws[j]) {
      InputAgrees(p, d, c, j, vs[j], ws[j]);
    }
    if keys.None? || All in On(d, c) {
      assert forall j :: 0 <= j < |vs| ==> SameAt(p, d, {All}, vs[j], ws[j]);
      WholeFillSame(p, d, c, vs, ws);
      SameIsSameAt(p, d, On(d, c), FillValue(p.g, c, vs), FillValue(p.g, c, ws));
    } else {
      KeyedFillValue(p.g, c, vs);
      KeyedFillValue(p.g, c, ws);
      forall k | Slot(k) in On(d, c) ensures SameSlot(p, d, k, FillValue(p.g, c, vs), FillValue(p.g, c, ws)) {
        SameSlotIs(p, d, k, FillValue(p.g, c, vs), FillValue(p.g, c, ws));
        var j := SlotOf(keys.value, k);
        if j.Some? {
          assert FillAmount(p, d, c, j.value) == {All};
        } else {
          FreeIsSame(p, d, Bot);
        }
      }
    }
  }

  lemma WholeFillSame(p: Problem, d: DemandMap, c: NodeId, vs: seq<Value>, ws: seq<Value>)
    requires WellFormed(p.g) && c in p.g.node && p.g.node[c].kind.Fill? && ClosureTarget(p.g, c).None?
    requires |vs| == |ws| && forall j :: 0 <= j < |vs| ==> SameAt(p, d, {All}, vs[j], ws[j])
    ensures Same(p, d, FillValue(p.g, c, vs), FillValue(p.g, c, ws))
  {
    assert NodeOk(p.g, c);
    var t := TemplateOf(p.g, c).value;
    if t.Template? {
      var base := FlatAll(t.consts);
      forall i | 0 <= i < |base| ensures Same(p, d, base[i], base[i]) {
        FlatIsFree(t.consts[i]);
        FreeIsSame(p, d, base[i]);
      }
      FillFieldsSame(p, d, base, base, p.g.node[c].kind.at, vs, ws);
    }
  }

  lemma {:induction false} FillFieldsSame(p: Problem, d: DemandMap, fs: seq<Value>, gs: seq<Value>, at: seq<nat>, vs: seq<Value>, ws: seq<Value>)
    requires |fs| == |gs| && |vs| == |ws|
    requires forall i :: 0 <= i < |fs| ==> Same(p, d, fs[i], gs[i])
    requires forall i :: 0 <= i < |vs| ==> Same(p, d, vs[i], ws[i])
    ensures forall i :: 0 <= i < |fs| ==> Same(p, d, FillFields(fs, at, vs)[i], FillFields(gs, at, ws)[i])
    decreases at
  {
    if at != [] && vs != [] {
      var fs' := if at[0] < |fs| then fs[at[0] := vs[0]] else fs;
      var gs' := if at[0] < |gs| then gs[at[0] := ws[0]] else gs;
      FillFieldsSame(p, d, fs', gs', at[1..], vs[1..], ws[1..]);
    }
  }

  lemma ClosureFillSame(p: Problem, d: DemandMap, c: NodeId, vs: seq<Value>, ws: seq<Value>)
    requires Analysed(p, d) && c in p.g.node && p.g.node[c].kind.Fill? && On(d, c) != {}
    requires ClosureTarget(p.g, c).Some? && AllSameAt(p, d, p.g.node[c].withs, vs, ws)
    ensures Same(p, d, FillValue(p.g, c, vs), FillValue(p.g, c, ws))
  {
    hide Solution, Closed;
    var ports := CPorts(p.g, ClosureTarget(p.g, c).value);
    forall j | 0 <= j < |vs| && j < |ports| ensures SameAt(p, d, On(d, ports[j]), vs[j], ws[j]) {
      InputAgrees(p, d, c, j, vs[j], ws[j]);
      SameAtLeq(p, d, On(d, ports[j]), Amount(p, d, c, j), vs[j], ws[j]);
    }
  }

  lemma FuncEnvSame(p: Problem, d: DemandMap, c: NodeId, h: GraphId, e: Env, f: Env)
    requires Analysed(p, d) && c in p.g.node && p.g.node[c].kind == Func(Some(h)) && On(d, c) != {}
    requires AllSameAt(p, d, p.g.node[c].withs, e.withs, f.withs) && AllSameAt(p, d, p.g.node[c].norms, e.norms, f.norms)
    requires e.caps == f.caps == [] && e.state == f.state == map[]
    ensures EnvSame(p, d, h, e, f)
  {
    hide Solution, Closed, Same, SameSlot, SameAt;
    var node := p.g.node[c];
    forall k | k in p.g.port && k.graph == h
      ensures SameAt(p, d, On(d, p.g.port[k]), PortValue(k, e), PortValue(k, f))
    {
      var j := if k.kind.With? then k.index else |node.withs| + k.index;
      if k.index < |FuncArgs(p.g, c, k.kind)| {
        assert Inputs(p, c)[j] == FuncArgs(p.g, c, k.kind)[k.index];
        assert k == PortKey(h, k.kind, k.index);
        InputAgrees(p, d, c, j, PortValue(k, e), PortValue(k, f));
      } else {
        BotSameAt(p, d, On(d, p.g.port[k]));
      }
    }
  }

  lemma BotSameAt(p: Problem, d: DemandMap, wants: Wants)
    ensures SameAt(p, d, wants, Bot, Bot)
  {
    SameIsSameAt(p, d, wants, Bot, Bot);
  }

  lemma CallEnvSame(p: Problem, d: DemandMap, c: NodeId, h: GraphId, e: Env, f: Env)
    requires Analysed(p, d) && MayCall(p.g, p.memo, c, h) && On(d, c) != {}
    requires AllSameAt(p, d, p.g.node[c].withs[1..], e.withs, f.withs) && AllSameAt(p, d, p.g.node[c].norms, e.norms, f.norms)
    requires Same(p, d, Clo(h, e.caps), Clo(h, f.caps)) && e.state == f.state == map[]
    ensures EnvSame(p, d, h, e, f)
  {
    hide Solution, Closed, SameSlot, SameAt, Amount;
    var node := p.g.node[c];
    forall k | k in p.g.port && k.graph == h
      ensures SameAt(p, d, On(d, p.g.port[k]), PortValue(k, e), PortValue(k, f))
    {
      var j := if k.kind.With? then k.index + 1 else |node.withs| + k.index;
      if k.index < |CallArgs(p.g, c, k.kind)| {
        assert Inputs(p, c)[j] == CallArgs(p.g, c, k.kind)[k.index];
        CallAmountCovers(p, d, c, k, j);
        InputAgrees(p, d, c, j, PortValue(k, e), PortValue(k, f));
        SameAtLeq(p, d, On(d, p.g.port[k]), Amount(p, d, c, j), PortValue(k, e), PortValue(k, f));
      } else {
        BotSameAt(p, d, On(d, p.g.port[k]));
      }
    }
  }

  lemma CallAmountCovers(p: Problem, d: DemandMap, c: NodeId, k: PortKey, j: nat)
    requires MayCall(p.g, p.memo, c, k.graph) && k in p.g.port
    requires k.index < |CallArgs(p.g, c, k.kind)|
    requires j == if k.kind.With? then k.index + 1 else |p.g.node[c].withs| + k.index
    ensures j < |Inputs(p, c)| && Leq(On(d, p.g.port[k]), Amount(p, d, c, j))
  {
    var hs := Callees(p.g, p.memo, c);
    assert k.graph in hs && k == PortKey(k.graph, k.kind, k.index);
    assert PortDemand(p, d, k) <= PortDemands(p, d, hs, k.kind, k.index);
  }

  // ---- the theorem

  lemma {:induction false} EvalAllSame(p: Problem, d: DemandMap, I: Interp, J: Interp, fuel: nat, e: Env, f: Env, n: NodeId, xs: seq<NodeId>)
    requires Analysed(p, d) && Agree(d, I, J) && n in p.g.node && InputsInside(p.g, n, xs) && DataOnly(I)
    requires EnvGood(p.g, p.memo, p.g.node[n].graph, e) && EnvSame(p, d, p.g.node[n].graph, e, f)
    ensures AllSameAt(p, d, xs, EvalAll(p.g, I, fuel, e, xs), EvalAll(p.g, J, fuel, f, xs))
    decreases fuel, 1
  {
    forall i | 0 <= i < |xs|
      ensures SameAt(p, d, On(d, xs[i]), Eval(p.g, I, fuel, e, xs[i]), Eval(p.g, J, fuel, f, xs[i]))
    {
      EvalSame(p, d, I, J, fuel, e, f, xs[i]);
    }
  }

  /** Every node's two values agree as far as the node is demanded. */
  lemma {:induction false} EvalSame(p: Problem, d: DemandMap, I: Interp, J: Interp, fuel: nat, e: Env, f: Env, n: NodeId)
    requires Analysed(p, d) && Agree(d, I, J) && n in p.g.node && DataOnly(I)
    requires EnvGood(p.g, p.memo, p.g.node[n].graph, e) && EnvSame(p, d, p.g.node[n].graph, e, f)
    ensures SameAt(p, d, On(d, n), Eval(p.g, I, fuel, e, n), Eval(p.g, J, fuel, f, n))
    decreases fuel, 0
  {
    hide Solution, Closed, Same, SameSlot, SameAt, EnvGood, EnvSame, Agree, DataOnly, Eval;
    if On(d, n) == {} {
      NothingDemanded(p, d, Eval(p.g, I, fuel, e, n), Eval(p.g, J, fuel, f, n));
    } else if fuel == 0 {
      NoFuelSame(p, d, I, J, e, f, n);
    } else {
      match p.g.node[n].kind
      case Oper => OperNodeSame(p, d, I, J, fuel, e, f, n);
      case Accs(_) => AccsNodeSame(p, d, I, J, fuel, e, f, n);
      case Fill(_) => FillNodeSame(p, d, I, J, fuel, e, f, n);
      case Func(_) => FuncSame(p, d, I, J, fuel, e, f, n);
      case Call => CallSame(p, d, I, J, fuel, e, f, n);
      case Join => JoinSame(p, d, I, J, fuel, e, f, n);
      case Gate => GateNodeSame(p, d, I, J, fuel, e, f, n);
      case Loop(_) => LoopSame(p, d, I, J, fuel, e, f, n);
      case _ => LeafSame(p, d, I, J, fuel, e, f, n);
    }
  }

  lemma NoFuelSame(p: Problem, d: DemandMap, I: Interp, J: Interp, e: Env, f: Env, n: NodeId)
    requires WellFormed(p.g) && n in p.g.node
    ensures SameAt(p, d, On(d, n), Eval(p.g, I, 0, e, n), Eval(p.g, J, 0, f, n))
  {
    hide SameAt;
    BotSameAt(p, d, On(d, n));
  }

  /** Constants, ports and captures. */
  lemma LeafSame(p: Problem, d: DemandMap, I: Interp, J: Interp, fuel: nat, e: Env, f: Env, n: NodeId)
    requires WellFormed(p.g) && n in p.g.node && fuel > 0 && EnvSame(p, d, p.g.node[n].graph, e, f)
    requires p.g.node[n].kind.Data? || p.g.node[n].kind.Port? || p.g.node[n].kind.ClosurePort?
    ensures SameAt(p, d, On(d, n), Eval(p.g, I, fuel, e, n), Eval(p.g, J, fuel, f, n))
  {
    hide Same, SameSlot, SameAt, EnvSame;
    match p.g.node[n].kind
    case Data(c) => ConstSame(p, d, On(d, n), c);
    case Port(slot) =>
      if slot.Some? { PortSame(p, d, n, e, f); } else { StateSame(p, d, n, e, f); }
    case ClosurePort => CapturePortSame(p, d, n, e, f);
  }

  lemma StateSame(p: Problem, d: DemandMap, n: NodeId, e: Env, f: Env)
    requires n in p.g.node && EnvSame(p, d, p.g.node[n].graph, e, f)
    ensures SameAt(p, d, On(d, n), StateValue(n, e), StateValue(n, f))
  {
    assert StateValue(n, e) == StateValue(n, f) && ClosureFree(StateValue(n, e));
    FreeIsSame(p, d, StateValue(n, e));
    SameIsSameAt(p, d, On(d, n), StateValue(n, e), StateValue(n, f));
  }

  lemma BoundSame(p: Problem, d: DemandMap, h: GraphId, e: Env, f: Env, ports: seq<NodeId>, v: Value)
    requires EnvSame(p, d, h, e, f) && v.Rec? && ClosureFree(v)
    ensures EnvSame(p, d, h, Bound(e, ports, v), Bound(f, ports, v))
  {
    hide SameAt;
    BindFree(e.state, ports, v.fields);
    var e', f' := Bound(e, ports, v), Bound(f, ports, v);
    forall k | k in p.g.port && k.graph == h ensures SameAt(p, d, On(d, p.g.port[k]), PortValue(k, e'), PortValue(k, f')) {
      assert PortValue(k, e') == PortValue(k, e) && PortValue(k, f') == PortValue(k, f);
    }
  }

  /** A demanded loop reads its inputs and the results of its parts whole, so each of its answers is
      the same, and with it the bindings of the next round. */
  lemma AnswerSame(p: Problem, d: DemandMap, I: Interp, J: Interp, n: NodeId, us: seq<Value>, vs: seq<Value>)
    requires Agree(d, I, J) && On(d, n) != {} && DataOnly(I)
    requires |us| == |vs| && forall i :: 0 <= i < |us| ==> Same(p, d, us[i], vs[i])
    ensures Apply(I, n, us) == Apply(J, n, vs) && ClosureFree(Apply(I, n, us))
  {
    forall i | 0 <= i < |us| ensures Flat(us[i]) == Flat(vs[i]) && (Whole(us[i]) <==> Whole(vs[i])) {
      SameIsFlatEqual(p, d, us[i], vs[i]);
    }
    assert FlatAll(us) == FlatAll(vs);
    assert I(n, us) == I(n, FlatAll(us)) == I(n, vs) == J(n, vs);
  }

  lemma {:induction false} LoopSame(p: Problem, d: DemandMap, I: Interp, J: Interp, fuel: nat, e: Env, f: Env, n: NodeId)
    requires Analysed(p, d) && Agree(d, I, J) && n in p.g.node && fuel > 0 && On(d, n) != {} && DataOnly(I)
    requires EnvGood(p.g, p.memo, p.g.node[n].graph, e) && EnvSame(p, d, p.g.node[n].graph, e, f)
    requires p.g.node[n].kind.Loop?
    ensures SameAt(p, d, On(d, n), Eval(p.g, I, fuel, e, n), Eval(p.g, J, fuel, f, n))
    decreases fuel - 1, 4
  {
    hide Solution, Closed, Same, SameSlot, SameAt, EnvGood, EnvSame, Agree, DataOnly, Eval, Turn;
    LoopValue(p.g, I, fuel, e, n);
    LoopValue(p.g, J, fuel, f, n);
    TurnSame(p, d, I, J, fuel - 1, e, f, n, [], []);
    var v := Turn(p.g, I, fuel - 1, e, n, []);
    TurnFree(p.g, I, fuel - 1, e, n, []);
    FreeIsSame(p, d, v);
    SameIsSameAt(p, d, On(d, n), v, v);
  }

  lemma {:induction false} TurnSame(p: Problem, d: DemandMap, I: Interp, J: Interp, fuel: nat, e: Env, f: Env, n: NodeId, rs: seq<Value>, ss: seq<Value>)
    requires Analysed(p, d) && Agree(d, I, J) && n in p.g.node && On(d, n) != {} && DataOnly(I)
    requires EnvGood(p.g, p.memo, p.g.node[n].graph, e) && EnvSame(p, d, p.g.node[n].graph, e, f)
    requires p.g.node[n].kind.Loop? && |rs| == |ss| && forall i :: 0 <= i < |rs| ==> Same(p, d, rs[i], ss[i])
    ensures Turn(p.g, I, fuel, e, n, rs) == Turn(p.g, J, fuel, f, n, ss)
    decreases fuel, 3
  {
    hide Solution, Closed, Same, SameSlot, SameAt, EnvGood, EnvSame, Agree, DataOnly, Eval, EvalAll, Turn, Apply;
    var g, node := p.g, p.g.node[n];
    TurnValue(g, I, fuel, e, n, rs);
    TurnValue(g, J, fuel, f, n, ss);
    var us, vs := EvalAll(g, I, fuel, e, node.norms), EvalAll(g, J, fuel, f, node.norms);
    EvalAllSame(p, d, I, J, fuel, e, f, n, node.norms);
    NormsWhole(p, d, n, us, vs);
    AnswerSame(p, d, I, J, n, us + rs, vs + ss);
    var v := Apply(I, n, us + rs);
    if Again(v) && fuel > 0 {
      var e', f' := Bound(e, node.kind.ports, v), Bound(f, node.kind.ports, v);
      BoundGood(g, p.memo, node.graph, e, node.kind.ports, v);
      BoundSame(p, d, node.graph, e, f, node.kind.ports, v);
      EvalAllSame(p, d, I, J, fuel - 1, e', f', n, node.withs);
      var ps, qs := EvalAll(g, I, fuel - 1, e', node.withs), EvalAll(g, J, fuel - 1, f', node.withs);
      WithsWhole(p, d, n, ps, qs);
      TurnSame(p, d, I, J, fuel - 1, e, f, n, ps, qs);
    }
  }

  lemma NormsWhole(p: Problem, d: DemandMap, n: NodeId, vs: seq<Value>, ws: seq<Value>)
    requires Closed(p, d) && n in p.g.node && On(d, n) != {} && p.g.node[n].kind.Loop?
    requires AllSameAt(p, d, p.g.node[n].norms, vs, ws)
    ensures |vs| == |ws| && forall i :: 0 <= i < |vs| ==> Same(p, d, vs[i], ws[i])
  {
    forall i | 0 <= i < |vs| ensures Same(p, d, vs[i], ws[i]) {
      InputAgrees(p, d, n, |p.g.node[n].withs| + i, vs[i], ws[i]);
    }
  }

  lemma WithsWhole(p: Problem, d: DemandMap, n: NodeId, vs: seq<Value>, ws: seq<Value>)
    requires Closed(p, d) && n in p.g.node && On(d, n) != {} && p.g.node[n].kind.Loop?
    requires AllSameAt(p, d, p.g.node[n].withs, vs, ws)
    ensures |vs| == |ws| && forall i :: 0 <= i < |vs| ==> Same(p, d, vs[i], ws[i])
  {
    forall i | 0 <= i < |vs| ensures Same(p, d, vs[i], ws[i]) { InputAgrees(p, d, n, i, vs[i], ws[i]); }
  }

  lemma {:induction false} OperNodeSame(p: Problem, d: DemandMap, I: Interp, J: Interp, fuel: nat, e: Env, f: Env, n: NodeId)
    requires Analysed(p, d) && Agree(d, I, J) && n in p.g.node && fuel > 0 && On(d, n) != {} && DataOnly(I)
    requires EnvGood(p.g, p.memo, p.g.node[n].graph, e) && EnvSame(p, d, p.g.node[n].graph, e, f)
    requires p.g.node[n].kind.Oper?
    ensures SameAt(p, d, On(d, n), Eval(p.g, I, fuel, e, n), Eval(p.g, J, fuel, f, n))
    decreases fuel - 1, 3
  {
    hide Solution, Closed, Same, SameSlot, SameAt, EnvGood, EnvSame, Agree, DataOnly, Amount, Eval, Apply, FillValue;
    var g := p.g;
    InputValues(g, I, fuel, e, n);
    InputValues(g, J, fuel, f, n);
    var node := g.node[n];
    EvalAllSame(p, d, I, J, fuel - 1, e, f, n, node.withs);
    EvalAllSame(p, d, I, J, fuel - 1, e, f, n, node.norms);
    OperSame(p, d, I, J, n,
      EvalAll(g, I, fuel - 1, e, node.withs), EvalAll(g, J, fuel - 1, f, node.withs),
      EvalAll(g, I, fuel - 1, e, node.norms), EvalAll(g, J, fuel - 1, f, node.norms));
  }

  lemma {:induction false} AccsNodeSame(p: Problem, d: DemandMap, I: Interp, J: Interp, fuel: nat, e: Env, f: Env, n: NodeId)
    requires Analysed(p, d) && Agree(d, I, J) && n in p.g.node && fuel > 0 && On(d, n) != {} && DataOnly(I)
    requires EnvGood(p.g, p.memo, p.g.node[n].graph, e) && EnvSame(p, d, p.g.node[n].graph, e, f)
    requires p.g.node[n].kind.Accs?
    ensures SameAt(p, d, On(d, n), Eval(p.g, I, fuel, e, n), Eval(p.g, J, fuel, f, n))
    decreases fuel - 1, 3
  {
    hide Solution, Closed, Same, SameSlot, SameAt, EnvGood, EnvSame, Agree, DataOnly, Amount;
    var g := p.g;
    assert NodeOk(g, n);
    var node := g.node[n];
    if node.norms == [] {
      BotSameAt(p, d, On(d, n));
    } else {
      EvalSame(p, d, I, J, fuel - 1, e, f, node.norms[0]);
      AccessSame(p, d, n, Eval(g, I, fuel - 1, e, node.norms[0]), Eval(g, J, fuel - 1, f, node.norms[0]));
    }
  }

  lemma {:induction false} FillNodeSame(p: Problem, d: DemandMap, I: Interp, J: Interp, fuel: nat, e: Env, f: Env, n: NodeId)
    requires Analysed(p, d) && Agree(d, I, J) && n in p.g.node && fuel > 0 && On(d, n) != {} && DataOnly(I)
    requires EnvGood(p.g, p.memo, p.g.node[n].graph, e) && EnvSame(p, d, p.g.node[n].graph, e, f)
    requires p.g.node[n].kind.Fill?
    ensures SameAt(p, d, On(d, n), Eval(p.g, I, fuel, e, n), Eval(p.g, J, fuel, f, n))
    decreases fuel - 1, 3
  {
    hide Solution, Closed, Same, SameSlot, SameAt, EnvGood, EnvSame, Agree, DataOnly, Amount, Eval, Apply, FillValue;
    var g := p.g;
    InputValues(g, I, fuel, e, n);
    InputValues(g, J, fuel, f, n);
    var node := g.node[n];
    EvalAllSame(p, d, I, J, fuel - 1, e, f, n, node.withs);
    FillSame(p, d, n, EvalAll(g, I, fuel - 1, e, node.withs), EvalAll(g, J, fuel - 1, f, node.withs));
  }

  lemma {:induction false} GateNodeSame(p: Problem, d: DemandMap, I: Interp, J: Interp, fuel: nat, e: Env, f: Env, n: NodeId)
    requires Analysed(p, d) && Agree(d, I, J) && n in p.g.node && fuel > 0 && On(d, n) != {} && DataOnly(I)
    requires EnvGood(p.g, p.memo, p.g.node[n].graph, e) && EnvSame(p, d, p.g.node[n].graph, e, f)
    requires p.g.node[n].kind.Gate?
    ensures SameAt(p, d, On(d, n), Eval(p.g, I, fuel, e, n), Eval(p.g, J, fuel, f, n))
    decreases fuel - 1, 3
  {
    hide Solution, Closed, Same, SameSlot, SameAt, EnvGood, EnvSame, Agree, DataOnly, Amount;
    var g := p.g;
    assert NodeOk(g, n);
    var node := g.node[n];
    if node.norms == [] && node.withs == [] {
      BotSameAt(p, d, On(d, n));
    } else {
      var j := if node.norms != [] then |node.withs| else 0;
      var w := Inputs(p, n)[j];
      EvalSame(p, d, I, J, fuel - 1, e, f, w);
      GateSame(p, d, n, j, Eval(g, I, fuel - 1, e, w), Eval(g, J, fuel - 1, f, w));
    }
  }

  lemma NothingDemanded(p: Problem, d: DemandMap, v: Value, w: Value)
    ensures SameAt(p, d, {}, v, w)
  {
  }

  lemma ConstSame(p: Problem, d: DemandMap, wants: Wants, c: Constant)
    ensures SameAt(p, d, wants, ConstValue(c), ConstValue(c))
  {
    if !c.Function? {
      FlatIsFree(if c.Literal? then c.v else Rec(c.keys, c.consts));
      FreeIsSame(p, d, ConstValue(c));
    }
    SameIsSameAt(p, d, wants, ConstValue(c), ConstValue(c));
  }

  lemma OperSame(p: Problem, d: DemandMap, I: Interp, J: Interp, c: NodeId,
                 vs: seq<Value>, vs': seq<Value>, ns: seq<Value>, ns': seq<Value>)
    requires Closed(p, d) && Agree(d, I, J) && c in p.g.node && On(d, c) != {} && DataOnly(I)
    requires p.g.node[c].kind.Oper? || p.g.node[c].kind == Func(None)
    requires AllSameAt(p, d, p.g.node[c].withs, vs, vs') && AllSameAt(p, d, p.g.node[c].norms, ns, ns')
    ensures SameAt(p, d, On(d, c), Apply(I, c, vs + ns), Apply(J, c, vs' + ns'))
  {
    hide Closed, Same, SameSlot, SameAt, Agree, Amount;
    WholeReads(p, d, c, vs + ns, vs' + ns');
    OperatorSame(p, d, I, J, c, vs + ns, vs' + ns');
    SameIsSameAt(p, d, On(d, c), Apply(I, c, vs + ns), Apply(J, c, vs' + ns'));
  }

  lemma AccessSame(p: Problem, d: DemandMap, c: NodeId, v: Value, w: Value)
    requires Closed(p, d) && c in p.g.node && p.g.node[c].kind.Accs? && On(d, c) != {}
    requires p.g.node[c].norms != [] && SameAt(p, d, On(d, p.g.node[c].norms[0]), v, w)
    ensures SameAt(p, d, On(d, c), Access(v, p.g.node[c].kind.key), Access(w, p.g.node[c].kind.key))
  {
    var k := p.g.node[c].kind.key;
    InputAgrees(p, d, c, 0, v, w);
    assert SameSlot(p, d, k, v, w);
    SameSlotIs(p, d, k, v, w);
    SameIsSameAt(p, d, On(d, c), Access(v, k), Access(w, k));
  }

  lemma FillSame(p: Problem, d: DemandMap, c: NodeId, vs: seq<Value>, ws: seq<Value>)
    requires Analysed(p, d) && c in p.g.node && p.g.node[c].kind.Fill? && On(d, c) != {}
    requires AllSameAt(p, d, p.g.node[c].withs, vs, ws)
    ensures SameAt(p, d, On(d, c), FillValue(p.g, c, vs), FillValue(p.g, c, ws))
  {
    if ClosureTarget(p.g, c).Some? {
      ClosureFillSame(p, d, c, vs, ws);
      SameIsSameAt(p, d, On(d, c), FillValue(p.g, c, vs), FillValue(p.g, c, ws));
    } else {
      RecordFillSame(p, d, c, vs, ws);
    }
  }

  lemma PortSame(p: Problem, d: DemandMap, n: NodeId, e: Env, f: Env)
    requires WellFormed(p.g) && n in p.g.node && p.g.node[n].kind.Port? && EnvSame(p, d, p.g.node[n].graph, e, f)
    ensures var slot := p.g.node[n].kind.slot;
      SameAt(p, d, On(d, n), if slot.Some? then PortValue(slot.value, e) else Bot, if slot.Some? then PortValue(slot.value, f) else Bot)
  {
    assert NodeOk(p.g, n);
    if p.g.node[n].kind.slot.None? { BotSameAt(p, d, On(d, n)); }
  }

  lemma CapturePortSame(p: Problem, d: DemandMap, n: NodeId, e: Env, f: Env)
    requires WellFormed(p.g) && n in p.g.node && EnvSame(p, d, p.g.node[n].graph, e, f)
    ensures SameAt(p, d, On(d, n), CaptureValue(p.g, n, e), CaptureValue(p.g, n, f))
  {
    hide SameAt;
    BotSameAt(p, d, On(d, n));
    var ports := CPorts(p.g, p.g.node[n].graph);
    if n in ports { assert ports[IndexIn(ports, n)] == n; }
  }

  lemma GateSame(p: Problem, d: DemandMap, c: NodeId, j: nat, v: Value, w: Value)
    requires Closed(p, d) && c in p.g.node && On(d, c) != {} && j < |Inputs(p, c)|
    requires p.g.node[c].kind.Gate? || (p.g.node[c].kind.Join? && j < |p.g.node[c].withs|)
    requires SameAt(p, d, On(d, Inputs(p, c)[j]), v, w)
    ensures SameAt(p, d, On(d, c), v, w)
  {
    InputAgrees(p, d, c, j, v, w);
  }

  /** Both runs select the same arm. */
  lemma {:induction false} JoinSame(p: Problem, d: DemandMap, I: Interp, J: Interp, fuel: nat, e: Env, f: Env, n: NodeId)
    requires Analysed(p, d) && Agree(d, I, J) && n in p.g.node && p.g.node[n].kind.Join? && fuel > 0 && On(d, n) != {} && DataOnly(I)
    requires EnvGood(p.g, p.memo, p.g.node[n].graph, e) && EnvSame(p, d, p.g.node[n].graph, e, f)
    ensures SameAt(p, d, On(d, n), Eval(p.g, I, fuel, e, n), Eval(p.g, J, fuel, f, n))
    decreases fuel - 1, 3
  {
    hide Solution, Closed, SameSlot, SameAt, EnvGood, EnvSame, Agree, DataOnly;
    var g := p.g;
    assert NodeOk(g, n);
    var node := g.node[n];
    BotSameAt(p, d, On(d, n));
    if node.norms != [] {
      var a, b := Eval(g, I, fuel - 1, e, node.norms[0]), Eval(g, J, fuel - 1, f, node.norms[0]);
      EvalSame(p, d, I, J, fuel - 1, e, f, node.norms[0]);
      SelectorSame(p, d, n, a, b);
      if a.Atom? && 0 <= a.a < |node.withs| {
        var w := node.withs[a.a];
        EvalSame(p, d, I, J, fuel - 1, e, f, w);
        GateSame(p, d, n, a.a, Eval(g, I, fuel - 1, e, w), Eval(g, J, fuel - 1, f, w));
      }
    }
  }

  lemma SelectorSame(p: Problem, d: DemandMap, n: NodeId, a: Value, b: Value)
    requires Closed(p, d) && n in p.g.node && p.g.node[n].kind.Join? && On(d, n) != {} && p.g.node[n].norms != []
    requires SameAt(p, d, On(d, p.g.node[n].norms[0]), a, b)
    ensures a.Atom? || b.Atom? ==> a == b
  {
    InputAgrees(p, d, n, |p.g.node[n].withs|, a, b);
  }

  /** Demand on a call site is demand on the result of the graph it enters. */
  lemma ResultSame(p: Problem, d: DemandMap, n: NodeId, h: GraphId, v: Value, w: Value)
    requires Closed(p, d) && n in p.g.node && h in p.g.exitSrc
    requires p.g.node[n].kind == Func(Some(h)) || MayCall(p.g, p.memo, n, h)
    requires SameAt(p, d, On(d, p.g.exitSrc[h]), v, w)
    ensures SameAt(p, d, On(d, n), v, w)
  {
    assert n in Sites(p, h);
    assert ExitClosed(p, d, h);
    SameAtLeq(p, d, On(d, n), On(d, p.g.exitSrc[h]), v, w);
  }

  lemma {:induction false} FuncSame(p: Problem, d: DemandMap, I: Interp, J: Interp, fuel: nat, e: Env, f: Env, n: NodeId)
    requires Analysed(p, d) && Agree(d, I, J) && n in p.g.node && p.g.node[n].kind.Func? && fuel > 0 && On(d, n) != {} && DataOnly(I)
    requires EnvGood(p.g, p.memo, p.g.node[n].graph, e) && EnvSame(p, d, p.g.node[n].graph, e, f)
    ensures SameAt(p, d, On(d, n), Eval(p.g, I, fuel, e, n), Eval(p.g, J, fuel, f, n))
    decreases fuel - 1, 3
  {
    hide Solution, Closed, Same, SameSlot, SameAt, EnvGood, EnvSame, Agree, DataOnly, Sound, Good, Eval, Apply, Enter, AllSameAt, AllSound, AllGood;
    var g := p.g;
    FuncValue(g, I, fuel, e, n);
    FuncValue(g, J, fuel, f, n);
    var node := g.node[n];
    EvalAllSame(p, d, I, J, fuel - 1, e, f, n, node.withs);
    EvalAllSame(p, d, I, J, fuel - 1, e, f, n, node.norms);
    var ws, ws' := EvalAll(g, I, fuel - 1, e, node.withs), EvalAll(g, J, fuel - 1, f, node.withs);
    var ns, ns' := EvalAll(g, I, fuel - 1, e, node.norms), EvalAll(g, J, fuel - 1, f, node.norms);
    if node.kind.callee.None? {
      OperSame(p, d, I, J, n, ws, ws', ns, ns');
    } else {
      var h := node.kind.callee.value;
      var e', f' := Env(ws, ns, [], map[]), Env(ws', ns', [], map[]);
      EvalAllSound(g, p.memo, I, fuel - 1, e, n, node.withs);
      EvalAllSound(g, p.memo, I, fuel - 1, e, n, node.norms);
      FuncEnvGood(g, p.memo, n, h, ws, ns);
      FuncEnvSame(p, d, n, h, e', f');
      EnterSame(p, d, I, J, fuel - 1, n, h, e', f');
    }
  }

  lemma {:induction false} EnterSame(p: Problem, d: DemandMap, I: Interp, J: Interp, fuel: nat, n: NodeId, h: GraphId, e: Env, f: Env)
    requires Analysed(p, d) && Agree(d, I, J) && n in p.g.node && DataOnly(I)
    requires p.g.node[n].kind == Func(Some(h)) || MayCall(p.g, p.memo, n, h)
    requires EnvGood(p.g, p.memo, h, e) && EnvSame(p, d, h, e, f)
    ensures SameAt(p, d, On(d, n), Enter(p.g, I, fuel, h, e), Enter(p.g, J, fuel, h, f))
    decreases fuel, 2
  {
    hide Solution, Closed, Same, SameSlot, SameAt, EnvGood, EnvSame, Agree, DataOnly;
    if h in p.g.exitSrc {
      EvalSame(p, d, I, J, fuel, e, f, p.g.exitSrc[h]);
      ResultSame(p, d, n, h, Enter(p.g, I, fuel, h, e), Enter(p.g, J, fuel, h, f));
    } else {
      BotSameAt(p, d, On(d, n));
    }
  }

  /** Both runs call a closure of the same graph, one the table lists. */
  lemma {:induction false} CallSame(p: Problem, d: DemandMap, I: Interp, J: Interp, fuel: nat, e: Env, f: Env, n: NodeId)
    requires Analysed(p, d) && Agree(d, I, J) && n in p.g.node && p.g.node[n].kind.Call? && fuel > 0 && On(d, n) != {} && DataOnly(I)
    requires EnvGood(p.g, p.memo, p.g.node[n].graph, e) && EnvSame(p, d, p.g.node[n].graph, e, f)
    ensures SameAt(p, d, On(d, n), Eval(p.g, I, fuel, e, n), Eval(p.g, J, fuel, f, n))
    decreases fuel - 1, 3
  {
    hide Solution, Closed, Same, SameSlot, SameAt, EnvGood, EnvSame, Agree, DataOnly, Sound, Good, Eval, MayCall;
    var g := p.g;
    assert NodeOk(g, n);
    var node := g.node[n];
    BotSameAt(p, d, On(d, n));
    CallValue(g, I, fuel, e, n);
    CallValue(g, J, fuel, f, n);
    if node.withs != [] {
      var a, b := Eval(g, I, fuel - 1, e, node.withs[0]), Eval(g, J, fuel - 1, f, node.withs[0]);
      EvalSame(p, d, I, J, fuel - 1, e, f, node.withs[0]);
      CalleeSame(p, d, n, a, b);
      if a.Clo? {
        EvalSound(g, p.memo, I, fuel - 1, e, node.withs[0]);
        CalleeListed(g, p.memo, n, a);
        EvalAllSound(g, p.memo, I, fuel - 1, e, n, node.withs[1..]);
        EvalAllSound(g, p.memo, I, fuel - 1, e, n, node.norms);
        EvalAllSame(p, d, I, J, fuel - 1, e, f, n, node.withs[1..]);
        EvalAllSame(p, d, I, J, fuel - 1, e, f, n, node.norms);
        var e' := Env(EvalAll(g, I, fuel - 1, e, node.withs[1..]), EvalAll(g, I, fuel - 1, e, node.norms), a.caps, map[]);
        var f' := Env(EvalAll(g, J, fuel - 1, f, node.withs[1..]), EvalAll(g, J, fuel - 1, f, node.norms), b.caps, map[]);
        CallEnvGood(g, p.memo, n, a, e'.withs, e'.norms);
        CallEnvSame(p, d, n, a.target, e', f');
        EnterSame(p, d, I, J, fuel - 1, n, a.target, e', f');
      }
    }
  }

  lemma CalleeSame(p: Problem, d: DemandMap, n: NodeId, a: Value, b: Value)
    requires Closed(p, d) && n in p.g.node && p.g.node[n].kind.Call? && On(d, n) != {} && p.g.node[n].withs != []
    requires SameAt(p, d, On(d, p.g.node[n].withs[0]), a, b)
    ensures Same(p, d, a, b) && (a.Clo? <==> b.Clo?)
    ensures a.Clo? ==> a.target == b.target && a == Clo(a.target, a.caps) && b == Clo(a.target, b.caps)
  {
    InputAgrees(p, d, n, 0, a, b);
  }

  /** Non-interference. Whatever the undemanded operators are replaced by (another operator, a
      fault, nothing at all), the root returns the same result. */
  lemma UnusedIsRemovable(p: Problem, d: DemandMap, I: Interp, J: Interp, fuel: nat, args: Env)
    requires Analysed(p, d) && Agree(d, I, J) && FreeEnv(args) && DataOnly(I)
    ensures Flat(Enter(p.g, I, fuel, p.root, args)) == Flat(Enter(p.g, J, fuel, p.root, args))
    ensures Whole(Enter(p.g, I, fuel, p.root, args)) <==> Whole(Enter(p.g, J, fuel, p.root, args))
  {
    hide Solution, Same, SameSlot, EnvGood, EnvSame, Agree, DataOnly;
    if p.root in p.g.exitSrc {
      var src := p.g.exitSrc[p.root];
      FreeEnvGood(p.g, p.memo, p.root, args);
      FreeEnvSame(p, d, p.root, args);
      EvalSame(p, d, I, J, fuel, args, args, src);
      assert ExitClosed(p, d, p.root);
      SameIsFlatEqual(p, d, Enter(p.g, I, fuel, p.root, args), Enter(p.g, J, fuel, p.root, args));
    }
  }

  lemma FreeEnvSame(p: Problem, d: DemandMap, h: GraphId, env: Env)
    requires FreeEnv(env)
    ensures EnvSame(p, d, h, env, env)
  {
    hide Same, SameSlot, SameAt;
    forall k | k in p.g.port && k.graph == h
      ensures SameAt(p, d, On(d, p.g.port[k]), PortValue(k, env), PortValue(k, env))
    {
      assert ClosureFree(PortValue(k, env));
      FreeIsSame(p, d, PortValue(k, env));
      SameIsSameAt(p, d, On(d, p.g.port[k]), PortValue(k, env), PortValue(k, env));
    }
    forall j | 0 <= j < |env.caps| && j < |CPorts(p.g, h)|
      ensures SameAt(p, d, On(d, CPorts(p.g, h)[j]), env.caps[j], env.caps[j])
    {
      FreeIsSame(p, d, env.caps[j]);
      SameIsSameAt(p, d, On(d, CPorts(p.g, h)[j]), env.caps[j], env.caps[j]);
    }
  }
}
