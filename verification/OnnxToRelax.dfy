/** The thin translator from an ONNX graph to a list of let-bindings. Tensors are opaque codes and
    operators arbitrary functions, so the result holds for every meaning of the operators. */
module OnnxToRelax {
  import opened Wrappers

  type Tensor = int

  datatype Op = MatMul | Add | Relu | Identity | Other(name: string)

  /** What an operator computes. Identity is fixed: it is its operand. */
  type Meaning = (Op, seq<Tensor>) -> Tensor

  function Compute(sem: Meaning, op: Op, args: seq<Tensor>): Tensor {
    if op.Identity? && |args| == 1 then args[0] else sem(op, args)
  }

  datatype Initializer = Initializer(name: string, value: Tensor)
  datatype Input = Input(name: string, typed: bool)     // typed: the element type is one of the four known
  datatype Node = Node(op: Op, inputs: seq<string>, outputs: seq<string>)
  datatype Graph = Graph(initializers: seq<Initializer>, inputs: seq<Input>, nodes: seq<Node>, outputs: seq<string>)

  datatype Expr = Const(value: Tensor) | Param(k: nat) | Var(k: nat)
  datatype Binding = Binding(op: Op, args: seq<Expr>)
  datatype Function = Function(params: seq<string>, bindings: seq<Binding>, result: Expr)

  predicate Mapped(op: Op) { !op.Other? }

  function Arity(op: Op): nat { if op.MatMul? || op.Add? then 2 else 1 }

  // ---- what the graph means

  function InitValues(g: Graph, n: nat): map<string, Tensor>
    requires n <= |g.initializers|
  {
    if n == 0 then map[] else InitValues(g, n - 1)[g.initializers[n - 1].name := g.initializers[n - 1].value]
  }

  function InitNames(g: Graph): set<string> {
    set i | 0 <= i < |g.initializers| :: g.initializers[i].name
  }

  /** The inputs a caller feeds, in order: those that are not initializers. */
  function InputNames(g: Graph): seq<string> {
    NamesUpTo(g, |g.inputs|)
  }

  function NamesUpTo(g: Graph, n: nat): seq<string>
    requires n <= |g.inputs|
  {
    if n == 0 then []
    else NamesUpTo(g, n - 1) + (if g.inputs[n - 1].name in InitNames(g) then [] else [g.inputs[n - 1].name])
  }

  function Get(env: map<string, Tensor>, name: string): Tensor {
    if name in env then env[name] else 0
  }

  function GetAll(env: map<string, Tensor>, names: seq<string>): (r: seq<Tensor>)
    ensures |r| == |names| && forall i :: 0 <= i < |names| ==> r[i] == Get(env, names[i])
  {
    if names == [] then [] else [Get(env, names[0])] + GetAll(env, names[1..])
  }

  /** The values defined after the first `n` nodes have run in order. */
  function RunNodes(g: Graph, sem: Meaning, start: map<string, Tensor>, n: nat): map<string, Tensor>
    requires n <= |g.nodes|
  {
    if n == 0 then start
    else
      var env, node := RunNodes(g, sem, start, n - 1), g.nodes[n - 1];
      if node.outputs == [] then env
      else env[node.outputs[0] := Compute(sem, node.op, GetAll(env, node.inputs))]
  }

  /** Feeds for the non-initializer inputs, with the initializers' own values. */
  function StartValues(g: Graph, feeds: map<string, Tensor>): map<string, Tensor> {
    (map x | x in InputNames(g) :: Get(feeds, x)) + InitValues(g, |g.initializers|)
  }

  /** The value of the graph's first output. */
  function RunGraph(g: Graph, sem: Meaning, feeds: map<string, Tensor>): Tensor
    requires g.outputs != []
  {
    Get(RunNodes(g, sem, StartValues(g, feeds), |g.nodes|), g.outputs[0])
  }

  // ---- what the bindings mean

  function ExprValue(e: Expr, args: seq<Tensor>, vals: seq<Tensor>): Tensor {
    match e
    case Const(v) => v
    case Param(k) => if k < |args| then args[k] else 0
    case Var(k) => if k < |vals| then vals[k] else 0
  }

  function ExprValues(es: seq<Expr>, args: seq<Tensor>, vals: seq<Tensor>): (r: seq<Tensor>)
    ensures |r| == |es| && forall i :: 0 <= i < |es| ==> r[i] == ExprValue(es[i], args, vals)
  {
    if es == [] then [] else [ExprValue(es[0], args, vals)] + ExprValues(es[1..], args, vals)
  }

  function BindingValues(bs: seq<Binding>, sem: Meaning, args: seq<Tensor>): (r: seq<Tensor>)
    ensures |r| == |bs|
  {
    if bs == [] then []
    else
      var front, b := BindingValues(bs[..|bs| - 1], sem, args), bs[|bs| - 1];
      front + [Compute(sem, b.op, ExprValues(b.args, args, front))]
  }

  function RunFunction(f: Function, sem: Meaning, args: seq<Tensor>): Tensor {
    ExprValue(f.result, args, BindingValues(f.bindings, sem, args))
  }

  // ---- the translation

  function InitExprs(g: Graph, n: nat): map<string, Expr>
    requires n <= |g.initializers|
  {
    if n == 0 then map[] else InitExprs(g, n - 1)[g.initializers[n - 1].name := Const(g.initializers[n - 1].value)]
  }

  datatype Scope = Scope(env: map<string, Expr>, params: seq<string>)

  /** The scope after the first `n` inputs; None for an unknown element type. */
  function BindInputs(g: Graph, n: nat): Option<Scope>
    requires n <= |g.inputs|
  {
    if n == 0 then Some(Scope(InitExprs(g, |g.initializers|), []))
    else
      var s :- BindInputs(g, n - 1);
      var v := g.inputs[n - 1];
      if v.name in s.env then Some(s)
      else if !v.typed then None
      else Some(Scope(s.env[v.name := Param(|s.params|)], s.params + [v.name]))
  }

  datatype Block = Block(env: map<string, Expr>, bindings: seq<Binding>)

  function ArgsOf(env: map<string, Expr>, names: seq<string>): (r: seq<Expr>)
    requires forall i :: 0 <= i < |names| ==> names[i] in env
    ensures |r| == |names| && forall i :: 0 <= i < |names| ==> r[i] == env[names[i]]
  {
    if names == [] then [] else [env[names[0]]] + ArgsOf(env, names[1..])
  }

  /** Can the node be translated in a scope that defines `names`? */
  predicate NodeOk(node: Node, names: set<string>) {
    Mapped(node.op) && |node.inputs| == Arity(node.op) && node.outputs != []
    && forall i :: 0 <= i < |node.inputs| ==> node.inputs[i] in names
  }

  function TranslateNode(b: Block, node: Node): Block
    requires NodeOk(node, b.env.Keys)
  {
    var args := ArgsOf(b.env, node.inputs);
    if node.op.Identity? then Block(b.env[node.outputs[0] := args[0]], b.bindings)
    else Block(b.env[node.outputs[0] := Var(|b.bindings|)], b.bindings + [Binding(node.op, args)])
  }

  function TranslateNodes(g: Graph, start: map<string, Expr>, n: nat): Option<Block>
    requires n <= |g.nodes|
  {
    if n == 0 then Some(Block(start, []))
    else
      var b :- TranslateNodes(g, start, n - 1);
      if NodeOk(g.nodes[n - 1], b.env.Keys) then Some(TranslateNode(b, g.nodes[n - 1])) else None
  }

  function Translation(g: Graph): Option<Function> {
    var s :- BindInputs(g, |g.inputs|);
    var b :- TranslateNodes(g, s.env, |g.nodes|);
    if g.outputs != [] && g.outputs[0] in b.env then Some(Function(s.params, b.bindings, b.env[g.outputs[0]])) else None
  }

  lemma {:induction false} InputsFail(g: Graph, i: nat, n: nat)
    requires i <= n <= |g.inputs| && BindInputs(g, i).None?
    ensures BindInputs(g, n).None?
  {
    if i < n { InputsFail(g, i, n - 1); }
  }

  lemma {:induction false} NodesFail(g: Graph, start: map<string, Expr>, i: nat, n: nat)
    requires i <= n <= |g.nodes| && TranslateNodes(g, start, i).None?
    ensures TranslateNodes(g, start, n).None?
  {
    if i < n { NodesFail(g, start, i, n - 1); }
  }

  /** Replays the graph into bindings; None where the original raises. */
  method Translate(g: Graph) returns (r: Option<Function>)
    ensures r == Translation(g)
  {
    var env: map<string, Expr> := map[];
    for i := 0 to |g.initializers|
      invariant env == InitExprs(g, i)
    {
      env := env[g.initializers[i].name := Const(g.initializers[i].value)];
    }
    var params: seq<string> := [];
    for i := 0 to |g.inputs|
      invariant BindInputs(g, i) == Some(Scope(env, params))
    {
      var v := g.inputs[i];
      if v.name !in env {
        if !v.typed {
          InputsFail(g, i + 1, |g.inputs|);
          return None;
        }
        env, params := env[v.name := Param(|params|)], params + [v.name];
      }
    }
    ghost var start := env;
    var bindings: seq<Binding> := [];
    for i := 0 to |g.nodes|
      invariant TranslateNodes(g, start, i) == Some(Block(env, bindings))
    {
      var node := g.nodes[i];
      if !NodeOk(node, env.Keys) {
        NodesFail(g, start, i + 1, |g.nodes|);
        return None;
      }
      var args := ArgsOf(env, node.inputs);
      if node.op.Identity? {
        env := env[node.outputs[0] := args[0]];
      } else {
        env := env[node.outputs[0] := Var(|bindings|)];
        bindings := bindings + [Binding(node.op, args)];
      }
    }
    if g.outputs == [] || g.outputs[0] !in env { return None; }
    r := Some(Function(params, bindings, env[g.outputs[0]]));
  }

  // ---- it means the same

  /** Every name in scope stands for the value the graph gives it. */
  ghost predicate Matches(env: map<string, Expr>, vals: map<string, Tensor>, args: seq<Tensor>, lets: seq<Tensor>) {
    && env.Keys == vals.Keys
    && (forall x :: x in env ==> ExprValue(env[x], args, lets) == vals[x])
    && (forall x :: x in env ==> env[x].Var? ==> env[x].k < |lets|)
  }

  lemma {:induction false} InitMatches(g: Graph, n: nat)
    requires n <= |g.initializers|
    ensures InitExprs(g, n).Keys == InitValues(g, n).Keys
    ensures InitValues(g, n).Keys == set i | 0 <= i < n :: g.initializers[i].name
    ensures forall x :: x in InitExprs(g, n) ==> InitExprs(g, n)[x] == Const(InitValues(g, n)[x])
  {
    if n > 0 { InitMatches(g, n - 1); }
  }

  ghost predicate Distinct(xs: seq<string>) {
    forall i, j :: 0 <= i < j < |xs| ==> xs[i] != xs[j]
  }

  function Dedup(xs: seq<string>): (r: seq<string>)
    ensures forall x :: x in r <==> x in xs
    ensures Distinct(r)
  {
    if xs == [] then []
    else
      var front, x := Dedup(xs[..|xs| - 1]), xs[|xs| - 1];
      assert xs == xs[..|xs| - 1] + [x];
      if x in front then front else front + [x]
  }

  /** What the scope holds after the first `n` inputs: parameters are the fed inputs, first
      occurrences only, and initializers never become parameters. */
  ghost predicate ScopeOk(g: Graph, n: nat, s: Scope)
    requires n <= |g.inputs|
  {
    var inits := InitExprs(g, |g.initializers|);
    && s.params == Dedup(NamesUpTo(g, n))
    && (forall x :: x in s.env <==> x in inits || x in s.params)
    && (forall x :: x in inits ==> s.env[x] == inits[x])
    && (forall k :: 0 <= k < |s.params| ==> s.params[k] !in inits && s.env[s.params[k]] == Param(k))
  }

  lemma InitNamesAre(g: Graph, x: string)
    ensures x in InitExprs(g, |g.initializers|) <==> x in InitNames(g)
  {
    InitMatches(g, |g.initializers|);
  }

  lemma NamesStep(g: Graph, n: nat)
    requires 0 < n <= |g.inputs|
    ensures var name, before := g.inputs[n - 1].name, Dedup(NamesUpTo(g, n - 1));
      Dedup(NamesUpTo(g, n)) == if name in InitNames(g) || name in before then before else before + [name]
  {
    var name, names := g.inputs[n - 1].name, NamesUpTo(g, n);
    if name in InitNames(g) {
      assert names == NamesUpTo(g, n - 1);
    } else {
      assert names[..|names| - 1] == NamesUpTo(g, n - 1) && names[|names| - 1] == name;
    }
  }

  lemma {:induction false} ParamsAre(g: Graph, n: nat)
    requires n <= |g.inputs| && BindInputs(g, n).Some?
    ensures ScopeOk(g, n, BindInputs(g, n).value)
  {
    hide Dedup, InitExprs, InitNames, NamesUpTo;
    if n == 0 {
      NoNamesYet(g);
    } else {
      ParamsAre(g, n - 1);
      NamesStep(g, n);
      InitNamesAre(g, g.inputs[n - 1].name);
    }
  }

  lemma NoNamesYet(g: Graph)
    ensures Dedup(NamesUpTo(g, 0)) == []
  {
  }

  lemma {:induction false} DedupDistinct(xs: seq<string>)
    ensures |Dedup(xs)| <= |xs| && (Dedup(xs) == xs <==> Distinct(xs))
  {
    if xs != [] {
      var front := xs[..|xs| - 1];
      DedupDistinct(front);
      assert xs == front + [xs[|xs| - 1]];
      if Distinct(xs) { assert Distinct(front); }
    }
  }

  /** The start of the run: a fed name has its feed, an initializer its own value. */
  lemma StartValuesAre(g: Graph, feeds: map<string, Tensor>, x: string)
    ensures var inits, names := InitValues(g, |g.initializers|), InputNames(g);
      && (x in StartValues(g, feeds) <==> x in inits || x in names)
      && (x in inits ==> StartValues(g, feeds)[x] == inits[x])
      && (x in names && x !in inits ==> StartValues(g, feeds)[x] == Get(feeds, x))
  {
    hide InitValues, InputNames;
  }

  lemma ScopeMatches(g: Graph, feeds: map<string, Tensor>)
    requires BindInputs(g, |g.inputs|).Some? && Distinct(InputNames(g))
    ensures Matches(BindInputs(g, |g.inputs|).value.env, StartValues(g, feeds), GetAll(feeds, InputNames(g)), [])
  {
    hide Dedup, InitExprs, InitNames, NamesUpTo, BindInputs, InitValues, InputNames, StartValues, Distinct, GetAll;
    ParamsAre(g, |g.inputs|);
    InitMatches(g, |g.initializers|);
    DedupDistinct(InputNames(g));
    InputNamesAre(g);
    var s, vals, args := BindInputs(g, |g.inputs|).value, StartValues(g, feeds), GetAll(feeds, InputNames(g));
    assert s.params == InputNames(g);
    forall x
      ensures x in s.env <==> x in vals
      ensures x in s.env ==> ExprValue(s.env[x], args, []) == vals[x] && !s.env[x].Var?
    {
      StartValuesAre(g, feeds, x);
      if x in s.params {
        var k :| 0 <= k < |s.params| && s.params[k] == x;
        assert args[k] == Get(feeds, x);
      }
    }
  }

  lemma InputNamesAre(g: Graph)
    ensures InputNames(g) == NamesUpTo(g, |g.inputs|)
  {
  }

  lemma ArgsMatch(env: map<string, Expr>, vals: map<string, Tensor>, args: seq<Tensor>, lets: seq<Tensor>, names: seq<string>)
    requires Matches(env, vals, args, lets) && forall i :: 0 <= i < |names| ==> names[i] in env
    ensures ExprValues(ArgsOf(env, names), args, lets) == GetAll(vals, names)
  {
  }

  lemma StepMatches(b: Block, vals: map<string, Tensor>, sem: Meaning, args: seq<Tensor>, node: Node)
    requires NodeOk(node, b.env.Keys) && Matches(b.env, vals, args, BindingValues(b.bindings, sem, args))
    ensures var b' := TranslateNode(b, node);
      Matches(b'.env, vals[node.outputs[0] := Compute(sem, node.op, GetAll(vals, node.inputs))], args, BindingValues(b'.bindings, sem, args))
  {
    var lets := BindingValues(b.bindings, sem, args);
    ArgsMatch(b.env, vals, args, lets, node.inputs);
    var b' := TranslateNode(b, node);
    if !node.op.Identity? {
      assert b'.bindings[..|b.bindings|] == b.bindings;
      var lets' := BindingValues(b'.bindings, sem, args);
      assert lets' == lets + [Compute(sem, node.op, GetAll(vals, node.inputs))];
    }
  }

  lemma {:induction false} NodesMatch(g: Graph, start: map<string, Expr>, vals: map<string, Tensor>, sem: Meaning, args: seq<Tensor>, n: nat)
    requires n <= |g.nodes| && TranslateNodes(g, start, n).Some? && Matches(start, vals, args, [])
    ensures var b := TranslateNodes(g, start, n).value;
      Matches(b.env, RunNodes(g, sem, vals, n), args, BindingValues(b.bindings, sem, args))
  {
    if n > 0 {
      NodesMatch(g, start, vals, sem, args, n - 1);
      StepMatches(TranslateNodes(g, start, n - 1).value, RunNodes(g, sem, vals, n - 1), sem, args, g.nodes[n - 1]);
    }
  }

  /** Translation preserves meaning: called with the feeds in the order of `InputNames`, the bindings
      compute the graph's first output, whatever the operators and tensors are. */
  lemma TranslationMeans(g: Graph, sem: Meaning, feeds: map<string, Tensor>)
    requires Translation(g).Some? && Distinct(InputNames(g))
    ensures g.outputs != []
    ensures RunFunction(Translation(g).value, sem, GetAll(feeds, InputNames(g))) == RunGraph(g, sem, feeds)
  {
    var s := BindInputs(g, |g.inputs|).value;
    var args := GetAll(feeds, InputNames(g));
    ScopeMatches(g, feeds);
    NodesMatch(g, s.env, StartValues(g, feeds), sem, args, |g.nodes|);
  }

  /** The operators that translate, with their operand counts. */
  lemma MappedOperators(node: Node, names: set<string>)
    ensures NodeOk(node, names) <==>
      && node.outputs != [] && (forall x :: x in node.inputs ==> x in names)
      && (|| (node.op == MatMul && |node.inputs| == 2) || (node.op == Add && |node.inputs| == 2)
          || (node.op == Relu && |node.inputs| == 1) || (node.op == Identity && |node.inputs| == 1))
  {
    if forall i :: 0 <= i < |node.inputs| ==> node.inputs[i] in names {
      forall x | x in node.inputs ensures x in names { var i :| 0 <= i < |node.inputs| && node.inputs[i] == x; }
    }
  }

  // ---- which graphs translate

  /** Names given a value by the first `n` nodes. */
  function Produced(g: Graph, n: nat): set<string>
    requires n <= |g.nodes|
  {
    set i | 0 <= i < n && g.nodes[i].outputs != [] :: g.nodes[i].outputs[0]
  }

  /** Names that have a value before node `n` runs. */
  function Known(g: Graph, n: nat): set<string>
    requires n <= |g.nodes|
  {
    InitNames(g) + (set i | 0 <= i < |g.inputs| :: g.inputs[i].name) + Produced(g, n)
  }

  /** An input that becomes a parameter has a known element type. */
  ghost predicate InputOk(g: Graph, i: nat)
    requires i < |g.inputs|
  {
    var v := g.inputs[i];
    v.name in InitNames(g) || v.typed || exists j :: 0 <= j < i && g.inputs[j].name == v.name
  }

  /** Mapped operators only, every value defined before it is read. */
  ghost predicate Sorted(g: Graph) {
    && (forall i :: 0 <= i < |g.inputs| ==> InputOk(g, i))
    && (forall i :: 0 <= i < |g.nodes| ==> NodeOk(g.nodes[i], Known(g, i)))
    && g.outputs != [] && g.outputs[0] in Known(g, |g.nodes|)
  }

  lemma {:induction false} InputsBind(g: Graph, n: nat)
    requires n <= |g.inputs|
    ensures BindInputs(g, n).Some? <==> forall i :: 0 <= i < n ==> InputOk(g, i)
    ensures BindInputs(g, n).Some? ==>
      BindInputs(g, n).value.env.Keys == InitNames(g) + set i | 0 <= i < n :: g.inputs[i].name
  {
    if n == 0 {
      InitMatches(g, |g.initializers|);
    } else {
      InputsBind(g, n - 1);
      var before := BindInputs(g, n - 1);
      if before.Some? {
        assert BindInputs(g, n).Some? <==> g.inputs[n - 1].name in before.value.env || g.inputs[n - 1].typed;
        assert BindInputs(g, n).Some? <==> InputOk(g, n - 1);
      } else {
        var i :| 0 <= i < n - 1 && !InputOk(g, i);
      }
    }
  }

  lemma {:induction false} NodesTranslate(g: Graph, start: map<string, Expr>, n: nat)
    requires n <= |g.nodes| && start.Keys == Known(g, 0)
    ensures TranslateNodes(g, start, n).Some? <==> forall i :: 0 <= i < n ==> NodeOk(g.nodes[i], Known(g, i))
    ensures TranslateNodes(g, start, n).Some? ==> TranslateNodes(g, start, n).value.env.Keys == Known(g, n)
  {
    hide NodeOk;
    if n > 0 { NodesTranslate(g, start, n - 1); NodeDefines(g, n); }
  }

  lemma NodeDefines(g: Graph, n: nat)
    requires 0 < n <= |g.nodes|
    ensures NodeOk(g.nodes[n - 1], Known(g, n - 1)) ==>
      g.nodes[n - 1].outputs != [] && Known(g, n) == Known(g, n - 1) + {g.nodes[n - 1].outputs[0]}
  {
    if g.nodes[n - 1].outputs != [] {
      assert g.nodes[n - 1].outputs[0] in Produced(g, n);
    }
  }

  /** Exactly the sorted graphs of mapped operators translate. */
  lemma TranslatesExactly(g: Graph)
    ensures Translation(g).Some? <==> Sorted(g)
  {
    hide NodeOk, InputOk;
    InputsBind(g, |g.inputs|);
    if BindInputs(g, |g.inputs|).Some? {
      NodesTranslate(g, BindInputs(g, |g.inputs|).value.env, |g.nodes|);
    }
  }

  /** The function takes as many arguments as are passed exactly when no input name is repeated. */
  lemma ParametersFitArguments(g: Graph)
    requires Translation(g).Some?
    ensures Translation(g).value.params == InputNames(g) <==> Distinct(InputNames(g))
    ensures |Translation(g).value.params| == |InputNames(g)| <==> Distinct(InputNames(g))
    ensures forall x :: x in Translation(g).value.params ==> x !in InitNames(g)
  {
    hide Dedup, InitExprs, InitNames, NamesUpTo, BindInputs, TranslateNodes, InputNames;
    ParamsAre(g, |g.inputs|);
    InputNamesAre(g);
    DedupDistinct(InputNames(g));
    DedupShorter(InputNames(g));
    forall x | x in Translation(g).value.params ensures x !in InitNames(g) { InitNamesAre(g, x); }
  }

  function Repeated(g: Graph, i: nat): Graph
    requires i < |g.inputs|
  {
    g.(inputs := g.inputs + [g.inputs[i]])
  }

  lemma {:induction false} RepeatedNames(g: Graph, i: nat, n: nat)
    requires i < |g.inputs| && n <= |g.inputs|
    ensures NamesUpTo(Repeated(g, i), n) == NamesUpTo(g, n)
    ensures i < n && g.inputs[i].name !in InitNames(g) ==> g.inputs[i].name in NamesUpTo(g, n)
  {
    if n > 0 { RepeatedNames(g, i, n - 1); }
  }

  lemma RepeatedSorted(g: Graph, i: nat)
    requires Sorted(g) && i < |g.inputs|
    ensures Sorted(Repeated(g, i))
  {
    hide NodeOk;
    var g' := Repeated(g, i);
    forall j | 0 <= j < |g'.inputs| ensures InputOk(g', j) {
      if j < |g.inputs| {
        assert InputOk(g, j);
        if k :| 0 <= k < j && g.inputs[k].name == g.inputs[j].name { assert g'.inputs[k].name == g'.inputs[j].name; }
      } else {
        assert g'.inputs[i].name == g'.inputs[j].name;
      }
    }
    forall n | 0 <= n <= |g.nodes| ensures Known(g', n) == Known(g, n) { SameKnown(g, i, n); }
  }

  lemma SameKnown(g: Graph, i: nat, n: nat)
    requires i < |g.inputs| && n <= |g.nodes|
    ensures Known(Repeated(g, i), n) == Known(g, n)
  {
    var g' := Repeated(g, i);
    assert InitNames(g') == InitNames(g) && Produced(g', n) == Produced(g, n);
    var here, there := set j | 0 <= j < |g.inputs| :: g.inputs[j].name, set j | 0 <= j < |g'.inputs| :: g'.inputs[j].name;
    forall x | x in here ensures x in there {
      var j :| 0 <= j < |g.inputs| && g.inputs[j].name == x;
      assert g'.inputs[j].name == x;
    }
    assert there == here;
  }

  /** Every graph with an input to feed shows the failing side: with that input listed once more it
      still translates, and the function takes fewer parameters than arguments are passed. */
  lemma RepeatedInputMisfits(g: Graph, i: nat)
    requires Sorted(g) && i < |g.inputs| && g.inputs[i].name !in InitNames(g)
    ensures Translation(Repeated(g, i)).Some?
    ensures |Translation(Repeated(g, i)).value.params| < |InputNames(Repeated(g, i))|
  {
    hide Sorted, Translation, NamesUpTo, Dedup;
    var g' := Repeated(g, i);
    RepeatedSorted(g, i);
    TranslatesExactly(g');
    ParametersFitArguments(g');
    RepeatedNames(g, i, |g.inputs|);
    LastName(g');
    var names, front := InputNames(g'), NamesUpTo(g, |g.inputs|);
    assert names == front + [g.inputs[i].name];
    var k :| 0 <= k < |front| && front[k] == g.inputs[i].name;
    assert names[k] == names[|front|];
    ParamsBounded(g');
  }

  lemma LastName(g: Graph)
    requires g.inputs != []
    ensures InputNames(g) == NamesUpTo(g, |g.inputs| - 1)
      + if g.inputs[|g.inputs| - 1].name in InitNames(g) then [] else [g.inputs[|g.inputs| - 1].name]
  {
  }

  lemma ParamsBounded(g: Graph)
    requires Translation(g).Some?
    ensures |Translation(g).value.params| <= |InputNames(g)|
  {
    hide Dedup, NamesUpTo, InputNames;
    ParamsAre(g, |g.inputs|);
    InputNamesAre(g);
    DedupDistinct(InputNames(g));
  }

  lemma {:induction false} DedupShorter(xs: seq<string>)
    ensures |Dedup(xs)| == |xs| ==> Dedup(xs) == xs
  {
    if xs != [] {
      DedupShorter(xs[..|xs| - 1]);
      DedupDistinct(xs[..|xs| - 1]);
    }
  }

  function CountBinding(nodes: seq<Node>): nat {
    if nodes == [] then 0
    else CountBinding(nodes[..|nodes| - 1]) + if nodes[|nodes| - 1].op.Identity? then 0 else 1
  }

  /** One binding per node, except that Identity adds none. */
  lemma {:induction false} IdentityAddsNoBinding(g: Graph, start: map<string, Expr>, n: nat)
    requires n <= |g.nodes| && TranslateNodes(g, start, n).Some?
    ensures |TranslateNodes(g, start, n).value.bindings| == CountBinding(g.nodes[..n])
  {
    if n > 0 {
      IdentityAddsNoBinding(g, start, n - 1);
      assert g.nodes[..n][..n - 1] == g.nodes[..n - 1];
    }
  }
}
