/** The generated multi-module program: what it prints when it is run is what the generator says
    it prints, and running it stays cheap. Sources are syntax trees, not text. */
module GenModules {
  import opened Wrappers

  datatype Shape = Flat | Chain | Fan

  datatype Name = F(k: nat) | Local(m: nat) | Entry(m: nat)

  /** The expressions the program is made of; every function has one parameter `x`. */
  datatype Expr =
    | Lit(n: int)
    | X
    | Add(a: Expr, b: Expr)
    | Mul(a: Expr, b: Expr)
    | Mod97(a: Expr)
    | IfEven(c: Expr, a: Expr, b: Expr)     // if c % 2 == 0 then a else b
    | Call(f: Name, arg: Expr)

  datatype Func = Func(name: Name, body: Expr)
  datatype Import = Import(name: Name, from: nat)
  datatype Module = Module(imports: seq<Import>, funcs: seq<Func>)

  /** The generator's parameters; the command line asks for at least one function per module. */
  datatype Config = Config(modules: nat, shape: Shape, fan: nat, funcs: nat)

  ghost predicate Valid(c: Config) { c.funcs >= 1 && c.fan >= 1 }

  // ---- what the generator predicts

  /** Indices of the modules that module `index` imports. */
  function ImportsOf(c: Config, index: nat): (r: seq<nat>)
    ensures c.shape.Flat? ==> r == []
    ensures c.shape.Chain? ==> |r| == (if index == 0 then 0 else 1)
    ensures c.shape.Fan? ==> |r| == if index < c.fan then index else c.fan
    ensures forall i :: 0 <= i < |r| ==> r[i] == index - |r| + i < index
  {
    if c.shape.Flat? || index == 0 then []
    else if c.shape.Chain? then [index - 1]
    else
      var lo := if index < c.fan then 0 else index - c.fan;
      seq(index - lo, i requires 0 <= i < index - lo => lo + i)
  }

  /** The function of module `dep` that an importing module calls. */
  function ImportedFunction(c: Config, dep: nat): Name {
    if c.shape.Chain? then Entry(dep) else Local(dep)
  }

  /** The sum of the first `funcs` terms 1 + index % 7 + k. */
  function LocalValue(index: nat, funcs: nat): nat {
    if funcs == 0 then 0 else LocalValue(index, funcs - 1) + (1 + index % 7 + (funcs - 1))
  }

  /** However deep the imports nest, an entry's value stays within 96 of its local value. */
  function EntryValue(c: Config, index: nat): (v: nat)
    ensures LocalValue(index, c.funcs) <= v <= LocalValue(index, c.funcs) + 96
    decreases index, 1, 0
  {
    var deps := ImportsOf(c, index);
    LocalValue(index, c.funcs) + if deps == [] then 0 else DepSum(c, index, deps) % 97
  }

  function DepSum(c: Config, index: nat, deps: seq<nat>): nat
    requires forall i :: 0 <= i < |deps| ==> deps[i] < index
    decreases index, 0, |deps|
  {
    if deps == [] then 0
    else
      var d := deps[|deps| - 1];
      DepSum(c, index, deps[..|deps| - 1]) + if c.shape.Chain? then EntryValue(c, d) else LocalValue(d, c.funcs)
  }

  /** What `entry_NNNN(1)` of each module returns, by the generator's own reckoning. */
  method EntryValues(c: Config) returns (values: seq<nat>)
    ensures |values| == c.modules && forall i :: 0 <= i < c.modules ==> values[i] == EntryValue(c, i)
  {
    hide ImportsOf, LocalValue;
    values := [];
    for index := 0 to c.modules
      invariant |values| == index && forall i :: 0 <= i < index ==> values[i] == EntryValue(c, i)
    {
      var value := LocalValue(index, c.funcs);
      var deps := ImportsOf(c, index);
      if deps != [] {
        var sum := 0;
        for j := 0 to |deps|
          invariant sum == DepSum(c, index, deps[..j])
        {
          assert deps[..j + 1][..j] == deps[..j];
          sum := sum + if c.shape.Chain? then values[deps[j]] else LocalValue(deps[j], c.funcs);
        }
        assert deps[..|deps|] == deps;
        value := value + sum % 97;
      }
      values := values + [value];
    }
  }

  function Total(values: seq<nat>): nat {
    if values == [] then 0 else Total(values[..|values| - 1]) + values[|values| - 1]
  }

  // ---- what the generator writes

  function Body(index: nat, k: nat): Expr {
    var a := IfEven(X, Mul(X, Lit(3)), Add(Add(X, Lit(index % 7)), Lit(k)));
    if k > 0 then Add(a, Call(F(k - 1), X)) else a
  }

  function Fs(index: nat, funcs: nat): (r: seq<Func>)
    ensures |r| == funcs && forall k :: 0 <= k < funcs ==> r[k] == Func(F(k), Body(index, k))
  {
    if funcs == 0 then [] else Fs(index, funcs - 1) + [Func(F(funcs - 1), Body(index, funcs - 1))]
  }

  /** imported_0(x) + imported_1(x) + ... */
  function CallSum(c: Config, deps: seq<nat>): Expr
    requires deps != []
  {
    var last := Call(ImportedFunction(c, deps[|deps| - 1]), X);
    if |deps| == 1 then last else Add(CallSum(c, deps[..|deps| - 1]), last)
  }

  function EntryBody(c: Config, index: nat): Expr {
    var deps := ImportsOf(c, index);
    if deps == [] then Call(Local(index), X) else Add(Call(Local(index), X), Mod97(CallSum(c, deps)))
  }

  function ModuleSource(c: Config, index: nat): Module
    requires Valid(c)
  {
    var deps := ImportsOf(c, index);
    Module(
      seq(|deps|, i requires 0 <= i < |deps| => Import(ImportedFunction(c, deps[i]), deps[i])),
      Fs(index, c.funcs) + [Func(Local(index), Call(F(c.funcs - 1), X)), Func(Entry(index), EntryBody(c, index))])
  }

  function Sources(c: Config): (r: seq<Module>)
    requires Valid(c)
    ensures |r| == c.modules && forall i :: 0 <= i < c.modules ==> r[i] == ModuleSource(c, i)
  {
    seq(c.modules, i requires 0 <= i < c.modules => ModuleSource(c, i))
  }

  /** total = 0 + entry_0000(1) + entry_0001(1) + ... */
  function MainBody(n: nat): Expr {
    if n == 0 then Lit(0) else Add(MainBody(n - 1), Call(Entry(n - 1), Lit(1)))
  }

  function MainSource(n: nat): Module {
    Module(seq(n, i requires 0 <= i < n => Import(Entry(i), i)), [])
  }

  // ---- the interpreter

  function Lookup(funcs: seq<Func>, name: Name): Option<Expr> {
    if funcs == [] then None
    else if funcs[0].name == name then Some(funcs[0].body)
    else Lookup(funcs[1..], name)
  }

  function FindImport(imports: seq<Import>, name: Name): Option<nat> {
    if imports == [] then None
    else if imports[0].name == name then Some(imports[0].from)
    else FindImport(imports[1..], name)
  }

  datatype Target = Target(home: Module, body: Expr)

  /** A name means the module's own function, else the function of that name it imports. */
  function Resolve(prog: seq<Module>, cur: Module, name: Name): Option<Target> {
    var own := Lookup(cur.funcs, name);
    if own.Some? then Some(Target(cur, own.value))
    else
      var from :- FindImport(cur.imports, name);
      if from >= |prog| then None
      else
        var body :- Lookup(prog[from].funcs, name);
        Some(Target(prog[from], body))
  }

  /** A value and the number of function calls made to compute it. */
  datatype Outcome = Outcome(value: int, calls: nat)

  /** None: a name does not resolve, or the calls nest deeper than `fuel`. */
  function Eval(prog: seq<Module>, fuel: nat, cur: Module, e: Expr, x: int): Option<Outcome>
    decreases fuel, 1, e
  {
    match e
    case Lit(n) => Some(Outcome(n, 0))
    case X => Some(Outcome(x, 0))
    case Add(a, b) =>
      var l :- Eval(prog, fuel, cur, a, x);
      var r :- Eval(prog, fuel, cur, b, x);
      Some(Outcome(l.value + r.value, l.calls + r.calls))
    case Mul(a, b) =>
      var l :- Eval(prog, fuel, cur, a, x);
      var r :- Eval(prog, fuel, cur, b, x);
      Some(Outcome(l.value * r.value, l.calls + r.calls))
    case Mod97(a) =>
      var l :- Eval(prog, fuel, cur, a, x);
      Some(Outcome(l.value % 97, l.calls))
    case IfEven(c, a, b) =>
      var v :- Eval(prog, fuel, cur, c, x);
      var r :- Eval(prog, fuel, cur, if v.value % 2 == 0 then a else b, x);
      Some(Outcome(r.value, v.calls + r.calls))
    case Call(f, arg) =>
      var v :- Eval(prog, fuel, cur, arg, x);
      var r :- Invoke(prog, fuel, cur, f, v.value);
      Some(Outcome(r.value, v.calls + r.calls))
  }

  function Invoke(prog: seq<Module>, fuel: nat, cur: Module, f: Name, x: int): Option<Outcome>
    decreases fuel, 0
  {
    if fuel == 0 then None
    else
      var t :- Resolve(prog, cur, f);
      var r :- Eval(prog, fuel - 1, t.home, t.body, x);
      Some(Outcome(r.value, r.calls + 1))
  }

  // ---- names resolve

  lemma {:induction false} LookupAt(funcs: seq<Func>, i: nat)
    requires i < |funcs| && forall j :: 0 <= j < i ==> funcs[j].name != funcs[i].name
    ensures Lookup(funcs, funcs[i].name) == Some(funcs[i].body)
  {
    if i > 0 { LookupAt(funcs[1..], i - 1); }
  }

  lemma {:induction false} LookupMissing(funcs: seq<Func>, name: Name)
    requires forall j :: 0 <= j < |funcs| ==> funcs[j].name != name
    ensures Lookup(funcs, name) == None
  {
    if funcs != [] { LookupMissing(funcs[1..], name); }
  }

  lemma {:induction false} FindImportAt(imports: seq<Import>, i: nat)
    requires i < |imports| && forall j :: 0 <= j < i ==> imports[j].name != imports[i].name
    ensures FindImport(imports, imports[i].name) == Some(imports[i].from)
  {
    if i > 0 { FindImportAt(imports[1..], i - 1); }
  }

  lemma OwnNames(c: Config, prog: seq<Module>, index: nat)
    requires Valid(c)
    ensures forall k :: 0 <= k < c.funcs ==>
      Resolve(prog, ModuleSource(c, index), F(k)) == Some(Target(ModuleSource(c, index), Body(index, k)))
    ensures Resolve(prog, ModuleSource(c, index), Local(index)) == Some(Target(ModuleSource(c, index), Call(F(c.funcs - 1), X)))
    ensures Resolve(prog, ModuleSource(c, index), Entry(index)) == Some(Target(ModuleSource(c, index), EntryBody(c, index)))
  {
    var fs := ModuleSource(c, index).funcs;
    forall k | 0 <= k < c.funcs ensures Lookup(fs, F(k)) == Some(Body(index, k)) { LookupAt(fs, k); }
    LookupAt(fs, c.funcs);
    LookupAt(fs, c.funcs + 1);
  }

  lemma OwnFound(c: Config, index: nat)
    requires Valid(c)
    ensures Lookup(ModuleSource(c, index).funcs, Entry(index)) == Some(EntryBody(c, index))
    ensures Lookup(ModuleSource(c, index).funcs, Local(index)) == Some(Call(F(c.funcs - 1), X))
  {
    var fs := ModuleSource(c, index).funcs;
    LookupAt(fs, c.funcs);
    LookupAt(fs, c.funcs + 1);
  }

  lemma ImportedNames(c: Config, index: nat, i: nat)
    requires Valid(c) && index < c.modules && i < |ImportsOf(c, index)|
    ensures var d := ImportsOf(c, index)[i];
      Resolve(Sources(c), ModuleSource(c, index), ImportedFunction(c, d))
        == Resolve(Sources(c), ModuleSource(c, d), ImportedFunction(c, d))
  {
    var m, d := ModuleSource(c, index), ImportsOf(c, index)[i];
    LookupMissing(m.funcs, ImportedFunction(c, d));
    FindImportAt(m.imports, i);
    OwnFound(c, d);
  }

  // ---- values

  lemma {:induction false} InvokeIs(prog: seq<Module>, fuel: nat, cur: Module, f: Name, x: int, t: Target)
    requires fuel > 0 && Resolve(prog, cur, f) == Some(t)
    ensures var r := Eval(prog, fuel - 1, t.home, t.body, x);
      Invoke(prog, fuel, cur, f, x) == if r.Some? then Some(Outcome(r.value.value, r.value.calls + 1)) else None
  {
  }

  lemma {:induction false} CallIs(prog: seq<Module>, fuel: nat, cur: Module, f: Name, x: int)
    ensures Eval(prog, fuel, cur, Call(f, X), x) == Invoke(prog, fuel, cur, f, x)
  {
    assert Eval(prog, fuel, cur, X, x) == Some(Outcome(x, 0));
  }

  lemma {:induction false} AddIs(prog: seq<Module>, fuel: nat, cur: Module, a: Expr, b: Expr, x: int)
    ensures var l, r := Eval(prog, fuel, cur, a, x), Eval(prog, fuel, cur, b, x);
      l.Some? && r.Some? ==>
        Eval(prog, fuel, cur, Add(a, b), x) == Some(Outcome(l.value.value + r.value.value, l.value.calls + r.value.calls))
  {
    hide Invoke, Resolve;
  }

  /** What `f_k` computes of any argument, as its description says. */
  function Described(index: nat, k: nat, x: int): int {
    (if x % 2 == 0 then x * 3 else x + index % 7 + k) + if k > 0 then Described(index, k - 1, x) else 0
  }

  lemma TermOf(prog: seq<Module>, fuel: nat, cur: Module, index: nat, k: nat, x: int)
    ensures Eval(prog, fuel, cur, IfEven(X, Mul(X, Lit(3)), Add(Add(X, Lit(index % 7)), Lit(k))), x)
      == Some(Outcome(if x % 2 == 0 then x * 3 else x + index % 7 + k, 0))
  {
    hide Invoke;
    assert Eval(prog, fuel, cur, X, x) == Some(Outcome(x, 0));
    assert Eval(prog, fuel, cur, Mul(X, Lit(3)), x) == Some(Outcome(x * 3, 0));
    assert Eval(prog, fuel, cur, Add(X, Lit(index % 7)), x) == Some(Outcome(x + index % 7, 0));
    assert Eval(prog, fuel, cur, Add(Add(X, Lit(index % 7)), Lit(k)), x) == Some(Outcome(x + index % 7 + k, 0));
  }

  /** The generated `f_k` computes it, for every argument. */
  lemma {:induction false} FunctionsAsDescribed(c: Config, index: nat, k: nat, fuel: nat, x: int)
    requires Valid(c) && k < c.funcs && fuel > k
    ensures Invoke(Sources(c), fuel, ModuleSource(c, index), F(k), x) == Some(Outcome(Described(index, k, x), k + 1))
  {
    hide ModuleSource, Sources, Resolve, Invoke, Eval, EntryBody, Lookup, ImportsOf;
    var prog, m := Sources(c), ModuleSource(c, index);
    OwnNames(c, prog, index);
    InvokeIs(prog, fuel, m, F(k), x, Target(m, Body(index, k)));
    TermOf(prog, fuel - 1, m, index, k, x);
    if k > 0 {
      FunctionsAsDescribed(c, index, k - 1, fuel - 1, x);
      CallIs(prog, fuel - 1, m, F(k - 1), x);
      var a := IfEven(X, Mul(X, Lit(3)), Add(Add(X, Lit(index % 7)), Lit(k)));
      AddIs(prog, fuel - 1, m, a, Call(F(k - 1), X), x);
    }
  }

  lemma {:induction false} DescribedAtOne(index: nat, k: nat)
    ensures Described(index, k, 1) == LocalValue(index, k + 1)
  {
    if k > 0 { DescribedAtOne(index, k - 1); }
  }

  /** `f_k(1)` runs and returns the predicted partial sum, in k + 1 calls. */
  lemma FRuns(c: Config, index: nat, k: nat, fuel: nat)
    requires Valid(c) && k < c.funcs && fuel > k
    ensures Invoke(Sources(c), fuel, ModuleSource(c, index), F(k), 1) == Some(Outcome(LocalValue(index, k + 1), k + 1))
  {
    hide Invoke, Sources, ModuleSource;
    FunctionsAsDescribed(c, index, k, fuel, 1);
    DescribedAtOne(index, k);
  }

  lemma LocalRuns(c: Config, index: nat, fuel: nat)
    requires Valid(c) && fuel > c.funcs
    ensures Invoke(Sources(c), fuel, ModuleSource(c, index), Local(index), 1) == Some(Outcome(LocalValue(index, c.funcs), c.funcs + 1))
  {
    hide ModuleSource, Sources, Resolve, Invoke, Eval;
    var prog, m := Sources(c), ModuleSource(c, index);
    OwnNames(c, prog, index);
    InvokeIs(prog, fuel, m, Local(index), 1, Target(m, Call(F(c.funcs - 1), X)));
    FRuns(c, index, c.funcs - 1, fuel - 1);
    CallIs(prog, fuel - 1, m, F(c.funcs - 1), 1);
  }

  /** Calls made by one call of `entry_NNNN`, itself included. */
  function EntryCalls(c: Config, index: nat): nat
    decreases index, 1, 0
  {
    1 + (c.funcs + 1) + DepCalls(c, index, ImportsOf(c, index))
  }

  function DepCalls(c: Config, index: nat, deps: seq<nat>): nat
    requires forall i :: 0 <= i < |deps| ==> deps[i] < index
    decreases index, 0, |deps|
  {
    if deps == [] then 0
    else
      var d := deps[|deps| - 1];
      DepCalls(c, index, deps[..|deps| - 1]) + if c.shape.Chain? then EntryCalls(c, d) else c.funcs + 1
  }

  lemma {:induction false} DepsRun(c: Config, index: nat, n: nat, fuel: nat)
    requires Valid(c) && index < c.modules && 0 < n <= |ImportsOf(c, index)| && fuel >= c.funcs + 1 + index
    ensures Eval(Sources(c), fuel, ModuleSource(c, index), CallSum(c, ImportsOf(c, index)[..n]), 1)
      == Some(Outcome(DepSum(c, index, ImportsOf(c, index)[..n]), DepCalls(c, index, ImportsOf(c, index)[..n])))
    decreases index, n
  {
    hide ModuleSource, ImportsOf, EntryBody, Sources, Invoke;
    var deps := ImportsOf(c, index);
    var d := deps[n - 1];
    var prog, m := Sources(c), ModuleSource(c, index);
    assert deps[..n][..n - 1] == deps[..n - 1] && deps[..n][n - 1] == d;
    assert Eval(prog, fuel, m, X, 1) == Some(Outcome(1, 0));
    if n > 1 { DepsRun(c, index, n - 1, fuel); }
    InvokeImported(c, index, n - 1, fuel);
    if c.shape.Chain? { EntryRuns(c, d, fuel); } else { LocalRuns(c, d, fuel); }
    if n == 1 { assert deps[..n][..0] == []; }
  }

  lemma InvokeImported(c: Config, index: nat, i: nat, fuel: nat)
    requires Valid(c) && index < c.modules && i < |ImportsOf(c, index)|
    ensures var d := ImportsOf(c, index)[i];
      Invoke(Sources(c), fuel, ModuleSource(c, index), ImportedFunction(c, d), 1)
        == Invoke(Sources(c), fuel, ModuleSource(c, d), ImportedFunction(c, d), 1)
  {
    ImportedNames(c, index, i);
  }

  /** `entry_NNNN(1)` of every module runs and returns the predicted value. */
  lemma {:induction false} EntryRuns(c: Config, index: nat, fuel: nat)
    requires Valid(c) && index < c.modules && fuel >= c.funcs + 2 + index
    ensures Invoke(Sources(c), fuel, ModuleSource(c, index), Entry(index), 1)
      == Some(Outcome(EntryValue(c, index), EntryCalls(c, index)))
    decreases index, |ImportsOf(c, index)| + 1
  {
    hide ModuleSource, ImportsOf, Sources, Resolve, Invoke;
    var deps := ImportsOf(c, index);
    var prog, m := Sources(c), ModuleSource(c, index);
    OwnNames(c, prog, index);
    InvokeIs(prog, fuel, m, Entry(index), 1, Target(m, EntryBody(c, index)));
    LocalRuns(c, index, fuel - 1);
    CallIs(prog, fuel - 1, m, Local(index), 1);
    if deps != [] {
      DepsRun(c, index, |deps|, fuel - 1);
      assert deps[..|deps|] == deps;
      assert Eval(prog, fuel - 1, m, Mod97(CallSum(c, deps)), 1) == Some(Outcome(DepSum(c, index, deps) % 97, DepCalls(c, index, deps)));
    }
  }

  function PredictedTotal(c: Config, n: nat): nat {
    if n == 0 then 0 else PredictedTotal(c, n - 1) + EntryValue(c, n - 1)
  }

  lemma {:induction false} MainRuns(c: Config, n: nat, fuel: nat)
    requires Valid(c) && n <= c.modules && fuel >= c.funcs + 2 + c.modules
    ensures Eval(Sources(c), fuel, MainSource(c.modules), MainBody(n), 0).Some?
    ensures Eval(Sources(c), fuel, MainSource(c.modules), MainBody(n), 0).value.value == PredictedTotal(c, n)
  {
    hide ModuleSource;
    if n > 0 {
      MainRuns(c, n - 1, fuel);
      var prog, m := Sources(c), MainSource(c.modules);
      MainImports(c, n - 1, fuel);
      EntryRuns(c, n - 1, fuel);
      assert Eval(prog, fuel, m, Lit(1), 0) == Some(Outcome(1, 0));
    }
  }

  lemma MainResolves(c: Config, i: nat)
    requires Valid(c) && i < c.modules
    ensures Resolve(Sources(c), MainSource(c.modules), Entry(i)) == Some(Target(ModuleSource(c, i), EntryBody(c, i)))
  {
    hide ModuleSource, Eval, Invoke, EntryBody;
    LookupMissing(MainSource(c.modules).funcs, Entry(i));
    FindImportAt(MainSource(c.modules).imports, i);
    OwnFound(c, i);
  }

  lemma MainImports(c: Config, i: nat, fuel: nat)
    requires Valid(c) && i < c.modules
    ensures Invoke(Sources(c), fuel, MainSource(c.modules), Entry(i), 1)
      == Invoke(Sources(c), fuel, ModuleSource(c, i), Entry(i), 1)
  {
    hide ModuleSource, MainSource, Sources, EntryBody, Eval, Resolve;
    MainResolves(c, i);
    OwnNames(c, Sources(c), i);
  }

  lemma {:induction false} TotalIs(c: Config, values: seq<nat>, n: nat)
    requires |values| == n && forall i :: 0 <= i < n ==> values[i] == EntryValue(c, i)
    ensures Total(values) == PredictedTotal(c, n)
  {
    if n > 0 { TotalIs(c, values[..n - 1], n - 1); }
  }

  /** The expression adds up `entry_0000(1)`, `entry_0001(1)` and so on, each of the `n` once. */
  predicate CallsEach(e: Expr, n: nat) {
    if n == 0 then e == Lit(0) else e.Add? && e.b == Call(Entry(n - 1), Lit(1)) && CallsEach(e.a, n - 1)
  }

  lemma {:induction false} MainCallsEach(n: nat)
    ensures CallsEach(MainBody(n), n)
  {
    if n > 0 { MainCallsEach(n - 1); }
  }

  /** A generated module imports, from each module it depends on, the function it calls: the entry in a
      chain and the local sum otherwise. It has its functions in order, then the local sum and the entry. */
  lemma ModuleHolds(c: Config, index: nat)
    requires Valid(c)
    ensures var m, deps := ModuleSource(c, index), ImportsOf(c, index);
      && |m.imports| == |deps| && |m.funcs| == c.funcs + 2
      && (forall i :: 0 <= i < |deps| ==> m.imports[i] == Import(if c.shape.Chain? then Entry(deps[i]) else Local(deps[i]), deps[i]))
      && (forall k :: 0 <= k < c.funcs ==> m.funcs[k].name == F(k))
      && m.funcs[c.funcs].name == Local(index) && m.funcs[c.funcs + 1].name == Entry(index)
  {
  }

  /** Generates the project and says what its main prints; running main prints exactly that. */
  method Generate(c: Config) returns (prog: seq<Module>, main: Module, body: Expr, total: nat)
    requires Valid(c)
    ensures |prog| == c.modules && forall i :: 0 <= i < |prog| ==> prog[i] == ModuleSource(c, i)
    ensures |main.imports| == c.modules && main.funcs == [] && CallsEach(body, c.modules)
    ensures forall i :: 0 <= i < c.modules ==> main.imports[i] == Import(Entry(i), i)
    ensures forall fuel: nat :: fuel >= c.funcs + 2 + c.modules ==>
      Eval(prog, fuel, main, body, 0).Some? && Eval(prog, fuel, main, body, 0).value.value == total
  {
    prog, main, body := Sources(c), MainSource(c.modules), MainBody(c.modules);
    MainCallsEach(c.modules);
    var values := EntryValues(c);
    total := Total(values);
    TotalIs(c, values, c.modules);
    forall fuel: nat | fuel >= c.funcs + 2 + c.modules
      ensures Eval(prog, fuel, main, body, 0).Some? && Eval(prog, fuel, main, body, 0).value.value == total
    {
      MainRuns(c, c.modules, fuel);
    }
  }

  // ---- cost

  lemma {:induction false} FlatDepCalls(c: Config, index: nat, deps: seq<nat>)
    requires !c.shape.Chain? && forall i :: 0 <= i < |deps| ==> deps[i] < index
    ensures DepCalls(c, index, deps) == |deps| * (c.funcs + 1)
  {
    if deps != [] {
      var n := |deps|;
      FlatDepCalls(c, index, deps[..n - 1]);
      assert n * (c.funcs + 1) == (n - 1) * (c.funcs + 1) + (c.funcs + 1);
    }
  }

  /** In the fan shape the calls of one entry do not grow with depth. */
  lemma FanCost(c: Config, index: nat)
    requires c.shape.Fan?
    ensures EntryCalls(c, index) <= 1 + (c.fan + 1) * (c.funcs + 1)
  {
    hide ImportsOf;
    var deps := ImportsOf(c, index);
    FlatDepCalls(c, index, deps);
    MulMonotone(|deps|, c.fan, c.funcs + 1);
    assert (c.fan + 1) * (c.funcs + 1) == c.fan * (c.funcs + 1) + (c.funcs + 1);
  }

  /** In a chain they grow with the depth, linearly. */
  lemma {:induction false} ChainCost(c: Config, index: nat)
    requires c.shape.Chain?
    ensures EntryCalls(c, index) == (index + 1) * (c.funcs + 2)
  {
    var deps := ImportsOf(c, index);
    if index > 0 {
      ChainCost(c, index - 1);
      assert deps == [index - 1] && deps[..0] == [];
      assert DepCalls(c, index, deps) == EntryCalls(c, index - 1);
      assert (index + 1) * (c.funcs + 2) == index * (c.funcs + 2) + (c.funcs + 2);
    }
  }

  lemma MulMonotone(a: nat, b: nat, n: nat)
    requires a <= b
    ensures a * n <= b * n
  {
  }
}
