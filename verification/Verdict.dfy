/** Operator accounting: recovering per-step counts from two runs, the multiset an optimised
    configuration may leave out, and when a row passes. */
module Verdict {
  import opened Wrappers
  import opened FlowGraph

  type Counts = map<string, int>

  function Get(c: Counts, op: string): int {
    if op in c then c[op] else 0
  }

  datatype Result<+T> = Ok(value: T) | Err

  const SETUP_OPS: set<string> := {"load_npy", "save_npy", "set_num_threads"}

  // ---- per-step counts

  /** Is `a` a multiple of `n`? Nothing is divided by zero. */
  predicate DividedBy(a: int, n: int) {
    n != 0 && a % n == 0
  }

  function Quotient(a: int, n: int): (q: int)
    requires DividedBy(a, n)
    ensures q * n == a
  {
    a / n
  }

  predicate Divisible(a: Counts, b: Counts, steps: int) {
    forall op :: op in a.Keys + b.Keys && op !in SETUP_OPS ==> DividedBy(Get(b, op) - Get(a, op), steps)
  }

  /** Operators executed per step: what the long run did more than the short one, per extra step. */
  method PerStepOps(short: Counts, long: Counts, steps: int) returns (r: Result<Counts>)
    ensures r.Err? <==> short == map[] || long == map[] || !Divisible(short, long, steps)
    ensures r.Ok? ==> PerStepTable(short, long, steps, r.value)
  {
    hide DividedBy;
    if short == map[] || long == map[] { return Err; }
    var out: Counts := map[];
    var all := short.Keys + long.Keys;
    var todo := all;
    while todo != {}
      invariant todo <= all
      invariant forall op :: op in all - todo && op !in SETUP_OPS ==> DividedBy(Get(long, op) - Get(short, op), steps)
      invariant forall op :: op in out <==> op in all - todo && op !in SETUP_OPS && Get(long, op) != Get(short, op)
      invariant forall op :: op in out ==> out[op] * steps == Get(long, op) - Get(short, op)
    {
      var op :| op in todo;
      todo := todo - {op};
      if op !in SETUP_OPS {
        var calls := Get(long, op) - Get(short, op);
        if !DividedBy(calls, steps) { return Err; }
        if calls != 0 {
          out := out[op := Quotient(calls, steps)];
        }
      }
    }
    r := Ok(out);
  }

  /** A run of `r` steps that calls each operator a fixed number of times plus `r` times per step. */
  ghost predicate RunOf(table: Counts, fixed: string -> nat, perStep: string -> nat, r: nat) {
    forall op :: (if op in table then table[op] else 0) == fixed(op) + r * perStep(op)
  }

  /** `out` holds the per-extra-step differences of the two tables, set-up operators left out. */
  ghost predicate PerStepTable(short: Counts, long: Counts, steps: int, out: Counts) {
    && (forall op :: op in out <==> op !in SETUP_OPS && Get(long, op) != Get(short, op))
    && (forall op :: op in out ==> out[op] * steps == Get(long, op) - Get(short, op))
  }

  /** The two-run difference recovers exactly the per-step counts: set-up work cancels, and no
      operator is reported as called a fraction of a time per step. */
  lemma PerStepRecovered(short: Counts, long: Counts, r0: nat, r1: nat, fixed: string -> nat, perStep: string -> nat, out: Counts)
    requires r0 != r1 && RunOf(short, fixed, perStep, r0) && RunOf(long, fixed, perStep, r1)
    ensures Divisible(short, long, r1 - r0)
    ensures PerStepTable(short, long, r1 - r0, out) ==>
      forall op :: op in out <==> perStep(op) > 0 && op != "load_npy" && op != "save_npy" && op != "set_num_threads"
    ensures PerStepTable(short, long, r1 - r0, out) ==> Positive(out) && forall op :: op in out ==> out[op] == perStep(op)
  {
    hide DividedBy, RunOf;
    forall op
      ensures DividedBy(Get(long, op) - Get(short, op), r1 - r0)
      ensures Get(long, op) != Get(short, op) <==> perStep(op) > 0
    {
      OneRecovered(short, long, r0, r1, fixed, perStep, op, 0);
    }
    if PerStepTable(short, long, r1 - r0, out) {
      forall op | op in out ensures out[op] == perStep(op) {
        OneRecovered(short, long, r0, r1, fixed, perStep, op, out[op]);
      }
    }
  }

  /** The difference of one operator's counts: the number of extra steps times its per-step count. */
  lemma OneRecovered(short: Counts, long: Counts, r0: nat, r1: nat, fixed: string -> nat, perStep: string -> nat, op: string, q: int)
    requires r0 != r1 && RunOf(short, fixed, perStep, r0) && RunOf(long, fixed, perStep, r1)
    ensures DividedBy(Get(long, op) - Get(short, op), r1 - r0)
    ensures Get(long, op) != Get(short, op) <==> perStep(op) > 0
    ensures q * (r1 - r0) == Get(long, op) - Get(short, op) ==> q == perStep(op)
  {
    var k, steps, d := perStep(op), r1 - r0, Get(long, op) - Get(short, op);
    assert d == r1 * k - r0 * k;
    assert d == k * steps;
    MultipleIsDivisible(k, steps);
    if d == 0 { Cancel(k, 0, steps); }
    if q * steps == d { Cancel(q, k, steps); }
  }

  lemma MultipleIsDivisible(k: nat, n: int)
    requires n != 0
    ensures (k * n) % n == 0
  {
    var q, r := (k * n) / n, (k * n) % n;
    assert (k - q) * n == r;
    if q != k { MulAtLeast(k - q, n); }
  }

  lemma MulStrict(a: int, b: int, n: int)
    requires n > 0 && a < b
    ensures a * n < b * n
  {
  }

  lemma MulAtLeast(d: int, n: int)
    requires n != 0 && d != 0
    ensures (d * n >= n && d * n >= -n) || d * n < 0
  {
    if n > 0 && d > 0 { MulStrict(0, d, n); assert (d - 1) * n >= 0; }
    if n < 0 && d < 0 { MulStrict(0, -d, -n); assert (-d - 1) * -n >= 0; }
    if n > 0 && d < 0 { MulStrict(d, 0, n); }
    if n < 0 && d > 0 { MulStrict(0, d, -n); }
  }

  lemma Cancel(a: int, b: int, n: int)
    requires n != 0 && a * n == b * n
    ensures a == b
  {
    if a != b { MulStrict(if a < b then a else b, if a < b then b else a, if n > 0 then n else -n); }
  }

  // ---- multisets

  /** Multiset a - b. */
  function Difference(a: Counts, b: Counts): Counts {
    map op | op in a && a[op] > Get(b, op) :: a[op] - Get(b, op)
  }

  lemma DifferenceCounts(a: Counts, b: Counts, op: string)
    ensures Get(Difference(a, b), op) == (if op in a && a[op] > Get(b, op) then a[op] - Get(b, op) else 0)
    ensures Difference(a, b) == map[] <==> forall x :: x in a ==> a[x] <= Get(b, x)
  {
    if Difference(a, b) == map[] {
      forall x | x in a ensures a[x] <= Get(b, x) {
        assert x !in Difference(a, b);
      }
    }
  }

  /** A gradient operator of the step: how often it runs (None: decided at run time), and whether
      the demand analysis calls its result unused. */
  datatype GradOp = GradOp(node: NodeId, op: string, perStep: Option<nat>, unused: bool)

  function Total(ops: seq<GradOp>, op: string): nat {
    if ops == [] then 0
    else Total(ops[..|ops| - 1], op) + Share(ops[|ops| - 1], op)
  }

  function Share(o: GradOp, op: string): nat {
    if o.op == op && o.perStep.Some? then o.perStep.value else 0
  }

  lemma TotalAppend(ops: seq<GradOp>, o: GradOp, op: string)
    ensures Total(ops + [o], op) == Total(ops, op) + Share(o, op)
  {
    assert (ops + [o])[..|ops|] == ops;
  }

  predicate AllFixed(ops: seq<GradOp>) {
    forall i :: 0 <= i < |ops| ==> ops[i].perStep.Some?
  }

  /** `c` counts exactly what `ops` execute per step. */
  ghost predicate Tallies(c: Counts, ops: seq<GradOp>) {
    && (forall op :: Get(c, op) == Total(ops, op))
    && (forall op :: op in c ==> c[op] > 0)
  }

  method MultisetOf(ops: seq<GradOp>) returns (r: Option<Counts>)
    ensures r.Some? <==> AllFixed(ops)
    ensures r.Some? ==> Tallies(r.value, ops)
  {
    var out: Counts := map[];
    for i := 0 to |ops|
      invariant AllFixed(ops[..i]) && Tallies(out, ops[..i])
    {
      var o := ops[i];
      assert ops[..i + 1][..i] == ops[..i];
      if o.perStep.None? { return None; }
      if o.perStep.value != 0 {
        out := out[o.op := Get(out, o.op) + o.perStep.value];
      }
    }
    assert ops[..|ops|] == ops;
    r := Some(out);
  }

  lemma TalliesUnique(a: Counts, b: Counts, ops: seq<GradOp>)
    requires Tallies(a, ops) && Tallies(b, ops)
    ensures a == b
  {
    forall op ensures op in a <==> op in b { assert Get(a, op) == Get(b, op); }
    forall op | op in a ensures a[op] == b[op] { assert Get(a, op) == Get(b, op); }
  }

  function Unused(ops: seq<GradOp>): seq<GradOp> {
    if ops == [] then []
    else Unused(ops[..|ops| - 1]) + (if ops[|ops| - 1].unused then [ops[|ops| - 1]] else [])
  }

  lemma {:induction false} UnusedMembers(ops: seq<GradOp>, o: GradOp)
    ensures o in Unused(ops) <==> o in ops && o.unused
  {
    if ops != [] { UnusedMembers(ops[..|ops| - 1], o); }
  }

  lemma {:induction false} UnusedTotal(ops: seq<GradOp>, op: string)
    ensures Total(Unused(ops), op) <= Total(ops, op)
  {
    if ops != [] {
      var front, last := ops[..|ops| - 1], ops[|ops| - 1];
      UnusedTotal(front, op);
      assert Unused(ops) == Unused(front) + if last.unused then [last] else [];
      TotalAppend(Unused(front), last, op);
      assert Unused(front) + [] == Unused(front);
    }
  }

  /** The analysis is trusted only if its counts are fixed, equal what the reference executes, and
      no path limit was hit. */
  ghost predicate Granted(ops: seq<GradOp>, reference: Option<Counts>, overflow: bool) {
    && (exists i :: 0 <= i < |ops| && ops[i].unused)
    && AllFixed(ops) && !overflow && (reference.Some? ==> Tallies(reference.value, ops))
  }

  /** The operators an optimised configuration may leave out: what the unused ones execute, or
      nothing. An exemption never exceeds the reference. */
  method Exempt(ops: seq<GradOp>, reference: Option<Counts>, overflow: bool) returns (granted: bool, exempt: Counts)
    ensures granted <==> Granted(ops, reference, overflow)
    ensures if granted then Tallies(exempt, Unused(ops)) else exempt == map[]
    ensures Positive(exempt)
    ensures exempt != map[] && reference.Some? ==> Within(exempt, reference.value) && Positive(reference.value)
  {
    var unused := Unused(ops);
    var counted := MultisetOf(ops);
    granted, exempt := false, map[];
    SomeUnused(ops);
    if counted.Some? && reference.Some? && Tallies(reference.value, ops) {
      TalliesUnique(counted.value, reference.value, ops);
    }
    if unused != [] && counted.Some? && (reference.None? || counted.value == reference.value) && !overflow {
      forall i | 0 <= i < |unused| ensures unused[i].perStep.Some? { UnusedMembers(ops, unused[i]); }
      var some := MultisetOf(unused);
      granted, exempt := true, some.value;
      forall op ensures Total(unused, op) <= Total(ops, op) { UnusedTotal(ops, op); }
    }
  }

  lemma SomeUnused(ops: seq<GradOp>)
    ensures Unused(ops) != [] <==> exists i :: 0 <= i < |ops| && ops[i].unused
  {
    if Unused(ops) != [] {
      UnusedMembers(ops, Unused(ops)[0]);
      assert Unused(ops)[0] in ops;
    }
    if i :| 0 <= i < |ops| && ops[i].unused { UnusedMembers(ops, ops[i]); }
  }

  // ---- the verdict on a row

  ghost predicate Positive(c: Counts) {
    forall op :: op in c ==> c[op] > 0
  }

  ghost predicate Within(a: Counts, b: Counts) {
    forall op :: Get(a, op) <= Get(b, op)
  }

  /** The operator part of the verdict: no reason to fail is found. */
  function OperatorsPass(expected: Counts, exempt: Counts, measured: Counts): bool {
    var required := Difference(expected, exempt);
    expected != map[] && Difference(required, measured) == map[] && Difference(measured, expected) == map[]
  }

  /** Nothing is truncated: what must run and what may be left out make up the reference. */
  lemma RequiredPlusExempt(expected: Counts, exempt: Counts, op: string)
    requires Positive(expected) && Positive(exempt) && Within(exempt, expected)
    ensures Get(Difference(expected, exempt), op) + Get(exempt, op) == Get(expected, op)
  {
    DifferenceCounts(expected, exempt, op);
    assert Get(exempt, op) <= Get(expected, op);
  }

  /** A row passes exactly when it executes at least the reference minus the exempt operators, and
      nothing beyond the reference. */
  lemma PassMeans(expected: Counts, exempt: Counts, measured: Counts)
    requires Positive(expected) && Positive(measured) && Positive(exempt) && Within(exempt, expected)
    ensures OperatorsPass(expected, exempt, measured) <==>
      expected != map[] && Within(Difference(expected, exempt), measured) && Within(measured, expected)
  {
    var required := Difference(expected, exempt);
    DifferenceCounts(required, measured, "");
    DifferenceCounts(measured, expected, "");
    assert Within(required, measured) <==> forall x :: x in required ==> required[x] <= Get(measured, x);
    assert Within(measured, expected) <==> forall x :: x in measured ==> measured[x] <= Get(expected, x);
  }

  /** What a passing row left out was exempt. */
  lemma EliminatedWithinExempt(expected: Counts, exempt: Counts, measured: Counts)
    requires Positive(expected) && Positive(measured) && Positive(exempt) && Within(exempt, expected)
    requires OperatorsPass(expected, exempt, measured)
    ensures Within(Difference(expected, measured), exempt)
  {
    PassMeans(expected, exempt, measured);
    forall op ensures Get(Difference(expected, measured), op) <= Get(exempt, op) {
      DifferenceCounts(expected, measured, op);
      RequiredPlusExempt(expected, exempt, op);
      assert Get(Difference(expected, exempt), op) <= Get(measured, op);
    }
  }

  /** What passing means without optimisation, whatever the counts. A count that is not positive in
      the reference is not required, so a negative difference between two runs goes unnoticed. */
  lemma UnoptimisedPass(expected: Counts, measured: Counts)
    ensures OperatorsPass(expected, map[], measured) <==>
      && expected != map[]
      && (forall op :: Get(expected, op) > 0 ==> Get(measured, op) == Get(expected, op))
      && (forall op :: op in measured ==> measured[op] <= Get(expected, op))
  {
    var required := Difference(expected, map[]);
    DifferenceCounts(required, measured, "");
    DifferenceCounts(measured, expected, "");
    assert forall op :: op in required <==> Get(expected, op) > 0;
    assert forall op :: op in required ==> required[op] == Get(expected, op);
  }

  /** With positive counts, a configuration without optimisation passes only by executing exactly
      the reference. */
  lemma PositivePass(expected: Counts, measured: Counts)
    requires Positive(expected) && Positive(measured)
    ensures OperatorsPass(expected, map[], measured) <==> expected != map[] && measured == expected
  {
    UnoptimisedPass(expected, measured);
    if OperatorsPass(expected, map[], measured) {
      forall op ensures op in expected <==> op in measured {
        assert Get(expected, op) > 0 ==> Get(measured, op) == Get(expected, op);
      }
      forall op | op in expected ensures expected[op] == measured[op] { assert Get(measured, op) == Get(expected, op); }
    }
  }

  /** Every reference with a count that is not positive lets a row with other operators pass: the one
      that executes its positive counts alone. */
  lemma UnpositiveGoesUnnoticed(expected: Counts)
    requires expected != map[] && !Positive(expected)
    ensures Positive(Difference(expected, map[])) && Difference(expected, map[]) != expected
    ensures OperatorsPass(expected, map[], Difference(expected, map[]))
  {
    var measured := Difference(expected, map[]);
    var op :| op in expected && expected[op] <= 0;
    assert op !in measured;
    UnoptimisedPass(expected, measured);
  }

  /** Passing means executing exactly the reference, for all measured positive counts, exactly when
      the reference's counts are positive. */
  lemma UnoptimisedIsExact(expected: Counts)
    ensures Positive(expected) <==>
      forall measured :: Positive(measured) && OperatorsPass(expected, map[], measured) ==> measured == expected
  {
    if Positive(expected) {
      forall measured | Positive(measured) && OperatorsPass(expected, map[], measured) ensures measured == expected {
        PositivePass(expected, measured);
      }
    } else {
      UnpositiveGoesUnnoticed(expected);
    }
  }

  /** Nor does a count that is not positive on the measured side show, if the reference lacks it. */
  lemma UnpositiveMeasured(expected: Counts, op: string, n: int)
    requires expected != map[] && op !in expected && n <= 0
    ensures OperatorsPass(expected, map[], expected[op := n]) && expected[op := n] != expected
  {
    UnoptimisedPass(expected, expected[op := n]);
    assert op in expected[op := n];
  }
}
