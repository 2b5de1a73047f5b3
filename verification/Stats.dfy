/** Order statistics and percentile-bootstrap intervals, over the reals. The random generator is an
    arbitrary sequence of index draws, so every result holds for every seed. */
module Stats {
  import opened Wrappers

  function Times(c: real, x: real): real { c * x }

  // ---- sorting

  function Insert(x: real, s: seq<real>): seq<real> {
    if s == [] || x <= s[0] then [x] + s else [s[0]] + Insert(x, s[1..])
  }

  function Sort(s: seq<real>): seq<real> {
    if s == [] then [] else Insert(s[0], Sort(s[1..]))
  }

  ghost predicate Sorted(s: seq<real>) {
    forall i, j :: 0 <= i <= j < |s| ==> s[i] <= s[j]
  }

  lemma {:induction false} InsertElements(x: real, s: seq<real>)
    ensures multiset(Insert(x, s)) == multiset(s) + multiset{x}
  {
    if s != [] && x > s[0] {
      InsertElements(x, s[1..]);
      assert s == [s[0]] + s[1..];
    }
  }

  lemma {:induction false} InsertSorts(x: real, s: seq<real>)
    requires Sorted(s)
    ensures Sorted(Insert(x, s))
  {
    if s != [] && x > s[0] {
      InsertSorts(x, s[1..]);
      InsertElements(x, s[1..]);
      var t := Insert(x, s[1..]);
      forall i | 0 <= i < |t| ensures s[0] <= t[i] {
        assert t[i] in multiset(t);
        assert t[i] in s[1..] || t[i] == x;
      }
    }
  }

  lemma {:induction false} SortSorts(s: seq<real>)
    ensures Sorted(Sort(s)) && multiset(Sort(s)) == multiset(s) && |Sort(s)| == |s|
  {
    if s != [] {
      SortSorts(s[1..]);
      InsertSorts(s[0], Sort(s[1..]));
      InsertElements(s[0], Sort(s[1..]));
      assert s == [s[0]] + s[1..];
      assert |multiset(Sort(s))| == |multiset(s)|;
    }
  }

  /** Two sorted sequences with the same elements are the same. */
  lemma {:induction false} SortedUnique(a: seq<real>, b: seq<real>)
    requires Sorted(a) && Sorted(b) && multiset(a) == multiset(b)
    ensures a == b
  {
    SameLength(a, b);
    if a != [] {
      SameFirst(a, b);
      TailElements(a);
      TailElements(b);
      SortedUnique(a[1..], b[1..]);
      assert a == [a[0]] + a[1..] && b == [b[0]] + b[1..];
    }
  }

  lemma SameLength(a: seq<real>, b: seq<real>)
    requires multiset(a) == multiset(b)
    ensures |a| == |b|
  {
    assert |multiset(a)| == |a| && |multiset(b)| == |b|;
  }

  lemma SameFirst(a: seq<real>, b: seq<real>)
    requires Sorted(a) && Sorted(b) && multiset(a) == multiset(b) && a != [] && b != []
    ensures a[0] == b[0]
  {
    assert a[0] in multiset(b) && b[0] in multiset(a);
    var i :| 0 <= i < |b| && b[i] == a[0];
    var j :| 0 <= j < |a| && a[j] == b[0];
  }

  lemma TailElements(a: seq<real>)
    requires a != []
    ensures multiset(a[1..]) == multiset(a) - multiset{a[0]}
  {
    assert a == [a[0]] + a[1..];
  }

  lemma SortOfPermutation(a: seq<real>, b: seq<real>)
    requires multiset(a) == multiset(b)
    ensures Sort(a) == Sort(b)
  {
    SortSorts(a);
    SortSorts(b);
    SortedUnique(Sort(a), Sort(b));
  }

  // ---- estimators

  function Mid(s: seq<real>): real
    requires s != []
  {
    if |s| % 2 == 1 then s[|s| / 2] else (s[|s| / 2 - 1] + s[|s| / 2]) / 2.0
  }

  /** None where the original raises on an empty sequence. */
  function Median(values: seq<real>): Option<real> {
    SortSorts(values);
    if values == [] then None else Some(Mid(Sort(values)))
  }

  /** What is estimated from a sample that is not empty. */
  type Statistic = seq<real> -> real

  function MedianOf(values: seq<real>): real {
    if values == [] then 0.0 else Median(values).value
  }

  /** Linear interpolation between neighbouring order statistics at position `pos`. */
  function Interpolate(s: seq<real>, pos: real): real
    requires s != [] && 0.0 <= pos <= (|s| - 1) as real
  {
    var lo := pos.Floor;
    var hi := if lo + 1 < |s| then lo + 1 else |s| - 1;
    s[lo] + Times(s[hi] - s[lo], pos - lo as real)
  }

  function Position(n: nat, q: real): real { (n - 1) as real * q / 100.0 }

  lemma PositionInRange(n: nat, q: real)
    requires n > 0 && 0.0 <= q <= 100.0
    ensures 0.0 <= Position(n, q) <= (n - 1) as real
  {
    var m := (n - 1) as real;
    assert m * q >= 0.0 && m * q <= m * 100.0;
  }

  lemma PositionMonotone(n: nat, q: real, q': real)
    requires n > 0 && q <= q'
    ensures Position(n, q) <= Position(n, q')
  {
    assert (n - 1) as real * q <= (n - 1) as real * q';
  }

  /** None where the original raises: no values, or `q` outside [0, 100]. */
  function Percentile(values: seq<real>, q: real): Option<real> {
    if values == [] || q < 0.0 || q > 100.0 then None
    else
      SortSorts(values);
      PositionInRange(|values|, q);
      Some(Interpolate(Sort(values), Position(|values|, q)))
  }

  lemma InterpolateBetween(s: seq<real>, pos: real)
    requires s != [] && Sorted(s) && 0.0 <= pos <= (|s| - 1) as real
    ensures s[pos.Floor] <= Interpolate(s, pos)
    ensures Interpolate(s, pos) <= s[if pos.Floor + 1 < |s| then pos.Floor + 1 else |s| - 1]
  {
    var lo := pos.Floor;
    var hi := if lo + 1 < |s| then lo + 1 else |s| - 1;
    hide Times;
    TimesBetween(s[hi] - s[lo], pos - lo as real);
  }

  lemma TimesBetween(step: real, t: real)
    requires step >= 0.0 && 0.0 <= t <= 1.0
    ensures 0.0 <= Times(step, t) <= step
  {
  }

  lemma TimesMonotone(step: real, t: real, t': real)
    requires step >= 0.0 && t <= t'
    ensures Times(step, t) <= Times(step, t')
  {
    assert step * (t' - t) >= 0.0;
  }

  lemma InterpolateMonotone(s: seq<real>, pos: real, pos': real)
    requires s != [] && Sorted(s) && 0.0 <= pos <= pos' <= (|s| - 1) as real
    ensures Interpolate(s, pos) <= Interpolate(s, pos')
  {
    var lo, lo' := pos.Floor, pos'.Floor;
    if lo == lo' {
      var hi := if lo + 1 < |s| then lo + 1 else |s| - 1;
      hide Times;
      TimesMonotone(s[hi] - s[lo], pos - lo as real, pos' - lo as real);
    } else {
      InterpolateBetween(s, pos);
      InterpolateBetween(s, pos');
    }
  }

  lemma PercentileMonotone(values: seq<real>, q: real, q': real)
    requires values != [] && 0.0 <= q <= q' <= 100.0
    ensures Percentile(values, q).value <= Percentile(values, q').value
  {
    SortSorts(values);
    PositionInRange(|values|, q);
    PositionInRange(|values|, q');
    PositionMonotone(|values|, q, q');
    InterpolateMonotone(Sort(values), Position(|values|, q), Position(|values|, q'));
  }

  lemma PercentilePermutation(a: seq<real>, b: seq<real>, q: real)
    requires multiset(a) == multiset(b)
    ensures Percentile(a, q) == Percentile(b, q) && Median(a) == Median(b)
  {
    assert |multiset(a)| == |a| && |multiset(b)| == |b|;
    SortOfPermutation(a, b);
  }

  /** At a whole position the value is that order statistic; half way, the mean of two. */
  lemma AtPosition(s: seq<real>, k: nat)
    requires k < |s|
    ensures Interpolate(s, k as real) == s[k]
    ensures k + 1 < |s| ==> Interpolate(s, k as real + 0.5) == (s[k] + s[k + 1]) / 2.0
  {
    FloorIs(k, 0.0);
    FloorIs(k, 0.5);
  }

  /** The point a share `t` of the way from `x` to `y`. */
  function Mix(x: real, y: real, t: real): real { (1.0 - t) * x + t * y }

  lemma Line(x: real, y: real, t: real)
    ensures x + Times(y - x, t) == Mix(x, y, t)
  {
  }

  /** Between two order statistics the value runs along the straight line. */
  lemma AlongTheLine(s: seq<real>, k: nat, t: real)
    requires k + 1 < |s| && 0.0 <= t <= 1.0
    ensures Interpolate(s, k as real + t) == Mix(s[k], s[k + 1], t)
  {
    hide Times;
    if t < 1.0 {
      FloorIs(k, t);
      Line(s[k], s[k + 1], t);
    } else {
      AtPosition(s, k + 1);
      assert k as real + t == (k + 1) as real;
      assert Mix(s[k], s[k + 1], t) == s[k + 1];
    }
  }

  /** Place `pos` is `q` percent of the way from the first of `n` places to the last. */
  predicate PercentOfTheWay(n: nat, q: real, pos: real) {
    (n - 1) as real * q == 100.0 * pos
  }

  /** The percentile at each point between the `k`-th smallest value and the next: `q` percent of the
      way from the smallest to the largest. */
  lemma PercentileBetween(values: seq<real>, q: real, k: nat, t: real)
    requires k + 1 < |values| && 0.0 <= t <= 1.0 && 0.0 <= q <= 100.0
    requires PercentOfTheWay(|values|, q, k as real + t)
    ensures |Sort(values)| == |values|
    ensures Percentile(values, q) == Some(Mix(Sort(values)[k], Sort(values)[k + 1], t))
  {
    hide *;
    PlaceIs(|values|, q, k as real + t);
    PercentileAt(values, q, k as real + t);
    AlongTheLine(Sort(values), k, t);
  }

  lemma PlaceIs(n: nat, q: real, pos: real)
    requires n > 0 && PercentOfTheWay(n, q, pos)
    ensures Position(n, q) == pos
  {
  }

  lemma PercentileAt(values: seq<real>, q: real, pos: real)
    requires values != [] && 0.0 <= q <= 100.0 && pos == Position(|values|, q)
    ensures |Sort(values)| == |values| && 0.0 <= pos <= (|values| - 1) as real
    ensures Percentile(values, q) == Some(Interpolate(Sort(values), pos))
  {
    hide Sort, Interpolate;
    SortSorts(values);
    PositionInRange(|values|, q);
  }

  lemma FloorIs(k: nat, t: real)
    requires 0.0 <= t < 1.0
    ensures (k as real + t).Floor == k
  {
  }

  /** The 50th percentile is the median. */
  lemma MiddlePercentile(values: seq<real>)
    ensures Percentile(values, 50.0) == Median(values)
  {
    hide Sort, Interpolate;
    if values != [] {
      SortSorts(values);
      var s, n := Sort(values), |values|;
      PositionInRange(n, 50.0);
      HalfPosition(n);
      AtPosition(s, if n % 2 == 1 then n / 2 else n / 2 - 1);
    }
  }

  lemma HalfPosition(n: nat)
    requires n > 0
    ensures Position(n, 50.0) == if n % 2 == 1 then (n / 2) as real else (n / 2 - 1) as real + 0.5
  {
    var k := n / 2;
    if n % 2 == 1 { assert n - 1 == 2 * k; } else { assert n - 1 == 2 * (k - 1) + 1; }
  }

  // ---- ranges

  ghost predicate Within(s: seq<real>, lo: real, hi: real) {
    forall x :: x in s ==> lo <= x <= hi
  }

  lemma SortWithin(s: seq<real>, lo: real, hi: real)
    requires Within(s, lo, hi)
    ensures Within(Sort(s), lo, hi)
  {
    SortSorts(s);
    forall x | x in Sort(s) ensures lo <= x <= hi {
      assert x in multiset(Sort(s));
      assert x in s;
    }
  }

  lemma MedianWithin(values: seq<real>, lo: real, hi: real)
    requires values != [] && Within(values, lo, hi)
    ensures lo <= Median(values).value <= hi
  {
    SortSorts(values);
    SortWithin(values, lo, hi);
    var s := Sort(values);
    assert s[|s| / 2] in s;
    if |s| % 2 == 0 { assert s[|s| / 2 - 1] in s; }
  }

  lemma PercentileWithin(values: seq<real>, q: real, lo: real, hi: real)
    requires values != [] && 0.0 <= q <= 100.0 && Within(values, lo, hi)
    ensures lo <= Percentile(values, q).value <= hi
  {
    SortSorts(values);
    SortWithin(values, lo, hi);
    PositionInRange(|values|, q);
    var s, pos := Sort(values), Position(|values|, q);
    InterpolateBetween(s, pos);
    assert s[pos.Floor] in s && s[if pos.Floor + 1 < |s| then pos.Floor + 1 else |s| - 1] in s;
  }

  // ---- bootstrap

  function Interval(samples: seq<real>, confidence: real): Option<(real, real)> {
    var alpha := (1.0 - confidence) / 2.0;
    var lo :- Percentile(samples, 100.0 * alpha);
    var hi :- Percentile(samples, 100.0 * (1.0 - alpha));
    Some((lo, hi))
  }

  /** A draw with replacement: `n` positions below `n`. */
  type Draw = seq<nat>

  ghost predicate IsDraw(d: Draw, n: nat) {
    |d| == n && forall i :: 0 <= i < n ==> d[i] < n
  }

  function Pick(values: seq<real>, d: Draw): (r: seq<real>)
    requires forall i :: 0 <= i < |d| ==> d[i] < |values|
    ensures |r| == |d| && forall i :: 0 <= i < |d| ==> r[i] == values[d[i]]
  {
    seq(|d|, i requires 0 <= i < |d| => values[d[i]])
  }

  function Estimates(values: seq<real>, stat: Statistic, draws: seq<Draw>): (r: seq<real>)
    requires forall k :: 0 <= k < |draws| ==> IsDraw(draws[k], |values|)
    ensures |r| == |draws|
  {
    if draws == [] then []
    else assert IsDraw(draws[0], |values|); [stat(Pick(values, draws[0]))] + Estimates(values, stat, draws[1..])
  }

  /** Percentile-bootstrap interval of a statistic; a single value gives a single point. */
  function BootstrapCi(values: seq<real>, stat: Statistic, draws: seq<Draw>, confidence: real): Option<(real, real)>
    requires forall k :: 0 <= k < |draws| ==> IsDraw(draws[k], |values|)
  {
    if values == [] then None
    else if |values| == 1 then Some((stat(values), stat(values)))
    else Interval(Estimates(values, stat, draws), confidence)
  }

  lemma {:induction false} EstimatesAre(values: seq<real>, stat: Statistic, draws: seq<Draw>, k: nat)
    requires (forall j :: 0 <= j < |draws| ==> IsDraw(draws[j], |values|)) && k < |draws|
    ensures IsDraw(draws[k], |values|) && Estimates(values, stat, draws)[k] == stat(Pick(values, draws[k]))
  {
    assert IsDraw(draws[k], |values|);
    if k > 0 { EstimatesAre(values, stat, draws[1..], k - 1); }
  }

  /** What the bootstrap computes from several values: the statistic of each drawn sample, and of these
      the percentiles that leave out half of what the confidence leaves out at either end. */
  lemma BootstrapComputes(values: seq<real>, stat: Statistic, draws: seq<Draw>, confidence: real, drawn: seq<seq<real>>, samples: seq<real>)
    requires |values| > 1 && (forall k :: 0 <= k < |draws| ==> IsDraw(draws[k], |values|)) && |drawn| == |samples| == |draws|
    requires forall k :: 0 <= k < |draws| ==> |drawn[k]| == |values|
    requires forall k, i :: 0 <= k < |draws| && 0 <= i < |values| ==> IsDraw(draws[k], |values|) && drawn[k][i] == values[draws[k][i]]
    requires forall k :: 0 <= k < |draws| ==> samples[k] == stat(drawn[k])
    ensures var lo, hi := Percentile(samples, 50.0 * (1.0 - confidence)), Percentile(samples, 50.0 * (1.0 + confidence));
      BootstrapCi(values, stat, draws, confidence) == if lo.Some? && hi.Some? then Some((lo.value, hi.value)) else None
  {
    hide Percentile;
    forall k | 0 <= k < |draws| ensures Estimates(values, stat, draws)[k] == samples[k] {
      EstimatesAre(values, stat, draws, k);
      assert drawn[k] == Pick(values, draws[k]);
    }
    assert Estimates(values, stat, draws) == samples;
    var alpha := (1.0 - confidence) / 2.0;
    assert 100.0 * alpha == 50.0 * (1.0 - confidence) && 100.0 * (1.0 - alpha) == 50.0 * (1.0 + confidence);
  }

  /** The statistic never leaves the range of its sample. */
  ghost predicate Central(stat: Statistic) {
    forall s, lo, hi :: s != [] && Within(s, lo, hi) ==> lo <= stat(s) <= hi
  }

  lemma MedianIsCentral()
    ensures Central(MedianOf)
  {
    forall s, lo, hi | s != [] && Within(s, lo, hi) ensures lo <= MedianOf(s) <= hi { MedianWithin(s, lo, hi); }
  }

  lemma {:induction false} EstimatesWithin(values: seq<real>, stat: Statistic, draws: seq<Draw>, lo: real, hi: real)
    requires values != [] && Within(values, lo, hi) && Central(stat)
    requires forall k :: 0 <= k < |draws| ==> IsDraw(draws[k], |values|)
    ensures Within(Estimates(values, stat, draws), lo, hi)
  {
    if draws != [] {
      EstimatesWithin(values, stat, draws[1..], lo, hi);
      assert IsDraw(draws[0], |values|);
      forall x | x in Pick(values, draws[0]) ensures x in values {
        var i :| 0 <= i < |draws[0]| && x == Pick(values, draws[0])[i];
        assert values[draws[0][i]] == x;
      }
      assert Within(Pick(values, draws[0]), lo, hi);
    }
  }

  /** For every seed, the interval of a statistic such as the median is ordered and never leaves the
      observed range. */
  lemma BootstrapInRange(values: seq<real>, stat: Statistic, draws: seq<Draw>, confidence: real, lo: real, hi: real)
    requires values != [] && draws != [] && 0.0 <= confidence <= 1.0 && Within(values, lo, hi) && Central(stat)
    requires forall k :: 0 <= k < |draws| ==> IsDraw(draws[k], |values|)
    ensures BootstrapCi(values, stat, draws, confidence).Some?
    ensures var ci := BootstrapCi(values, stat, draws, confidence).value; lo <= ci.0 <= ci.1 <= hi
  {
    if |values| != 1 {
      var samples := Estimates(values, stat, draws);
      var alpha := (1.0 - confidence) / 2.0;
      EstimatesWithin(values, stat, draws, lo, hi);
      PercentileMonotone(samples, 100.0 * alpha, 100.0 * (1.0 - alpha));
      PercentileWithin(samples, 100.0 * alpha, lo, hi);
      PercentileWithin(samples, 100.0 * (1.0 - alpha), lo, hi);
    }
  }

  ghost predicate Ordered(samples: seq<real>, confidence: real) {
    var ci := Interval(samples, confidence);
    ci.Some? && ci.value.0 <= ci.value.1
  }

  /** Among the confidences the original accepts, the interval is ordered for all samples exactly
      when the confidence is not negative. A negative one raises nothing and swaps the two ends. */
  lemma OrderedExactly(confidence: real)
    requires -1.0 <= confidence <= 1.0
    ensures (forall samples: seq<real> :: samples != [] ==> Ordered(samples, confidence)) <==> confidence >= 0.0
  {
    var alpha := (1.0 - confidence) / 2.0;
    if confidence >= 0.0 {
      forall samples: seq<real> | samples != [] ensures Ordered(samples, confidence) {
        PercentileMonotone(samples, 100.0 * alpha, 100.0 * (1.0 - alpha));
      }
    } else {
      UnitPercentile(100.0 * alpha);
      UnitPercentile(100.0 * (1.0 - alpha));
      assert !Ordered([0.0, 1.0], confidence);
    }
  }

  lemma UnitPercentile(q: real)
    requires 0.0 <= q <= 100.0
    ensures Percentile([0.0, 1.0], q) == Some(q / 100.0)
  {
    var s := [0.0, 1.0];
    assert Sort([1.0]) == [1.0] && s[1..] == [1.0];
    assert Sort(s) == s;
    assert Position(2, q) == q / 100.0;
    if q < 100.0 { FloorIs(0, q / 100.0); } else { FloorIs(1, 0.0); }
  }

  // ---- ratios

  function Scale(c: real, s: seq<real>): (r: seq<real>)
    ensures |r| == |s| && forall i :: 0 <= i < |s| ==> r[i] == Times(c, s[i])
  {
    if s == [] then [] else [Times(c, s[0])] + Scale(c, s[1..])
  }

  lemma OrderScales(c: real, x: real, y: real)
    requires c > 0.0
    ensures x <= y <==> Times(c, x) <= Times(c, y)
  {
    if x <= y { assert c * (y - x) >= 0.0; } else { assert c * (x - y) > 0.0; }
  }

  lemma {:induction false} InsertScales(c: real, x: real, s: seq<real>)
    requires c > 0.0
    ensures Insert(Times(c, x), Scale(c, s)) == Scale(c, Insert(x, s))
  {
    hide Times;
    if s == [] {
    } else {
      OrderScales(c, x, s[0]);
      assert Scale(c, s)[1..] == Scale(c, s[1..]);
      if x > s[0] { InsertScales(c, x, s[1..]); }
    }
  }

  lemma {:induction false} SortScales(c: real, s: seq<real>)
    requires c > 0.0
    ensures Sort(Scale(c, s)) == Scale(c, Sort(s))
  {
    hide Times;
    if s != [] {
      SortScales(c, s[1..]);
      assert Scale(c, s)[1..] == Scale(c, s[1..]);
      InsertScales(c, s[0], Sort(s[1..]));
    }
  }

  /** The median commutes with positive scaling. */
  lemma MedianScales(c: real, s: seq<real>)
    requires c > 0.0 && s != []
    ensures Median(Scale(c, s)).value == c * Median(s).value
  {
    hide Sort, Scale, Mid;
    SortSorts(s);
    SortSorts(Scale(c, s));
    SortScales(c, s);
    MidScales(c, Sort(s));
  }

  lemma MidScales(c: real, t: seq<real>)
    requires t != []
    ensures Mid(Scale(c, t)) == c * Mid(t)
  {
    hide Scale;
    if |t| % 2 == 0 {
      var x, y := t[|t| / 2 - 1], t[|t| / 2];
      assert c * x + c * y == c * (x + y);
      assert c * ((x + y) / 2.0) == c * (x + y) / 2.0;
    }
  }

  lemma MedianPositive(s: seq<real>)
    requires s != [] && forall x :: x in s ==> x > 0.0
    ensures Median(s).value > 0.0
  {
    SortSorts(s);
    var t := Sort(s);
    forall i | 0 <= i < |t| ensures t[i] > 0.0 {
      assert t[i] in multiset(t);
      assert t[i] in s;
    }
  }

  /** The statistic commutes with positive scaling and is positive on positive samples. */
  ghost predicate Homogeneous(stat: Statistic) {
    && (forall c, s :: c > 0.0 && s != [] ==> stat(Scale(c, s)) == Times(c, stat(s)))
    && (forall s :: s != [] && AllPositive(s) ==> stat(s) > 0.0)
  }

  ghost predicate AllPositive(s: seq<real>) {
    forall x :: x in s ==> x > 0.0
  }

  lemma MedianIsHomogeneous()
    ensures Homogeneous(MedianOf)
  {
    hide Median, Scale;
    forall c, s | c > 0.0 && s != [] ensures MedianOf(Scale(c, s)) == Times(c, MedianOf(s)) {
      ScaleLength(c, s);
      MedianScales(c, s);
    }
    forall s | s != [] && AllPositive(s) ensures MedianOf(s) > 0.0 { MedianPositive(s); }
  }

  /** A ratio of estimates; None where the original raises: no values, or a division by zero. */
  function RatioOf(stat: Statistic, num: seq<real>, den: seq<real>): Option<real> {
    if num == [] || den == [] || stat(den) == 0.0 then None else Some(stat(num) / stat(den))
  }

  /** Draws of one round: positions for the numerators and, unless paired, for the denominators. */
  datatype Round = Round(num: Draw, den: Draw)

  ghost predicate IsRound(r: Round, n: nat, m: nat, paired: bool) {
    IsDraw(r.num, n) && (!paired ==> IsDraw(r.den, m))
  }

  function Sample(stat: Statistic, nums: seq<real>, dens: seq<real>, r: Round, paired: bool): Option<real>
    requires IsRound(r, |nums|, |dens|, paired) && (paired ==> |nums| == |dens|)
  {
    RatioOf(stat, Pick(nums, r.num), Pick(dens, if paired then r.num else r.den))
  }

  function Samples(stat: Statistic, nums: seq<real>, dens: seq<real>, rounds: seq<Round>, paired: bool): Option<seq<real>>
    requires paired ==> |nums| == |dens|
    requires forall k :: 0 <= k < |rounds| ==> IsRound(rounds[k], |nums|, |dens|, paired)
  {
    if rounds == [] then Some([])
    else
      var front :- Samples(stat, nums, dens, rounds[..|rounds| - 1], paired);
      var last :- Sample(stat, nums, dens, rounds[|rounds| - 1], paired);
      Some(front + [last])
  }

  /** Point estimate and bootstrap interval of the ratio of medians, or None where the original
      raises: no values, unequal lengths when paired, a zero median, no samples, bad confidence. */
  function RatioInterval(stat: Statistic, nums: seq<real>, dens: seq<real>, rounds: seq<Round>, confidence: real, paired: bool): Option<(real, real, real)>
    requires forall k :: 0 <= k < |rounds| ==> IsRound(rounds[k], |nums|, |dens|, paired)
  {
    if paired && |nums| != |dens| then None
    else
      var point :- RatioOf(stat, nums, dens);
      if |nums| == 1 && |dens| == 1 then Some((point, point, point))
      else
        var samples :- Samples(stat, nums, dens, rounds, paired);
        var ci :- Interval(samples, confidence);
        Some((point, ci.0, ci.1))
  }

  /** What one round computes: the numerators drawn over the denominators drawn, by the same positions
      when paired and by their own otherwise. */
  lemma RoundComputes(stat: Statistic, nums: seq<real>, dens: seq<real>, r: Round, paired: bool, a: seq<real>, b: seq<real>)
    requires nums != [] && dens != [] && IsRound(r, |nums|, |dens|, paired) && (paired ==> |nums| == |dens|)
    requires |a| == |nums| && forall i :: 0 <= i < |a| ==> a[i] == nums[r.num[i]]
    requires |b| == |dens| && forall i :: 0 <= i < |b| ==> b[i] == dens[if paired then r.num[i] else r.den[i]]
    ensures Sample(stat, nums, dens, r, paired) == if stat(b) == 0.0 then None else Some(stat(a) / stat(b))
  {
    assert Pick(nums, r.num) == a;
    assert Pick(dens, if paired then r.num else r.den) == b;
  }

  lemma {:induction false} SamplesFail(stat: Statistic, nums: seq<real>, dens: seq<real>, rounds: seq<Round>, paired: bool, k: nat)
    requires paired ==> |nums| == |dens|
    requires forall j :: 0 <= j < |rounds| ==> IsRound(rounds[j], |nums|, |dens|, paired)
    requires k < |rounds| && Sample(stat, nums, dens, rounds[k], paired).None?
    ensures Samples(stat, nums, dens, rounds, paired).None?
  {
    if k < |rounds| - 1 { SamplesFail(stat, nums, dens, rounds[..|rounds| - 1], paired, k); }
  }

  method RatioCi(stat: Statistic, nums: seq<real>, dens: seq<real>, rounds: seq<Round>, confidence: real, paired: bool)
      returns (r: Option<(real, real, real)>)
    requires forall k :: 0 <= k < |rounds| ==> IsRound(rounds[k], |nums|, |dens|, paired)
    ensures r == RatioInterval(stat, nums, dens, rounds, confidence, paired)
  {
    hide Sample, RatioOf, Interval, IsRound;
    if paired && |nums| != |dens| { return None; }
    var point := RatioOf(stat, nums, dens);
    if point.None? { return None; }
    if |nums| == 1 && |dens| == 1 { return Some((point.value, point.value, point.value)); }
    var samples: seq<real> := [];
    for k := 0 to |rounds|
      invariant Samples(stat, nums, dens, rounds[..k], paired) == Some(samples)
    {
      var s := Sample(stat, nums, dens, rounds[k], paired);
      if s.None? {
        SamplesFail(stat, nums, dens, rounds, paired, k);
        return None;
      }
      assert rounds[..k + 1][..k] == rounds[..k];
      samples := samples + [s.value];
    }
    assert rounds[..|rounds|] == rounds;
    var ci := Interval(samples, confidence);
    if ci.None? { return None; }
    r := Some((point.value, ci.value.0, ci.value.1));
  }

  lemma RatioOfScaled(stat: Statistic, c: real, dens: seq<real>)
    requires c > 0.0 && dens != [] && AllPositive(dens) && Homogeneous(stat)
    ensures RatioOf(stat, Scale(c, dens), dens) == Some(c)
  {
    hide Scale;
    ScaleLength(c, dens);
    Cancel(c, stat(dens), stat(Scale(c, dens)));
  }

  lemma Cancel(c: real, m: real, a: real)
    requires m != 0.0 && a == Times(c, m)
    ensures a / m == c
  {
  }

  /** If every numerator is `c` times its denominator, joint resampling sees the ratio `c` every time. */
  lemma PairedSampleExact(stat: Statistic, c: real, dens: seq<real>, r: Round)
    requires c > 0.0 && dens != [] && AllPositive(dens) && Homogeneous(stat)
    requires IsRound(r, |dens|, |dens|, true)
    ensures Sample(stat, Scale(c, dens), dens, r, true) == Some(c)
  {
    hide Times, RatioOf, Homogeneous;
    var picked := Pick(dens, r.num);
    forall i | 0 <= i < |picked| ensures Pick(Scale(c, dens), r.num)[i] == Scale(c, picked)[i] {
      assert picked[i] == dens[r.num[i]];
    }
    assert Pick(Scale(c, dens), r.num) == Scale(c, picked);
    forall x | x in picked ensures x > 0.0 {
      var i :| 0 <= i < |picked| && picked[i] == x;
      assert dens[r.num[i]] in dens;
    }
    RatioOfScaled(stat, c, picked);
  }

  lemma ConstantPercentile(samples: seq<real>, c: real, q: real)
    requires samples != [] && 0.0 <= q <= 100.0 && forall i :: 0 <= i < |samples| ==> samples[i] == c
    ensures Percentile(samples, q) == Some(c)
  {
    assert Within(samples, c, c);
    PercentileWithin(samples, q, c, c);
  }

  lemma {:induction false} PairedSamplesExact(stat: Statistic, c: real, dens: seq<real>, rounds: seq<Round>)
    requires c > 0.0 && dens != [] && AllPositive(dens) && Homogeneous(stat)
    requires forall k :: 0 <= k < |rounds| ==> IsRound(rounds[k], |dens|, |dens|, true)
    ensures Samples(stat, Scale(c, dens), dens, rounds, true).Some?
    ensures var samples := Samples(stat, Scale(c, dens), dens, rounds, true).value;
      |samples| == |rounds| && forall i :: 0 <= i < |samples| ==> samples[i] == c
  {
    hide Sample, IsRound, Scale, Homogeneous, AllPositive;
    ScaleLength(c, dens);
    if rounds != [] {
      PairedSamplesExact(stat, c, dens, rounds[..|rounds| - 1]);
      PairedSampleExact(stat, c, dens, rounds[|rounds| - 1]);
    }
  }

  lemma ScaleLength(c: real, s: seq<real>)
    ensures |Scale(c, s)| == |s|
  {
  }

  /** Paired exactness: the point and both ends of the interval are `c`, for every seed and every
      statistic such as the median. */
  lemma PairedRatioExact(stat: Statistic, c: real, dens: seq<real>, rounds: seq<Round>, confidence: real)
    requires c > 0.0 && dens != [] && AllPositive(dens) && Homogeneous(stat)
    requires rounds != [] && forall k :: 0 <= k < |rounds| ==> IsRound(rounds[k], |dens|, |dens|, true)
    requires -1.0 <= confidence <= 1.0
    ensures RatioInterval(stat, Scale(c, dens), dens, rounds, confidence, true) == Some((c, c, c))
  {
    hide Samples, RatioOf, Percentile, IsRound, Scale, Homogeneous, AllPositive;
    ScaleLength(c, dens);
    RatioOfScaled(stat, c, dens);
    PairedSamplesExact(stat, c, dens, rounds);
    var samples := Samples(stat, Scale(c, dens), dens, rounds, true).value;
    var alpha := (1.0 - confidence) / 2.0;
    ConstantPercentile(samples, c, 100.0 * alpha);
    ConstantPercentile(samples, c, 100.0 * (1.0 - alpha));
  }
}
