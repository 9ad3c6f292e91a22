/** The regression verdict over benchmark samples (benchmarks/evaluate.py), with exact real arithmetic.

    A metric is observed as the nearest-rank percentile of its samples or as their maximum. It passes within its own
    maximum and, when there is a baseline, within the greater of two allowances over the prior value: a ratio and an
    absolute tolerance. What a rank is, and what it tolerates, is stated by counting the samples at or below a value,
    without sorting. */
module Ranking {
  import opened Basics

  datatype EvaluationError =
    | NoSamples | PercentileOutOfRange | NoMetrics | DuplicateMetric | MissingMeasurement | UnsupportedStatistic
    | NotFinite | BaselineMissesMetric | NoRegressionPolicy

  function Ceiling(x: real): int {
    -((-x).Floor)
  }

  function InsertReal(s: seq<real>, x: real): seq<real> {
    if s == [] then [x] else if x <= s[0] then [x] + s else [s[0]] + InsertReal(s[1..], x)
  }

  function Sorted(values: seq<real>): (s: seq<real>)
    ensures |s| == |values|
  {
    SortedLength(values);
    SortedFrom(values)
  }

  function SortedFrom(values: seq<real>): seq<real> {
    if values == [] then [] else InsertReal(SortedFrom(values[1..]), values[0])
  }

  lemma {:induction false} InsertLength(s: seq<real>, x: real)
    ensures |InsertReal(s, x)| == |s| + 1
  {
    if s != [] && x > s[0] {
      InsertLength(s[1..], x);
    }
  }

  lemma {:induction false} SortedLength(values: seq<real>)
    ensures |SortedFrom(values)| == |values|
  {
    if values != [] {
      SortedLength(values[1..]);
      InsertLength(SortedFrom(values[1..]), values[0]);
    }
  }

  lemma RankInRange(n: nat, percentile: real)
    requires n > 0 && 0.0 < percentile <= 1.0
    ensures 1 <= Ceiling(percentile * n as real) <= n
  {
    var x := percentile * n as real;
    assert 0.0 < x;
    assert x <= n as real;
  }

  predicate Percentile(p: real) {
    0.0 < p <= 1.0
  }

  /** The one-based rank among `n` samples. */
  function Rank(n: nat, percentile: real): (rank: nat)
    requires n > 0 && Percentile(percentile)
    ensures 1 <= rank <= n
  {
    RankInRange(n, percentile);
    Ceiling(percentile * n as real)
  }

  /** `nearest_rank`. */
  function NearestRank(values: seq<real>, percentile: real): Result<real, EvaluationError> {
    if values == [] then Err(NoSamples)
    else if !Percentile(percentile) then Err(PercentileOutOfRange)
    else Ok(Sorted(values)[Rank(|values|, percentile) - 1])
  }

  // What nearest-rank is.

  predicate Ascending(s: seq<real>) {
    forall i, j :: 0 <= i < j < |s| ==> s[i] <= s[j]
  }

  /** How many samples are at or below `x`. */
  function AtMost(values: seq<real>, x: real): (n: nat)
    ensures n <= |values|
  {
    if values == [] then 0 else (if values[0] <= x then 1 else 0) + AtMost(values[1..], x)
  }

  lemma {:induction false} InsertKeeps(s: seq<real>, v: real)
    requires Ascending(s)
    ensures Ascending(InsertReal(s, v))
    ensures forall y :: y in InsertReal(s, v) <==> y in s || y == v
  {
    if s != [] && v > s[0] {
      InsertKeeps(s[1..], v);
      var r := InsertReal(s[1..], v);
      assert s == [s[0]] + s[1..];
      forall j | 0 <= j < |r| ensures s[0] <= r[j] {
        assert r[j] in r;
      }
    }
  }

  lemma {:induction false} InsertCounts(s: seq<real>, v: real, x: real)
    ensures AtMost(InsertReal(s, v), x) == AtMost(s, x) + if v <= x then 1 else 0
  {
    if s != [] {
      if v <= s[0] {
        assert ([v] + s)[1..] == s;
      } else {
        InsertCounts(s[1..], v, x);
        assert ([s[0]] + InsertReal(s[1..], v))[1..] == InsertReal(s[1..], v);
      }
    }
  }

  lemma {:induction false} SortedSorts(values: seq<real>)
    ensures Ascending(SortedFrom(values))
    ensures forall y :: y in SortedFrom(values) <==> y in values
  {
    if values != [] {
      SortedSorts(values[1..]);
      InsertKeeps(SortedFrom(values[1..]), values[0]);
      assert values == [values[0]] + values[1..];
    }
  }

  lemma {:induction false} SortedCounts(values: seq<real>, x: real)
    ensures AtMost(SortedFrom(values), x) == AtMost(values, x)
  {
    if values != [] {
      SortedCounts(values[1..], x);
      InsertCounts(SortedFrom(values[1..]), values[0], x);
    }
  }

  /** In ascending order the k-th value has at least k + 1 values at or below it, and a smaller one has at most k. */
  lemma {:induction false} AscendingCounts(s: seq<real>, k: nat, x: real)
    requires Ascending(s) && k < |s|
    ensures s[k] <= x ==> AtMost(s, x) >= k + 1
    ensures x < s[k] ==> AtMost(s, x) <= k
  {
    if k == 0 {
      if x < s[0] {
        NoneAtMost(s, x);
      }
    } else {
      AscendingCounts(s[1..], k - 1, x);
    }
  }

  lemma {:induction false} NoneAtMost(s: seq<real>, x: real)
    requires forall i :: 0 <= i < |s| ==> x < s[i]
    ensures AtMost(s, x) == 0
  {
    if s != [] {
      NoneAtMost(s[1..], x);
    }
  }

  lemma KthIsLeast(values: seq<real>, k: nat, x: real)
    requires k < |values|
    ensures Sorted(values)[k] in values
    ensures Sorted(values)[k] <= x <==> AtMost(values, x) >= k + 1
  {
    SortedSorts(values);
    SortedCounts(values, x);
    AscendingCounts(Sorted(values), k, x);
  }

  /** A real is at least the nearest rank exactly when enough samples are at or below it. */
  lemma NearestRankIsLeast(values: seq<real>, percentile: real, x: real)
    requires values != [] && Percentile(percentile)
    ensures NearestRank(values, percentile).Ok? && NearestRank(values, percentile).value in values
    ensures NearestRank(values, percentile).value <= x <==> AtMost(values, x) >= Rank(|values|, percentile)
  {
    KthIsLeast(values, Rank(|values|, percentile) - 1, x);
  }

  predicate Below(a: seq<real>, b: seq<real>) {
    |a| == |b| && forall i :: 0 <= i < |a| ==> a[i] <= b[i]
  }

  lemma {:induction false} LowerCountsMore(a: seq<real>, b: seq<real>, x: real)
    requires Below(a, b)
    ensures AtMost(a, x) >= AtMost(b, x)
  {
    if a != [] {
      LowerCountsMore(a[1..], b[1..], x);
    }
  }

  /** Raising samples never lowers the nearest rank. */
  lemma NearestRankMonotone(a: seq<real>, b: seq<real>, percentile: real)
    requires a != [] && Below(a, b) && Percentile(percentile)
    ensures NearestRank(a, percentile).Ok? && NearestRank(b, percentile).Ok?
    ensures NearestRank(a, percentile).value <= NearestRank(b, percentile).value
  {
    var y := NearestRank(b, percentile).value;
    NearestRankIsLeast(b, percentile, y);
    LowerCountsMore(a, b, y);
    NearestRankIsLeast(a, percentile, y);
  }

  lemma {:induction false} AllButOneCount(values: seq<real>, i: nat, bound: real)
    requires i < |values| && forall k :: 0 <= k < |values| && k != i ==> values[k] <= bound
    ensures AtMost(values, bound) >= |values| - 1
  {
    if i == 0 {
      assert forall k :: 0 <= k < |values| - 1 ==> values[1..][k] == values[k + 1];
      AllAtMost(values[1..], bound);
    } else {
      assert forall k :: 0 <= k < |values| - 1 ==> values[1..][k] == values[k + 1];
      AllButOneCount(values[1..], i - 1, bound);
    }
  }

  lemma {:induction false} AllAtMost(values: seq<real>, bound: real)
    requires forall k :: 0 <= k < |values| ==> values[k] <= bound
    ensures AtMost(values, bound) == |values|
  {
    if values != [] {
      AllAtMost(values[1..], bound);
    }
  }

  /** One arbitrary sample cannot lift the nearest rank above the maximum of the others, exactly when the rank
      leaves room for one outlier. */
  lemma OneOutlierIsHarmless(values: seq<real>, percentile: real, i: nat, x: real, bound: real)
    requires i < |values| && Percentile(percentile)
    requires forall k :: 0 <= k < |values| && k != i ==> values[k] <= bound
    ensures NearestRank(values[i := x], percentile).Ok?
    ensures Rank(|values|, percentile) < |values| ==> NearestRank(values[i := x], percentile).value <= bound
    ensures Rank(|values|, percentile) == |values| && bound < x ==>
              bound < NearestRank(values[i := x], percentile).value
  {
    var changed := values[i := x];
    AllButOneCount(changed, i, bound);
    NearestRankIsLeast(changed, percentile, bound);
    if bound < x {
      NotAllAtMost(changed, i, bound);
    }
  }

  lemma {:induction false} NotAllAtMost(values: seq<real>, i: nat, bound: real)
    requires i < |values| && bound < values[i]
    ensures AtMost(values, bound) < |values|
  {
    if i > 0 {
      NotAllAtMost(values[1..], i - 1, bound);
    }
  }

  /** Twenty samples at the 95th percentile leave that room. */
  lemma TwentySamplesTolerateOne(values: seq<real>, i: nat, x: real, bound: real)
    requires |values| == 20 && i < 20
    requires forall k :: 0 <= k < 20 && k != i ==> values[k] <= bound
    ensures NearestRank(values[i := x], 0.95).Ok? && NearestRank(values[i := x], 0.95).value <= bound
  {
    assert 0.95 * 20.0 == 19.0;
    assert Ceiling(19.0) == 19;
    OneOutlierIsHarmless(values, 0.95, i, x, bound);
  }

  // The verdict.

  datatype Regression = Regression(maxRatio: Option<real>, absoluteTolerance: Option<real>)

  /** One configured metric with what its source gives for each sample; an absent value is one the source refuses. */
  datatype Metric = Metric(id: Option<string>, samples: seq<Option<real>>, statistic: string, maximum: Option<real>,
                           regression: Option<Regression>)

  datatype MetricResult = MetricResult(id: string, samples: seq<real>, observed: real, absoluteMaximum: real,
                                       regressionLimit: Option<real>, effectiveMaximum: real, passed: bool)

  function MaxOf(values: seq<real>): real
    requires values != []
  {
    if |values| == 1 || values[0] >= MaxOf(values[1..]) then values[0] else MaxOf(values[1..])
  }

  predicate AllPresent(samples: seq<Option<real>>) {
    forall i :: 0 <= i < |samples| ==> samples[i].Some?
  }

  function Present(samples: seq<Option<real>>): (r: seq<real>)
    requires AllPresent(samples)
    ensures |r| == |samples|
  {
    seq(|samples|, i requires 0 <= i < |samples| => samples[i].value)
  }

  predicate Usable(m: Metric) {
    && m.id.Some? && m.samples != [] && AllPresent(m.samples) && m.maximum.Some?
    && (m.statistic == "p95" || m.statistic == "max")
  }

  /** With a baseline the metric needs a prior value and a complete regression policy. */
  predicate Comparable(m: Metric, prior: Option<map<string, real>>)
    requires m.id.Some?
  {
    prior.Some? ==> m.id.value in prior.value && m.regression.Some?
                    && m.regression.value.maxRatio.Some? && m.regression.value.absoluteTolerance.Some?
  }

  function Observed(m: Metric): real
    requires Usable(m)
  {
    if m.statistic == "p95" then
      NearestRankIsLeast(Present(m.samples), 0.95, 0.0);
      NearestRank(Present(m.samples), 0.95).value
    else MaxOf(Present(m.samples))
  }

  /** The prior value times the allowed ratio, and the prior value plus the absolute tolerance. */
  function Allowances(m: Metric, prior: map<string, real>): (real, real)
    requires m.id.Some? && Comparable(m, Some(prior))
  {
    var before := prior[m.id.value];
    (before * m.regression.value.maxRatio.value, before + m.regression.value.absoluteTolerance.value)
  }

  /** The verdict on one metric: within its absolute maximum and, with a baseline, within one of the two allowances
      over the prior value. */
  predicate WithinLimits(m: Metric, prior: Option<map<string, real>>, observed: real)
    requires Usable(m) && Comparable(m, prior)
  {
    && observed <= m.maximum.value
    && (prior.Some? ==>
          || observed <= prior.value[m.id.value] * m.regression.value.maxRatio.value
          || observed <= prior.value[m.id.value] + m.regression.value.absoluteTolerance.value)
  }

  predicate Judgeable(metrics: seq<Metric>, prior: Option<map<string, real>>) {
    && (forall i :: 0 <= i < |metrics| ==> Usable(metrics[i]) && Comparable(metrics[i], prior))
    && (forall i, j :: 0 <= i < j < |metrics| ==> metrics[i].id != metrics[j].id)
  }

  predicate Greater(x: real, a: real, b: real) {
    x >= a && x >= b && (x == a || x == b)
  }

  /** The limits a result reports: the greater allowance over the prior value, and the smaller of the two maxima. */
  predicate LimitsReported(m: Metric, prior: Option<map<string, real>>, r: MetricResult)
    requires Usable(m) && Comparable(m, prior)
  {
    && r.absoluteMaximum == m.maximum.value
    && (prior.None? ==> r.regressionLimit.None? && r.effectiveMaximum == r.absoluteMaximum)
    && (prior.Some? ==>
          var (scaled, shifted) := Allowances(m, prior.value);
          && r.regressionLimit.Some? && Greater(r.regressionLimit.value, scaled, shifted)
          && Greater(-r.effectiveMaximum, -r.absoluteMaximum, -r.regressionLimit.value))
  }

  predicate Judges(m: Metric, prior: Option<map<string, real>>, r: MetricResult) {
    && Usable(m) && Comparable(m, prior)
    && m.id == Some(r.id) && r.samples == Present(m.samples) && r.observed == Observed(m)
    && LimitsReported(m, prior, r)
    && (r.passed <==> r.observed <= r.effectiveMaximum)
    && (r.passed <==> WithinLimits(m, prior, Observed(m)))
  }

  function Largest(a: real, b: real): real {
    if b > a then b else a
  }

  function Smallest(a: real, b: real): real {
    if b < a then b else a
  }

  lemma LimitsMean(x: real, maximum: real, a: real, b: real, limit: real, effective: real)
    requires limit == Largest(a, b) && effective == Smallest(maximum, limit)
    ensures Greater(limit, a, b) && Greater(-effective, -maximum, -limit)
    ensures x <= effective <==> x <= maximum && (x <= a || x <= b)
  {
  }

  /** The limits of one metric: its own maximum, and with a baseline the smaller of that and the regression limit. */
  method LimitsFor(m: Metric, prior: Option<map<string, real>>)
    returns (r: Result<(Option<real>, real), EvaluationError>)
    requires Usable(m)
    ensures r.Ok? <==> Comparable(m, prior)
    ensures r.Ok? && prior.None? ==> r.value == (None, m.maximum.value)
    ensures r.Ok? && prior.Some? ==>
      var (scaled, shifted) := Allowances(m, prior.value);
      && r.value.0 == Some(Largest(scaled, shifted))
      && r.value.1 == Smallest(m.maximum.value, r.value.0.value)
  {
    if prior.None? {
      return Ok((None, m.maximum.value));
    }
    if m.id.value !in prior.value {
      return Err(BaselineMissesMetric);
    }
    if m.regression.None? {
      return Err(NoRegressionPolicy);
    }
    if m.regression.value.maxRatio.None? || m.regression.value.absoluteTolerance.None? {
      return Err(NotFinite);
    }
    var (scaled, shifted) := Allowances(m, prior.value);
    var limit := Largest(scaled, shifted);
    r := Ok((Some(limit), Smallest(m.maximum.value, limit)));
  }

  /** The body of the metric loop. */
  method JudgeMetric(m: Metric, prior: Option<map<string, real>>) returns (r: Result<MetricResult, EvaluationError>)
    requires m.id.Some? && m.samples != []
    ensures r.Ok? <==> Usable(m) && Comparable(m, prior)
    ensures r.Ok? ==> Judges(m, prior, r.value)
  {
    if !AllPresent(m.samples) {
      return Err(MissingMeasurement);
    }
    var values, observed := Present(m.samples), 0.0;
    if m.statistic == "p95" {
      var rank := NearestRank(values, 0.95);
      NearestRankIsLeast(values, 0.95, 0.0);
      observed := rank.value;
    } else if m.statistic == "max" {
      observed := MaxOf(values);
    } else {
      return Err(UnsupportedStatistic);
    }
    if m.maximum.None? {
      return Err(NotFinite);
    }
    var limits := LimitsFor(m, prior);
    if limits.Err? {
      return Err(limits.error);
    }
    var (regressionLimit, effectiveMaximum) := limits.value;
    if prior.Some? {
      var (scaled, shifted) := Allowances(m, prior.value);
      LimitsMean(observed, m.maximum.value, scaled, shifted, regressionLimit.value, effectiveMaximum);
    }
    r := Ok(MetricResult(m.id.value, values, observed, m.maximum.value, regressionLimit, effectiveMaximum,
                         observed <= effectiveMaximum));
  }

  /** Each result judges its metric. */
  predicate JudgesAll(metrics: seq<Metric>, prior: Option<map<string, real>>, results: seq<MetricResult>) {
    |results| == |metrics|
    && (metrics == [] || (JudgesAll(metrics[..|metrics| - 1], prior, results[..|results| - 1])
                          && Judges(metrics[|metrics| - 1], prior, results[|results| - 1])))
  }

  /** Every metric is within its limits. */
  predicate AllWithin(metrics: seq<Metric>, prior: Option<map<string, real>>)
    requires Judgeable(metrics, prior)
  {
    forall i :: 0 <= i < |metrics| ==> WithinLimits(metrics[i], prior, Observed(metrics[i]))
  }

  lemma JudgeableNext(metrics: seq<Metric>, prior: Option<map<string, real>>, m: Metric)
    requires Judgeable(metrics, prior) && Usable(m) && Comparable(m, prior)
    requires forall i :: 0 <= i < |metrics| ==> metrics[i].id != m.id
    ensures Judgeable(metrics + [m], prior)
    ensures AllWithin(metrics + [m], prior) <==> AllWithin(metrics, prior) && WithinLimits(m, prior, Observed(m))
  {
    var all := metrics + [m];
    assert all[|metrics|] == m;
    assert forall i :: 0 <= i < |metrics| ==> all[i] == metrics[i];
  }

  /** The ids of the metrics seen so far. */
  ghost predicate Seen(seen: set<string>, metrics: seq<Metric>) {
    forall id :: id in seen <==> exists i :: 0 <= i < |metrics| && metrics[i].id == Some(id)
  }

  /** What holds after the first metrics. */
  ghost predicate Progress(metrics: seq<Metric>, prior: Option<map<string, real>>, seen: set<string>,
                           results: seq<MetricResult>, passed: bool) {
    Seen(seen, metrics) && JudgesAll(metrics, prior, results)
    && Judgeable(metrics, prior) && (passed <==> AllWithin(metrics, prior))
  }

  lemma ProgressNext(metrics: seq<Metric>, prior: Option<map<string, real>>, seen: set<string>,
                     results: seq<MetricResult>, passed: bool, m: Metric, r: MetricResult)
    requires Progress(metrics, prior, seen, results, passed)
    requires m.id.Some? && m.id.value !in seen && Judges(m, prior, r)
    ensures Progress(metrics + [m], prior, seen + {m.id.value}, results + [r], passed && r.passed)
  {
    SeenNext(seen, metrics, m);
    JudgesNext(metrics, prior, results, m, r);
    assert forall i :: 0 <= i < |metrics| ==> metrics[i].id != m.id;
    JudgeableNext(metrics, prior, m);
  }

  lemma SeenNext(seen: set<string>, metrics: seq<Metric>, m: Metric)
    requires Seen(seen, metrics) && m.id.Some?
    ensures Seen(seen + {m.id.value}, metrics + [m])
  {
    var all := metrics + [m];
    assert all[|metrics|] == m;
    assert forall i :: 0 <= i < |metrics| ==> all[i] == metrics[i];
  }

  lemma JudgesNext(metrics: seq<Metric>, prior: Option<map<string, real>>, results: seq<MetricResult>, m: Metric, r: MetricResult)
    requires JudgesAll(metrics, prior, results) && Judges(m, prior, r)
    ensures JudgesAll(metrics + [m], prior, results + [r])
  {
    assert (metrics + [m])[..|metrics|] == metrics && (results + [r])[..|results|] == results;
  }

  lemma Repeats(seen: set<string>, metrics: seq<Metric>, prior: Option<map<string, real>>, k: nat)
    requires k < |metrics| && Seen(seen, metrics[..k])
    requires metrics[k].id.None? || metrics[k].id.value in seen
    ensures !Judgeable(metrics, prior)
  {
    if metrics[k].id.Some? {
      var i :| 0 <= i < k && metrics[..k][i].id == metrics[k].id;
      assert metrics[i].id == metrics[k].id;
    }
  }

  /** The metric loop of `evaluate` and its overall verdict. There are at least two samples by configuration. */
  method Evaluate(metrics: seq<Metric>, prior: Option<map<string, real>>)
    returns (r: Result<(seq<MetricResult>, bool), EvaluationError>)
    requires forall i :: 0 <= i < |metrics| ==> |metrics[i].samples| >= 2
    ensures r.Ok? <==> metrics != [] && Judgeable(metrics, prior)
    ensures r.Ok? ==> JudgesAll(metrics, prior, r.value.0) && (r.value.1 <==> AllWithin(metrics, prior))
  {
    if metrics == [] {
      return Err(NoMetrics);
    }
    var seen: set<string>, results: seq<MetricResult>, passed := {}, [], true;
    for k := 0 to |metrics|
      invariant Progress(metrics[..k], prior, seen, results, passed)
    {
      var m := metrics[k];
      if m.id.None? || m.id.value in seen {
        Repeats(seen, metrics, prior, k);
        return Err(DuplicateMetric);
      }
      var judged := JudgeMetric(m, prior);
      if judged.Err? {
        return Err(judged.error);
      }
      assert metrics[..k + 1] == metrics[..k] + [m];
      ProgressNext(metrics[..k], prior, seen, results, passed, m, judged.value);
      seen := seen + {m.id.value};
      results := results + [judged.value];
      passed := passed && judged.value.passed;
    }
    assert metrics[..|metrics|] == metrics;
    r := Ok((results, passed));
  }

  /** The maximum is a sample, and no sample is greater. */
  lemma {:induction false} MaxIsGreatest(values: seq<real>)
    requires values != []
    ensures MaxOf(values) in values && forall x :: x in values ==> x <= MaxOf(values)
  {
    if |values| > 1 {
      MaxIsGreatest(values[1..]);
      assert values == [values[0]] + values[1..];
    }
  }

  /** What is observed of a usable metric: the maximum of its samples, or the least of them with enough of them at or
      below it. */
  lemma ObservedMeans(m: Metric, x: real)
    requires Usable(m)
    ensures Observed(m) in Present(m.samples)
    ensures m.statistic == "max" ==> (Observed(m) <= x <==> forall y :: y in Present(m.samples) ==> y <= x)
    ensures m.statistic == "p95" ==> (Observed(m) <= x <==> AtMost(Present(m.samples), x) >= Rank(|m.samples|, 0.95))
  {
    if m.statistic == "max" {
      MaxIsGreatest(Present(m.samples));
    } else {
      NearestRankIsLeast(Present(m.samples), 0.95, x);
    }
  }

  lemma {:induction false} MaxMonotone(a: seq<real>, b: seq<real>)
    requires a != [] && Below(a, b)
    ensures MaxOf(a) <= MaxOf(b)
  {
    if |a| > 1 {
      MaxMonotone(a[1..], b[1..]);
    }
  }

  /** Raising samples never turns a failing metric into a passing one. */
  lemma VerdictMonotone(m: Metric, higher: seq<Option<real>>, prior: Option<map<string, real>>)
    requires Usable(m) && Comparable(m, prior) && |higher| == |m.samples| && AllPresent(higher)
    requires Below(Present(m.samples), Present(higher))
    ensures var raised := m.(samples := higher);
            Usable(raised) && Comparable(raised, prior)
            && (WithinLimits(raised, prior, Observed(raised)) ==> WithinLimits(m, prior, Observed(m)))
  {
    if m.statistic == "p95" {
      NearestRankMonotone(Present(m.samples), Present(higher), 0.95);
    } else {
      MaxMonotone(Present(m.samples), Present(higher));
    }
  }
}
