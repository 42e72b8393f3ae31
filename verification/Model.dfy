/** The values that pass through remote storage: label sets, metrics and samples. */
module Model {
  datatype Option<+T> = None | Some(value: T)

  type LabelSet = map<string, string>
  type Metric = LabelSet

  datatype Sample = Sample(metric: Metric, timestamp: int, value: real)

  /** The configuration of one write queue. Relabelling and the series fingerprint are
      code outside this model, so they are arbitrary functions here. */
  datatype Config = Config(
    queueCapacity: nat,
    maxShards: int,
    maxSamplesPerSend: int,
    maxRetries: int,
    externalLabels: LabelSet,
    relabel: LabelSet -> Option<Metric>,
    fingerprint: Metric -> nat)

  predicate ValidConfig(c: Config) {
    c.maxShards >= 1 && c.maxSamplesPerSend >= 1
  }

  /** External labels are added only where the metric has no label of that name. */
  function AddExternal(external: LabelSet, metric: Metric): LabelSet {
    external + metric
  }

  /** What a sample looks like when it reaches the shards; None when relabelling drops it. */
  function Relabelled(c: Config, s: Sample): Option<Sample> {
    match c.relabel(AddExternal(c.externalLabels, s.metric))
    case None => None
    case Some(m) => Some(s.(metric := m))
  }

  function Fp(c: Config, s: Sample): nat {
    c.fingerprint(s.metric)
  }

  /** The samples of one series (one fingerprint), in order. */
  function Series(c: Config, s: seq<Sample>, f: nat): seq<Sample> {
    if s == [] then []
    else (if Fp(c, s[0]) == f then [s[0]] else []) + Series(c, s[1..], f)
  }

  lemma Regroup<T>(a: seq<T>, b: seq<T>, c: seq<T>)
    ensures (a + b) + c == a + (b + c)
  {
  }

  lemma {:induction false} SeriesConcat(c: Config, a: seq<Sample>, b: seq<Sample>, f: nat)
    ensures Series(c, a + b, f) == Series(c, a, f) + Series(c, b, f)
  {
    if a == [] {
      assert a + b == b;
    } else {
      SeriesConcat(c, a[1..], b, f);
      var head := if Fp(c, a[0]) == f then [a[0]] else [];
      assert (a + b)[0] == a[0] && (a + b)[1..] == a[1..] + b;
      Regroup(head, Series(c, a[1..], f), Series(c, b, f));
    }
  }

  lemma {:induction false} SeriesOfOthers(c: Config, s: seq<Sample>, f: nat)
    requires forall x :: x in s ==> Fp(c, x) != f
    ensures Series(c, s, f) == []
  {
    if s != [] {
      SeriesOfOthers(c, s[1..], f);
    }
  }

  /** A series keeps every occurrence of its own samples. */
  lemma {:induction false} SeriesCount(c: Config, s: seq<Sample>, x: Sample)
    ensures multiset(Series(c, s, Fp(c, x)))[x] == multiset(s)[x]
  {
    if s != [] {
      SeriesCount(c, s[1..], x);
      assert s == [s[0]] + s[1..];
    }
  }

  function Sum(s: seq<int>): int {
    if s == [] then 0 else Sum(s[..|s| - 1]) + s[|s| - 1]
  }

  lemma SumSnoc(s: seq<int>, x: int)
    ensures Sum(s + [x]) == Sum(s) + x
  {
    assert (s + [x])[..|s|] == s;
  }

  // ----- what these definitions mean -----

  /** The labels of the sample as it comes, and of the external ones those it does not have. */
  ghost predicate Labelled(labels: LabelSet, external: LabelSet, metric: Metric) {
    && (forall k :: k in labels <==> k in external || k in metric)
    && (forall k :: k in metric ==> k in labels && labels[k] == metric[k])
    && (forall k :: k in external && k !in metric ==> k in labels && labels[k] == external[k])
  }

  /** What reaches the shards is the sample at its time and with its value, under the metric that
      relabelling makes of its own labels and the external ones it lacks. */
  lemma RelabelledMeans(c: Config, s: Sample, labels: LabelSet, y: Sample)
    requires Labelled(labels, c.externalLabels, s.metric)
    ensures Relabelled(c, s) == Some(y)
            <==> c.relabel(labels) == Some(y.metric) && y.timestamp == s.timestamp && y.value == s.value
  {
    assert labels.Keys == AddExternal(c.externalLabels, s.metric).Keys;
    assert labels == AddExternal(c.externalLabels, s.metric);
  }

  // ----- the samples of one metric -----

  function OfMetric(s: seq<Sample>, m: Metric): seq<Sample> {
    if s == [] then []
    else (if s[0].metric == m then [s[0]] else []) + OfMetric(s[1..], m)
  }

  lemma {:induction false} OfMetricConcat(a: seq<Sample>, b: seq<Sample>, m: Metric)
    ensures OfMetric(a + b, m) == OfMetric(a, m) + OfMetric(b, m)
  {
    if a == [] {
      assert a + b == b;
    } else {
      OfMetricConcat(a[1..], b, m);
      assert (a + b)[0] == a[0] && (a + b)[1..] == a[1..] + b;
      Regroup(if a[0].metric == m then [a[0]] else [], OfMetric(a[1..], m), OfMetric(b, m));
    }
  }

  /** All samples of a metric are in the series of its fingerprint. */
  lemma {:induction false} MetricInSeries(c: Config, s: seq<Sample>, m: Metric)
    ensures OfMetric(s, m) == OfMetric(Series(c, s, c.fingerprint(m)), m)
  {
    if s != [] {
      MetricInSeries(c, s[1..], m);
      var f := c.fingerprint(m);
      var head := if Fp(c, s[0]) == f then [s[0]] else [];
      OfMetricConcat(head, Series(c, s[1..], f), m);
      if s[0].metric == m {
        assert OfMetric(head, m) == [s[0]] + OfMetric(head[1..], m) == [s[0]];
      }
    }
  }

  lemma SameMetric(c: Config, a: seq<Sample>, b: seq<Sample>, m: Metric)
    requires Series(c, a, c.fingerprint(m)) == Series(c, b, c.fingerprint(m))
    ensures OfMetric(a, m) == OfMetric(b, m)
  {
    MetricInSeries(c, a, m);
    MetricInSeries(c, b, m);
  }

  /** Samples that agree series by series agree metric by metric. */
  lemma SameMetrics(c: Config, a: seq<Sample>, b: seq<Sample>)
    requires forall f: nat :: Series(c, a, f) == Series(c, b, f)
    ensures forall m :: OfMetric(a, m) == OfMetric(b, m)
  {
    forall m ensures OfMetric(a, m) == OfMetric(b, m) {
      SameMetric(c, a, b, m);
    }
  }

  lemma MetricPrefix(c: Config, a: seq<Sample>, b: seq<Sample>, m: Metric)
    requires Series(c, a, c.fingerprint(m)) <= Series(c, b, c.fingerprint(m))
    ensures OfMetric(a, m) <= OfMetric(b, m)
  {
    hide Series, OfMetric;
    var x, y := Series(c, a, c.fingerprint(m)), Series(c, b, c.fingerprint(m));
    MetricInSeries(c, a, m);
    MetricInSeries(c, b, m);
    OfMetricConcat(x, y[|x|..], m);
    assert y == x + y[|x|..];
  }
}
