/** The external labels of the read path: matchers added to a query and labels taken off its
    result, against the write path that put those labels on. */
module ExternalLabels {
  import opened Model
  import opened LabelMatching

  /** The value a matcher sees: a label that is not there reads as empty. */
  function Value(metric: Metric, name: string): string {
    if name in metric then metric[name] else ""
  }

  ghost predicate Matches(ms: seq<Matcher>, metric: Metric) {
    forall m :: m in ms ==> Match(m, Value(metric, m.name))
  }

  function Names(ms: seq<Matcher>): (r: set<string>)
    ensures forall m :: m in ms ==> m.name in r
  {
    set i | 0 <= i < |ms| :: ms[i].name
  }

  /** The external labels a query does not name. */
  function Unnamed(external: LabelSet, ms: seq<Matcher>): LabelSet {
    external - Names(ms)
  }

  function EqualMatcher(name: string, value: string): Matcher {
    Matcher(Equal, name, value, (v: string) => false)
  }

  predicate Carries(metric: Metric, labels: LabelSet) {
    forall k :: k in labels ==> Value(metric, k) == labels[k]
  }

  function Strip(metric: Metric, labels: LabelSet): Metric {
    metric - labels.Keys
  }

  /** A metric matches `ms` exactly if it matches `matchers` and carries the labels. */
  ghost predicate Extends(ms: seq<Matcher>, matchers: seq<Matcher>, labels: LabelSet) {
    forall metric :: Matches(ms, metric) <==> Matches(matchers, metric) && Carries(metric, labels)
  }

  /** A label is added exactly if it is external and no matcher of the user names it. */
  lemma UnnamedMeans(external: LabelSet, ms: seq<Matcher>, k: string)
    ensures k in Unnamed(external, ms) <==> k in external && forall i :: 0 <= i < |ms| ==> ms[i].name != k
    ensures k in Unnamed(external, ms) ==> Unnamed(external, ms)[k] == external[k]
  {
  }

  method DropNamed(external: LabelSet, matchers: seq<Matcher>) returns (el: LabelSet)
    ensures el == Unnamed(external, matchers)
  {
    el := external;
    for i := 0 to |matchers|
      invariant el == Unnamed(external, matchers[..i])
    {
      NamesSnoc(matchers[..i], matchers[i]);
      assert matchers[..i + 1] == matchers[..i] + [matchers[i]];
      if matchers[i].name in el {
        el := el - {matchers[i].name};
      }
    }
    assert matchers[..|matchers|] == matchers;
  }

  /** Adds one equality matcher for each external label the query does not name. The user's
      matchers stay in front; a metric matches the result exactly if it matches them and
      carries the added labels. */
  method AddExternalLabels(external: LabelSet, matchers: seq<Matcher>) returns (ms: seq<Matcher>, el: LabelSet)
    ensures el == Unnamed(external, matchers)
    ensures matchers <= ms && |ms| == |matchers| + |el|
    ensures forall i :: |matchers| <= i < |ms| ==> ms[i].typ.Equal? && ms[i].name in el && ms[i].value == el[ms[i].name]
    ensures Extends(ms, matchers, el)
  {
    hide Extends, Unnamed, AddsEqual, EqualMatcher, Within;
    el := DropNamed(external, matchers);
    ms := matchers;
    var left := el;
    ExtendsItself(matchers, el);
    NothingAdded(matchers, el);
    WithinItself(el);
    while left != map[]
      invariant Within(left, el)
      invariant matchers <= ms && |ms| + |left| == |matchers| + |el|
      invariant AddsEqual(ms, |matchers|, el)
      invariant Extends(ms, matchers, el - left.Keys)
      decreases |left|
    {
      assert left.Keys != {};
      var k :| k in left.Keys;
      ExtendsMore(ms, matchers, el, left, k);
      TakeOne(left, el, k);
      AddsOneMore(ms, |matchers|, el, k);
      ms := ms + [EqualMatcher(k, left[k])];
      left := left - {k};
    }
    assert el - left.Keys == el;
    AllAddedAreEqual(ms, |matchers|, el);
  }

  predicate AddsEqual(ms: seq<Matcher>, n: nat, el: LabelSet) {
    forall i :: n <= i < |ms| ==> ms[i].typ.Equal? && ms[i].name in el && ms[i].value == el[ms[i].name]
  }

  lemma NothingAdded(ms: seq<Matcher>, el: LabelSet)
    ensures AddsEqual(ms, |ms|, el)
  {
  }

  lemma AddsOneMore(ms: seq<Matcher>, n: nat, el: LabelSet, k: string)
    requires AddsEqual(ms, n, el) && k in el
    ensures AddsEqual(ms + [EqualMatcher(k, el[k])], n, el)
  {
  }

  lemma AllAddedAreEqual(ms: seq<Matcher>, n: nat, el: LabelSet)
    requires AddsEqual(ms, n, el)
    ensures forall i :: n <= i < |ms| ==> ms[i].typ.Equal? && ms[i].name in el && ms[i].value == el[ms[i].name]
  {
  }

  predicate Within(part: LabelSet, all: LabelSet) {
    part.Keys <= all.Keys && forall k :: k in part ==> part[k] == all[k]
  }

  lemma TakeOne(left: LabelSet, all: LabelSet, k: string)
    requires Within(left, all) && k in left
    ensures Within(left - {k}, all) && |left - {k}| == |left| - 1 && k in all && left[k] == all[k]
  {
  }

  lemma WithinItself(all: LabelSet)
    ensures Within(all, all)
  {
  }

  lemma ExtendsItself(matchers: seq<Matcher>, el: LabelSet)
    ensures Extends(matchers, matchers, el - el.Keys)
  {
  }

  lemma ExtendsMore(ms: seq<Matcher>, matchers: seq<Matcher>, el: LabelSet, left: LabelSet, k: string)
    requires Extends(ms, matchers, el - left.Keys) && Within(left, el) && k in left
    ensures Extends(ms + [EqualMatcher(k, left[k])], matchers, el - (left - {k}).Keys)
  {
    forall metric: Metric
      ensures Matches(ms + [EqualMatcher(k, left[k])], metric)
              <==> Matches(matchers, metric) && Carries(metric, el - (left - {k}).Keys)
    {
      MatchesSnoc(ms, EqualMatcher(k, left[k]), metric);
      CarriesMore(metric, el, left, k);
    }
  }

  lemma NamesSnoc(ms: seq<Matcher>, m: Matcher)
    ensures Names(ms + [m]) == Names(ms) + {m.name}
  {
    forall n ensures n in Names(ms + [m]) <==> n in Names(ms) + {m.name} {
      if n in Names(ms) {
        var i :| 0 <= i < |ms| && ms[i].name == n;
        assert (ms + [m])[i].name == n;
      }
      assert (ms + [m])[|ms|].name == m.name;
    }
  }

  lemma MatchesSnoc(ms: seq<Matcher>, m: Matcher, metric: Metric)
    ensures Matches(ms + [m], metric) <==> Matches(ms, metric) && Match(m, Value(metric, m.name))
  {
    assert m in ms + [m];
    assert forall x :: x in ms ==> x in ms + [m];
    assert forall x :: x in ms + [m] ==> x in ms || x == m;
  }

  lemma CarriesMore(metric: Metric, el: LabelSet, left: LabelSet, k: string)
    requires left.Keys <= el.Keys && k in left && left[k] == el[k]
    ensures Carries(metric, el - (left - {k}).Keys) <==> Carries(metric, el - left.Keys) && Value(metric, k) == el[k]
  {
    var a, b := el - (left - {k}).Keys, el - left.Keys;
    assert a.Keys == b.Keys + {k};
  }

  /** In-place removal: a series that occurs twice is stripped all the same. */
  class Series {
    var metric: Metric

    constructor (metric: Metric)
      ensures this.metric == metric
    {
      this.metric := metric;
    }
  }

  method StripSeries(ss: Series, labels: LabelSet)
    modifies ss
    ensures ss.metric == Strip(old(ss.metric), labels)
  {
    var todo := labels.Keys;
    while todo != {}
      invariant todo <= labels.Keys
      invariant ss.metric == old(ss.metric) - (labels.Keys - todo)
      decreases |todo|
    {
      var k :| k in todo;
      ss.metric := ss.metric - {k};
      todo := todo - {k};
    }
  }

  method RemoveLabels(matrix: seq<Series>, labels: LabelSet)
    modifies matrix
    ensures forall ss :: ss in matrix ==> ss.metric == Strip(old(ss.metric), labels)
  {
    for i := 0 to |matrix|
      invariant forall j :: 0 <= j < |matrix| ==>
                  matrix[j].metric == Strip(old(matrix[j].metric), labels) || matrix[j].metric == old(matrix[j].metric)
      invariant forall j :: 0 <= j < i ==> matrix[j].metric == Strip(old(matrix[j].metric), labels)
    {
      StripSeries(matrix[i], labels);
      StripTwice(old(matrix[i].metric), labels);
    }
  }

  lemma StripTwice(metric: Metric, labels: LabelSet)
    ensures Strip(Strip(metric, labels), labels) == Strip(metric, labels)
  {
  }

  // ----- the read path undoes the write path -----

  /** For any metric and any query: what the write path stored is returned exactly when the
      user's matchers accept it as stored and the metric does not contradict an added label;
      and stripping gives the metric back exactly when it has none of the added labels and all
      of the external labels the query names. */
  lemma {:induction false} ReadAfterWrite(external: LabelSet, ms: seq<Matcher>, metric: Metric)
    ensures var stored, added := AddExternal(external, metric), Unnamed(external, ms);
            && (Carries(stored, added) <==> forall k :: k in added && k in metric ==> metric[k] == external[k])
            && (Strip(stored, added) == metric <==>
                  metric.Keys !! added.Keys && external.Keys - added.Keys <= metric.Keys)
  {
    var stored, added := AddExternal(external, metric), Unnamed(external, ms);
    assert stored.Keys == external.Keys + metric.Keys;
    if metric.Keys !! added.Keys && external.Keys - added.Keys <= metric.Keys {
      assert Strip(stored, added).Keys == metric.Keys;
      assert Strip(stored, added) == metric;
    }
    if Strip(stored, added) == metric {
      assert Strip(stored, added).Keys == metric.Keys;
      forall k | k in external.Keys - added.Keys ensures k in metric.Keys {
        assert k in Strip(stored, added).Keys;
      }
    }
    if forall k :: k in added && k in metric ==> metric[k] == external[k] {
      assert Carries(stored, added);
    }
    if Carries(stored, added) {
      forall k | k in added && k in metric ensures metric[k] == external[k] {
        assert Value(stored, k) == added[k];
      }
    }
  }

  lemma SameWithoutExternal(external: LabelSet, ms: seq<Matcher>, metric: Metric)
    requires Names(ms) !! external.Keys
    ensures Matches(ms, AddExternal(external, metric)) <==> Matches(ms, metric)
  {
    forall m | m in ms
      ensures Value(AddExternal(external, metric), m.name) == Value(metric, m.name)
    {
      assert m.name in Names(ms);
    }
  }

  /** When neither metric nor query mentions an external label, the stored metric matches the
      extended query exactly when the metric matches the query, and it comes back unchanged. */
  lemma {:induction false} ReadUndoesWrite(external: LabelSet, ms: seq<Matcher>, metric: Metric)
    requires metric.Keys !! external.Keys && Names(ms) !! external.Keys
    ensures var stored, added := AddExternal(external, metric), Unnamed(external, ms);
            && added == external
            && (Matches(ms, stored) && Carries(stored, added) <==> Matches(ms, metric))
            && Strip(stored, added) == metric
  {
    ReadAfterWrite(external, ms, metric);
    SameWithoutExternal(external, ms, metric);
    assert Unnamed(external, ms).Keys == external.Keys;
    assert Unnamed(external, ms) == external;
  }

  lemma CarriesWhatItHas(external: LabelSet, ms: seq<Matcher>, metric: Metric)
    requires metric.Keys !! external.Keys
    ensures Carries(AddExternal(external, metric), Unnamed(external, ms))
  {
  }

  /** A query that does name external labels: what was written is returned exactly if it matches
      the user's matchers as it was stored, so that the user can ask for another value; and the
      labels the query names stay on it, as the user asked for them. */
  lemma NamedLabelsStay(external: LabelSet, ms: seq<Matcher>, metric: Metric, k: string)
    requires metric.Keys !! external.Keys
    ensures var stored, added := AddExternal(external, metric), Unnamed(external, ms);
            && (Matches(ms, stored) && Carries(stored, added) <==> Matches(ms, stored))
            && (k in Strip(stored, added)
                <==> k in metric || (k in external && exists i :: 0 <= i < |ms| && ms[i].name == k))
            && (k in Strip(stored, added) ==>
                  Strip(stored, added)[k] == if k in metric then metric[k] else external[k])
  {
    CarriesWhatItHas(external, ms, metric);
    UnnamedMeans(external, ms, k);
  }

  /** Asking for a value that an external label does not have finds nothing that was written under
      that label, and asking for the one it has is no restriction. */
  lemma NamedValueDecides(external: LabelSet, ms: seq<Matcher>, metric: Metric, k: string, v: string)
    requires metric.Keys !! external.Keys && k in external
    ensures Matches(ms + [EqualMatcher(k, v)], AddExternal(external, metric))
            <==> Matches(ms, AddExternal(external, metric)) && v == external[k]
  {
    MatchesSnoc(ms, EqualMatcher(k, v), AddExternal(external, metric));
  }

  /** A whole store: the stripped answers are exactly the written metrics the user asked for. */
  lemma ReadReturnsWhatWasAskedFor(external: LabelSet, ms: seq<Matcher>, written: set<Metric>)
    requires Names(ms) !! external.Keys
    requires forall w :: w in written ==> w.Keys !! external.Keys
    ensures var added := Unnamed(external, ms);
            var stored := set w | w in written :: AddExternal(external, w);
            var answers := set s | s in stored && Matches(ms, s) && Carries(s, added) :: Strip(s, added);
            answers == set w | w in written && Matches(ms, w)
  {
    var added := Unnamed(external, ms);
    var stored := set w | w in written :: AddExternal(external, w);
    var answers := set s | s in stored && Matches(ms, s) && Carries(s, added) :: Strip(s, added);
    var asked := set w | w in written && Matches(ms, w);
    forall a | a in answers ensures a in asked {
      var s :| s in stored && Matches(ms, s) && Carries(s, added) && Strip(s, added) == a;
      var w :| w in written && AddExternal(external, w) == s;
      ReadUndoesWrite(external, ms, w);
    }
    forall w | w in asked ensures w in answers {
      ReadUndoesWrite(external, ms, w);
      var s := AddExternal(external, w);
      assert s in stored;
      assert Strip(s, added) == w;
    }
  }

  /** With no empty external value, two different stored metrics that match stay different. */
  lemma StripIsInjective(added: LabelSet, a: Metric, b: Metric)
    requires Carries(a, added) && Carries(b, added) && Strip(a, added) == Strip(b, added)
    requires forall k :: k in added ==> added[k] != ""
    ensures a == b
  {
    forall k ensures k in a <==> k in b {
      if k in added {
        assert Value(a, k) == added[k] && Value(b, k) == added[k];
      } else {
        assert k in a <==> k in Strip(a, added);
        assert k in b <==> k in Strip(b, added);
      }
    }
    assert a.Keys == b.Keys;
    forall k | k in a ensures a[k] == b[k] {
      if k in added {
        assert Value(a, k) == Value(b, k);
      } else {
        assert a[k] == Strip(a, added)[k] && b[k] == Strip(b, added)[k];
      }
    }
  }

  /** An empty external value does merge series: any stored metric that matches has a twin,
      with or without the empty label, that matches too and strips to the same metric. */
  lemma EmptyValueMerges(added: LabelSet, a: Metric, k: string) returns (b: Metric)
    requires Carries(a, added) && k in added && added[k] == ""
    ensures a != b && Carries(b, added) && Strip(a, added) == Strip(b, added)
  {
    if k in a {
      b := a - {k};
    } else {
      b := a[k := ""];
      assert k in b;
    }
    assert Strip(a, added).Keys == Strip(b, added).Keys;
    assert Value(a, k) == "";
    forall n | n in added ensures Value(b, n) == added[n] {
      assert Value(a, n) == added[n];
    }
  }
}
