/** querier.query: local series first, then one goroutine per remote grouping its series by
    fingerprint into one shared map, in whatever order the goroutines happen to run. Each
    update of the map is taken to be atomic. */
module FaninQuery {
  import opened Model
  import opened SampleStream
  import opened MergeIterator

  type Groups = map<nat, MergedSeries>

  datatype Reply = Iterators(its: seq<SeriesIterator>) | Failed

  /** The error of a remote is ignored: it contributes nothing. */
  function Its(r: Reply): seq<SeriesIterator> {
    if r.Iterators? then r.its else []
  }

  function AllIts(remotes: seq<Reply>): seq<seq<SeriesIterator>> {
    seq(|remotes|, i requires 0 <= i < |remotes| => Its(remotes[i]))
  }

  /** A remote that answers contributes its iterators, in their order; one that fails nothing. */
  lemma AllItsMeans(remotes: seq<Reply>)
    ensures |AllIts(remotes)| == |remotes|
    ensures forall k :: 0 <= k < |remotes| ==>
              AllIts(remotes)[k] == match remotes[k] case Iterators(its) => its case Failed => []
  {
  }

  // ----- grouping -----

  function AddRemote(fp: Metric -> nat, m: Groups, it: SeriesIterator): Groups {
    var f := fp(it.metric);
    if f !in m then m[f := MergedSeries(None, [it])]
    else m[f := m[f].(remote := m[f].remote + [it])]
  }

  function AddRemotes(fp: Metric -> nat, m: Groups, its: seq<SeriesIterator>): Groups
    decreases |its|
  {
    if its == [] then m else AddRemotes(fp, AddRemote(fp, m, its[0]), its[1..])
  }

  function AddLocals(fp: Metric -> nat, m: Groups, its: seq<SeriesIterator>): Groups
    decreases |its|
  {
    if its == [] then m
    else AddLocals(fp, m[fp(its[0].metric) := MergedSeries(Some(its[0]), [])], its[1..])
  }

  /** The iterators of one series, in order. */
  function Of(fp: Metric -> nat, its: seq<SeriesIterator>, f: nat): seq<SeriesIterator> {
    if its == [] then []
    else (if fp(its[0].metric) == f then [its[0]] else []) + Of(fp, its[1..], f)
  }

  function RemoteOf(m: Groups, f: nat): seq<SeriesIterator> {
    if f in m then m[f].remote else []
  }

  function LocalOf(m: Groups, f: nat): Option<SeriesIterator> {
    if f in m then m[f].local else None
  }

  lemma {:induction false} AddRemotesAt(fp: Metric -> nat, m: Groups, its: seq<SeriesIterator>, f: nat)
    ensures var r := AddRemotes(fp, m, its);
            && (f in r <==> f in m || Of(fp, its, f) != [])
            && LocalOf(r, f) == LocalOf(m, f)
            && RemoteOf(r, f) == RemoteOf(m, f) + Of(fp, its, f)
    decreases |its|
  {
    if its != [] {
      var next := AddRemote(fp, m, its[0]);
      AddRemotesAt(fp, next, its[1..], f);
      var mine := if fp(its[0].metric) == f then [its[0]] else [];
      assert RemoteOf(next, f) == RemoteOf(m, f) + mine;
      assert (RemoteOf(m, f) + mine) + Of(fp, its[1..], f) == RemoteOf(m, f) + (mine + Of(fp, its[1..], f));
    }
  }

  /** A fingerprint that two local series share keeps the later one. */
  lemma {:induction false} AddLocalsAt(fp: Metric -> nat, m: Groups, its: seq<SeriesIterator>, f: nat)
    ensures var r := AddLocals(fp, m, its);
            var mine := Of(fp, its, f);
            if mine == [] then (f in r <==> f in m) && (f in r ==> r[f] == m[f])
            else f in r && r[f] == MergedSeries(Some(mine[|mine| - 1]), [])
    decreases |its|
  {
    if its != [] {
      var next := m[fp(its[0].metric) := MergedSeries(Some(its[0]), [])];
      AddLocalsAt(fp, next, its[1..], f);
    }
  }

  // ----- schedules -----

  /** The order in which the iterators reach the map when goroutine picks[0] moves first, then
      picks[1], and so on; None unless every goroutine gets exactly to its end. */
  function Deliver(results: seq<seq<SeriesIterator>>, picks: seq<nat>): Option<seq<SeriesIterator>>
    decreases |picks|
  {
    if picks == [] then
      if forall k :: 0 <= k < |results| ==> results[k] == [] then Some([]) else None
    else if picks[0] >= |results| || results[picks[0]] == [] then None
    else
      var k := picks[0];
      match Deliver(results[k := results[k][1..]], picks[1..])
      case None => None
      case Some(rest) => Some([results[k][0]] + rest)
  }

  function Flatten(results: seq<seq<SeriesIterator>>): seq<SeriesIterator> {
    if results == [] then [] else results[0] + Flatten(results[1..])
  }

  lemma TakeFromTail<T>(a: seq<T>, b: seq<T>, rest: seq<T>, x: T)
    requires multiset(b) == multiset{x} + multiset(rest)
    ensures multiset(a + b) == multiset{x} + multiset(a + rest)
  {
    assert multiset(a + b) == multiset(a) + multiset(b);
    assert multiset(a + rest) == multiset(a) + multiset(rest);
  }

  lemma {:induction false} FlattenTake(results: seq<seq<SeriesIterator>>, k: nat)
    requires k < |results| && results[k] != []
    ensures multiset(Flatten(results))
            == multiset{results[k][0]} + multiset(Flatten(results[k := results[k][1..]]))
  {
    var (x, rest) := (results[k][0], results[k][1..]);
    var taken := results[k := rest];
    if k == 0 {
      var tail := Flatten(results[1..]);
      assert Flatten(taken) == rest + tail by { assert taken[1..] == results[1..]; }
      assert Flatten(results) == [x] + (rest + tail) by { assert results[0] == [x] + rest; }
    } else {
      FlattenTake(results[1..], k - 1);
      assert taken[1..] == results[1..][k - 1 := rest];
      TakeFromTail(results[0], Flatten(results[1..]), Flatten(taken[1..]), x);
    }
  }

  lemma {:induction false} FlattenEmpty(results: seq<seq<SeriesIterator>>)
    requires forall k :: 0 <= k < |results| ==> results[k] == []
    ensures Flatten(results) == []
  {
    if results != [] {
      FlattenEmpty(results[1..]);
    }
  }

  /** Every schedule delivers every iterator exactly once. */
  lemma {:induction false} DeliverAll(results: seq<seq<SeriesIterator>>, picks: seq<nat>)
    requires Deliver(results, picks).Some?
    ensures multiset(Deliver(results, picks).value) == multiset(Flatten(results))
    decreases |picks|
  {
    if picks == [] {
      FlattenEmpty(results);
    } else {
      var k := picks[0];
      DeliverAll(results[k := results[k][1..]], picks[1..]);
      FlattenTake(results, k);
    }
  }

  lemma {:induction false} OfCount(fp: Metric -> nat, its: seq<SeriesIterator>, f: nat, x: SeriesIterator)
    ensures multiset(Of(fp, its, f))[x] == if fp(x.metric) == f then multiset(its)[x] else 0
  {
    if its != [] {
      OfCount(fp, its[1..], f, x);
      assert its == [its[0]] + its[1..];
    }
  }

  lemma OfPermutes(fp: Metric -> nat, a: seq<SeriesIterator>, b: seq<SeriesIterator>, f: nat)
    requires multiset(a) == multiset(b)
    ensures multiset(Of(fp, a, f)) == multiset(Of(fp, b, f))
  {
    forall x ensures multiset(Of(fp, a, f))[x] == multiset(Of(fp, b, f))[x] {
      OfCount(fp, a, f, x);
      OfCount(fp, b, f, x);
    }
  }

  /** The map after a schedule: its keys are the fingerprints of all series, every entry has
      a local series or at least one remote one, and the remote ones are, in some order, all the
      remote series with that fingerprint. */
  function Grouped(fp: Metric -> nat, locals: seq<SeriesIterator>, delivered: seq<SeriesIterator>): Groups {
    AddRemotes(fp, AddLocals(fp, map[], locals), delivered)
  }

  lemma GroupsComplete(fp: Metric -> nat, locals: seq<SeriesIterator>, results: seq<seq<SeriesIterator>>,
                       picks: seq<nat>, f: nat)
    requires Deliver(results, picks).Some?
    ensures var m := Grouped(fp, locals, Deliver(results, picks).value);
            && (f in m <==> Of(fp, locals, f) != [] || Of(fp, Flatten(results), f) != [])
            && (f in m ==> (m[f].local.Some? || m[f].remote != []))
            && (f in m ==> (m[f].local.Some? <==> Of(fp, locals, f) != []))
            && multiset(RemoteOf(m, f)) == multiset(Of(fp, Flatten(results), f))
  {
    var delivered := Deliver(results, picks).value;
    DeliverAll(results, picks);
    OfPermutes(fp, delivered, Flatten(results), f);
    AddLocalsAt(fp, map[], locals, f);
    AddRemotesAt(fp, AddLocals(fp, map[], locals), delivered, f);
    EmptyIffEmpty(Of(fp, delivered, f), Of(fp, Flatten(results), f));
  }

  lemma EmptyIffEmpty(a: seq<SeriesIterator>, b: seq<SeriesIterator>)
    requires multiset(a) == multiset(b)
    ensures a == [] <==> b == []
  {
    assert |multiset(a)| == |a| && |multiset(b)| == |b|;
  }

  /** The metric of an entry; None stands for the index panic of an entry without any series. */
  function SeriesMetric(mit: MergedSeries): Option<Metric> {
    if mit.local.Some? then Some(mit.local.value.metric)
    else if mit.remote != [] then Some(mit.remote[0].metric)
    else None
  }

  /** Asking an entry for its metric never panics, and the metric belongs under its key. */
  lemma MetricIsSafe(fp: Metric -> nat, locals: seq<SeriesIterator>, results: seq<seq<SeriesIterator>>,
                     picks: seq<nat>, f: nat)
    requires Deliver(results, picks).Some?
    requires f in Grouped(fp, locals, Deliver(results, picks).value)
    ensures var metric := SeriesMetric(Grouped(fp, locals, Deliver(results, picks).value)[f]);
            metric.Some? && fp(metric.value) == f
    ensures var mit := Grouped(fp, locals, Deliver(results, picks).value)[f];
            var it := if mit.local.Some? then mit.local.value else if mit.remote != [] then mit.remote[0]
                      else SeriesIterator(map[], []);
            SeriesMetric(mit) == Some(it.metric)
  {
    var delivered := Deliver(results, picks).value;
    GroupsComplete(fp, locals, results, picks, f);
    AddLocalsAt(fp, map[], locals, f);
    AddRemotesAt(fp, AddLocals(fp, map[], locals), delivered, f);
    OfMembers(fp, locals, f);
    OfMembers(fp, delivered, f);
    var mit := Grouped(fp, locals, delivered)[f];
    assert RemoteOf(Grouped(fp, locals, delivered), f) == Of(fp, delivered, f);
    if mit.local.None? {
      assert mit.remote[0] in Of(fp, delivered, f);
    } else {
      var mine := Of(fp, locals, f);
      assert mine[|mine| - 1] in mine;
    }
  }

  lemma {:induction false} OfMembers(fp: Metric -> nat, its: seq<SeriesIterator>, f: nat)
    ensures forall x :: x in Of(fp, its, f) ==> x in its && fp(x.metric) == f
    ensures forall x :: x in its && fp(x.metric) == f ==> x in Of(fp, its, f)
  {
    if its != [] {
      OfMembers(fp, its[1..], f);
      assert its == [its[0]] + its[1..];
    }
  }

  /** The local series that ends up in an entry: the last one with its fingerprint. */
  function LocalSeries(fp: Metric -> nat, locals: seq<SeriesIterator>, f: nat): Option<SeriesIterator> {
    var mine := Of(fp, locals, f);
    if mine == [] then None else Some(mine[|mine| - 1])
  }

  /** All series are streams, as the iterators promise. */
  ghost predicate Streams(locals: seq<SeriesIterator>, results: seq<seq<SeriesIterator>>) {
    forall x :: x in locals + Flatten(results) ==> IsStream(x.values)
  }

  lemma EntryParts(fp: Metric -> nat, locals: seq<SeriesIterator>, delivered: seq<SeriesIterator>, f: nat)
    ensures var m := Grouped(fp, locals, delivered);
            f in m ==> m[f] == MergedSeries(LocalSeries(fp, locals, f), Of(fp, delivered, f))
  {
    AddLocalsAt(fp, map[], locals, f);
    AddRemotesAt(fp, AddLocals(fp, map[], locals), delivered, f);
  }

  /** An entry's local series is the same in every schedule, its remote ones stand in the order
      of delivery, and all of them are series that some querier returned. */
  lemma GroupEntry(fp: Metric -> nat, locals: seq<SeriesIterator>, results: seq<seq<SeriesIterator>>,
                   picks: seq<nat>, f: nat)
    requires Deliver(results, picks).Some? && Streams(locals, results)
    ensures var delivered := Deliver(results, picks).value;
            var m := Grouped(fp, locals, delivered);
            f in m ==> Valid(m[f]) && m[f] == MergedSeries(LocalSeries(fp, locals, f), Of(fp, delivered, f))
  {
    var delivered := Deliver(results, picks).value;
    EntryParts(fp, locals, delivered, f);
    DeliverAll(results, picks);
    SameMembers(delivered, Flatten(results));
    OfMembers(fp, locals, f);
    OfMembers(fp, delivered, f);
    var rs := Of(fp, delivered, f);
    forall k | 0 <= k < |rs| ensures IsStream(rs[k].values) {
      assert rs[k] in rs;
    }
    var mine := Of(fp, locals, f);
    if mine != [] {
      assert mine[|mine| - 1] in mine;
    }
  }

  lemma SameMembers(a: seq<SeriesIterator>, b: seq<SeriesIterator>)
    requires multiset(a) == multiset(b)
    ensures forall x :: x in a <==> x in b
  {
    assert forall x :: x in a <==> x in multiset(a);
    assert forall x :: x in b <==> x in multiset(b);
  }

  // ----- the groups of a query -----

  lemma {:induction false} FlattenMembers(results: seq<seq<SeriesIterator>>, x: SeriesIterator)
    ensures x in Flatten(results) <==> exists k :: 0 <= k < |results| && x in results[k]
  {
    if results != [] {
      FlattenMembers(results[1..], x);
      assert forall k :: 0 < k < |results| ==> results[k] == results[1..][k - 1];
      assert results[0] in results;
    }
  }

  /** Some remote answered with this series. */
  ghost predicate Answered(remotes: seq<Reply>, x: SeriesIterator) {
    exists k :: 0 <= k < |remotes| && remotes[k].Iterators? && x in remotes[k].its
  }

  lemma FlattenAnswers(remotes: seq<Reply>, x: SeriesIterator)
    ensures x in Flatten(AllIts(remotes)) <==> Answered(remotes, x)
  {
    FlattenMembers(AllIts(remotes), x);
    if Answered(remotes, x) {
      var k :| 0 <= k < |remotes| && remotes[k].Iterators? && x in remotes[k].its;
      assert x in AllIts(remotes)[k];
    }
  }

  /** The last local series with this fingerprint, and there is one. */
  ghost predicate IsLastLocal(fp: Metric -> nat, locals: seq<SeriesIterator>, f: nat, x: SeriesIterator) {
    exists i :: 0 <= i < |locals| && locals[i] == x && fp(x.metric) == f
                && forall j :: i < j < |locals| ==> fp(locals[j].metric) != f
  }

  lemma {:induction false} LastOf(fp: Metric -> nat, its: seq<SeriesIterator>, f: nat)
    ensures Of(fp, its, f) != [] ==> IsLastLocal(fp, its, f, Of(fp, its, f)[|Of(fp, its, f)| - 1])
  {
    if its != [] && Of(fp, its, f) != [] {
      var rest := Of(fp, its[1..], f);
      LastOf(fp, its[1..], f);
      OfMembers(fp, its[1..], f);
      assert forall j :: 0 < j < |its| ==> its[j] == its[1..][j - 1];
      if rest != [] {
        var i :| 0 <= i < |its[1..]| && its[1..][i] == rest[|rest| - 1]
                 && forall j :: i < j < |its[1..]| ==> fp(its[1..][j].metric) != f;
        assert its[i + 1] == rest[|rest| - 1];
      } else {
        assert its[0] == Of(fp, its, f)[|Of(fp, its, f)| - 1];
        forall j | 0 < j < |its| ensures fp(its[j].metric) != f {
          assert its[j] == its[1..][j - 1] && its[1..][j - 1] in its[1..];
        }
      }
    }
  }

  /** In every schedule: a series has an entry exactly if the local querier or some remote that
      answered has it; its local part is the last local series with that fingerprint; and its
      remote part has exactly the series with that fingerprint that remotes answered with. */
  lemma QueryEntries(fp: Metric -> nat, locals: seq<SeriesIterator>, remotes: seq<Reply>, picks: seq<nat>, f: nat)
    requires Deliver(AllIts(remotes), picks).Some?
    ensures var m := Grouped(fp, locals, Deliver(AllIts(remotes), picks).value);
            && (f in m <==> (exists x :: x in locals && fp(x.metric) == f)
                            || exists x :: Answered(remotes, x) && fp(x.metric) == f)
            && (f in m ==>
                  && (if exists x :: x in locals && fp(x.metric) == f
                      then m[f].local.Some? && IsLastLocal(fp, locals, f, m[f].local.value)
                      else m[f].local == None)
                  && forall x :: x in m[f].remote <==> Answered(remotes, x) && fp(x.metric) == f)
  {
    var all := AllIts(remotes);
    var delivered := Deliver(all, picks).value;
    EntryParts(fp, locals, delivered, f);
    GroupsComplete(fp, locals, all, picks, f);
    DeliverAll(all, picks);
    SameMembers(delivered, Flatten(all));
    OfMembers(fp, locals, f);
    OfMembers(fp, delivered, f);
    OfMembers(fp, Flatten(all), f);
    LastOf(fp, locals, f);
    forall x ensures x in Flatten(all) <==> Answered(remotes, x) {
      FlattenAnswers(remotes, x);
    }
    NonEmptyHas(Of(fp, locals, f));
    NonEmptyHas(Of(fp, Flatten(all), f));
  }

  lemma NonEmptyHas(s: seq<SeriesIterator>)
    ensures s != [] <==> exists x :: x in s
  {
    if s != [] {
      assert s[0] in s;
    }
  }

  // ----- the code -----

  datatype QueryResult = QueryError | LocalOnly(its: seq<SeriesIterator>) | Merged(groups: Groups)

  class Querier {
    const fingerprint: Metric -> nat
    var fpToIt: Groups

    constructor (fingerprint: Metric -> nat)
      ensures this.fingerprint == fingerprint && fpToIt == map[]
    {
      this.fingerprint, fpToIt := fingerprint, map[];
    }

    /** One iteration of mergeIterators. */
    method MergeOne(it: SeriesIterator)
      modifies this
      ensures fpToIt == AddRemote(fingerprint, old(fpToIt), it)
    {
      var fp := fingerprint(it.metric);
      if fp !in fpToIt {
        fpToIt := fpToIt[fp := MergedSeries(None, [it])];
      } else {
        fpToIt := fpToIt[fp := MergedSeries(fpToIt[fp].local, fpToIt[fp].remote + [it])];
      }
    }

    /** mergeIterators run by itself. */
    method MergeIterators(its: seq<SeriesIterator>)
      modifies this
      ensures fpToIt == AddRemotes(fingerprint, old(fpToIt), its)
    {
      assert its[0..] == its;
      for i := 0 to |its|
        invariant AddRemotes(fingerprint, fpToIt, its[i..]) == AddRemotes(fingerprint, old(fpToIt), its)
      {
        assert its[i..][1..] == its[i + 1..];
        MergeOne(its[i]);
      }
    }

    /** A failing local querier fails the query; without remotes, or when only local data is
        wanted, the local iterators come back as they are; else the groups. `picks` is the
        schedule of the remotes' goroutines. */
    method Query(local: Reply, remotes: seq<Reply>, localOnly: bool, picks: seq<nat>) returns (r: QueryResult)
      requires Deliver(AllIts(remotes), picks).Some?
      modifies this
      ensures r == if local.Failed? then QueryError
                   else if remotes == [] || localOnly then LocalOnly(local.its)
                   else Merged(Grouped(fingerprint, local.its, Deliver(AllIts(remotes), picks).value))
    {
      if local.Failed? {
        return QueryError;
      }
      if |remotes| == 0 || localOnly {
        return LocalOnly(local.its);
      }
      fpToIt := map[];
      var its := local.its;
      assert its[0..] == its;
      for i := 0 to |its|
        invariant AddLocals(fingerprint, fpToIt, its[i..]) == AddLocals(fingerprint, map[], its)
      {
        assert its[i..][1..] == its[i + 1..];
        fpToIt := fpToIt[fingerprint(its[i].metric) := MergedSeries(Some(its[i]), [])];
      }
      ghost var grouped := fpToIt;
      var left := AllIts(remotes);
      ghost var all := Deliver(left, picks).value;
      assert picks[0..] == picks;
      for i := 0 to |picks|
        invariant Deliver(left, picks[i..]).Some?
        invariant AddRemotes(fingerprint, fpToIt, Deliver(left, picks[i..]).value)
                  == AddRemotes(fingerprint, grouped, all)
      {
        var k := picks[i];
        ghost var before := Deliver(left, picks[i..]).value;
        assert picks[i..][1..] == picks[i + 1..];
        MergeOne(left[k][0]);
        left := left[k := left[k][1..]];
        assert before[1..] == Deliver(left, picks[i + 1..]).value;
      }
      return Merged(fpToIt);
    }
  }
}
