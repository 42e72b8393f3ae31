/** Exactly when the answer to a query does not depend on how the remotes' goroutines interleave. */
module ScheduleIndependence {
  import opened Model
  import opened SampleStream
  import opened MergeSamples
  import opened MergeIterator
  import opened ReadPaths
  import opened FaninQuery

  // ----- what a schedule can take -----

  /** The sample of series f that remote k has at time t: of its own series with that
      fingerprint, the first that has one. */
  function RemoteAt(fp: Metric -> nat, results: seq<seq<SeriesIterator>>, k: nat, f: nat, t: int): Option<SamplePair>
    requires k < |results|
  {
    AtRemotes(Of(fp, results[k], f), t)
  }

  /** All remotes that have a sample of series f at time t have the same one. */
  ghost predicate OneSample(fp: Metric -> nat, results: seq<seq<SeriesIterator>>, f: nat, t: int) {
    forall j, k :: 0 <= j < |results| && 0 <= k < |results|
                   && RemoteAt(fp, results, j, f, t).Some? && RemoteAt(fp, results, k, f, t).Some?
                   ==> RemoteAt(fp, results, j, f, t) == RemoteAt(fp, results, k, f, t)
  }

  lemma OfFirst(fp: Metric -> nat, its: seq<SeriesIterator>, f: nat, t: int)
    requires its != []
    ensures AtRemotes(Of(fp, its, f), t)
            == if fp(its[0].metric) == f && At(its[0].values, t).Some? then At(its[0].values, t)
               else AtRemotes(Of(fp, its[1..], f), t)
  {
    if fp(its[0].metric) == f {
      assert Of(fp, its, f)[1..] == Of(fp, its[1..], f);
    } else {
      assert Of(fp, its, f) == Of(fp, its[1..], f);
    }
  }

  /** A schedule takes each sample from some remote that has one, if there is any. */
  lemma {:induction false} DeliveredAt(fp: Metric -> nat, results: seq<seq<SeriesIterator>>, picks: seq<nat>,
                                       f: nat, t: int)
    requires Deliver(results, picks).Some?
    ensures var d := AtRemotes(Of(fp, Deliver(results, picks).value, f), t);
            if d.Some? then exists k :: 0 <= k < |results| && RemoteAt(fp, results, k, f, t) == d
            else forall k :: 0 <= k < |results| ==> RemoteAt(fp, results, k, f, t).None?
    decreases |picks|
  {
    if picks != [] {
      var i := picks[0];
      var after := results[i := results[i][1..]];
      DeliveredAt(fp, after, picks[1..], f, t);
      var x := results[i][0];
      var rest := Deliver(after, picks[1..]).value;
      var delivered := Deliver(results, picks).value;
      assert delivered[0] == x && delivered[1..] == rest;
      OfFirst(fp, delivered, f, t);
      OfFirst(fp, results[i], f, t);
      if fp(x.metric) == f && At(x.values, t).Some? {
        assert RemoteAt(fp, results, i, f, t) == At(x.values, t);
      } else {
        forall k | 0 <= k < |results| ensures RemoteAt(fp, results, k, f, t) == RemoteAt(fp, after, k, f, t) {
        }
      }
    }
  }

  lemma SameDelivered(fp: Metric -> nat, results: seq<seq<SeriesIterator>>, picks: seq<nat>, picks': seq<nat>,
                      f: nat, t: int)
    requires Deliver(results, picks).Some? && Deliver(results, picks').Some? && OneSample(fp, results, f, t)
    ensures AtRemotes(Of(fp, Deliver(results, picks).value, f), t)
            == AtRemotes(Of(fp, Deliver(results, picks').value, f), t)
  {
    DeliveredAt(fp, results, picks, f, t);
    DeliveredAt(fp, results, picks', f, t);
  }

  function Size(results: seq<seq<SeriesIterator>>): nat {
    if results == [] then 0 else |results[0]| + Size(results[1..])
  }

  lemma {:induction false} SizeTake(results: seq<seq<SeriesIterator>>, k: nat)
    requires k < |results| && results[k] != []
    ensures Size(results[k := results[k][1..]]) < Size(results)
  {
    var taken := results[k := results[k][1..]];
    if k == 0 {
      assert taken[1..] == results[1..];
    } else {
      SizeTake(results[1..], k - 1);
      assert taken[1..] == results[1..][k - 1 := results[k][1..]];
    }
  }

  lemma DeliverStep(results: seq<seq<SeriesIterator>>, k: nat, picks: seq<nat>, rest: seq<SeriesIterator>)
    requires k < |results| && results[k] != []
    requires Deliver(results[k := results[k][1..]], picks) == Some(rest)
    ensures Deliver(results, [k] + picks) == Some([results[k][0]] + rest)
  {
    assert ([k] + picks)[1..] == picks;
  }

  /** There is a schedule in which goroutine k runs to its end before any other moves. */
  lemma {:induction false} RunFirst(results: seq<seq<SeriesIterator>>, k: nat) returns (picks: seq<nat>)
    requires k < |results|
    ensures Deliver(results, picks).Some? && results[k] <= Deliver(results, picks).value
    decreases Size(results)
  {
    if i :| 0 <= i < |results| && results[i] != [] && (i == k || results[k] == []) {
      var after := results[i := results[i][1..]];
      SizeTake(results, i);
      var rest := RunFirst(after, k);
      picks := [i] + rest;
      DeliverStep(results, i, rest, Deliver(after, rest).value);
    } else {
      picks := [];
    }
  }

  lemma {:induction false} OfConcat(fp: Metric -> nat, a: seq<SeriesIterator>, b: seq<SeriesIterator>, f: nat)
    ensures Of(fp, a + b, f) == Of(fp, a, f) + Of(fp, b, f)
  {
    if a == [] {
      assert a + b == b;
    } else {
      OfConcat(fp, a[1..], b, f);
      assert (a + b)[0] == a[0] && (a + b)[1..] == a[1..] + b;
      Regroup(if fp(a[0].metric) == f then [a[0]] else [], Of(fp, a[1..], f), Of(fp, b, f));
    }
  }

  lemma {:induction false} AtRemotesPrefix(a: seq<SeriesIterator>, b: seq<SeriesIterator>, t: int)
    requires AtRemotes(a, t).Some?
    ensures AtRemotes(a + b, t) == AtRemotes(a, t)
  {
    assert (a + b)[0] == a[0] && (a + b)[1..] == a[1..] + b;
    if At(a[0].values, t).None? {
      AtRemotesPrefix(a[1..], b, t);
    }
  }

  /** Any remote that has a sample can be the one it is taken from. */
  lemma CanBeTaken(fp: Metric -> nat, results: seq<seq<SeriesIterator>>, k: nat, f: nat, t: int)
    returns (picks: seq<nat>)
    requires k < |results| && RemoteAt(fp, results, k, f, t).Some?
    ensures Deliver(results, picks).Some?
    ensures AtRemotes(Of(fp, Deliver(results, picks).value, f), t) == RemoteAt(fp, results, k, f, t)
  {
    picks := RunFirst(results, k);
    var delivered := Deliver(results, picks).value;
    var rest := delivered[|results[k]|..];
    assert delivered == results[k] + rest;
    OfConcat(fp, results[k], rest, f);
    AtRemotesPrefix(Of(fp, results[k], f), Of(fp, rest, f), t);
  }

  // ----- ranges -----

  /** The answer to a range query for series f; None if there is no such series. */
  function RangeOf(fp: Metric -> nat, locals: seq<SeriesIterator>, results: seq<seq<SeriesIterator>>,
                   picks: seq<nat>, f: nat, lo: int, hi: int): Option<seq<SamplePair>>
    requires Deliver(results, picks).Some?
  {
    var m := Grouped(fp, locals, Deliver(results, picks).value);
    if f in m then Some(Answer(m[f], lo, hi)) else None
  }

  ghost predicate RangesIgnoreSchedule(fp: Metric -> nat, locals: seq<SeriesIterator>,
                                       results: seq<seq<SeriesIterator>>, f: nat) {
    forall picks, picks', lo, hi | Deliver(results, picks).Some? && Deliver(results, picks').Some? ::
      RangeOf(fp, locals, results, picks, f, lo, hi) == RangeOf(fp, locals, results, picks', f, lo, hi)
  }

  function LocalAt(fp: Metric -> nat, locals: seq<SeriesIterator>, f: nat): seq<SamplePair> {
    LocalValues(MergedSeries(LocalSeries(fp, locals, f), []))
  }

  lemma SameKeys(fp: Metric -> nat, locals: seq<SeriesIterator>, results: seq<seq<SeriesIterator>>,
                 picks: seq<nat>, picks': seq<nat>, f: nat)
    requires Deliver(results, picks).Some? && Deliver(results, picks').Some?
    ensures f in Grouped(fp, locals, Deliver(results, picks).value)
            <==> f in Grouped(fp, locals, Deliver(results, picks').value)
  {
    GroupsComplete(fp, locals, results, picks, f);
    GroupsComplete(fp, locals, results, picks', f);
  }

  lemma SameRange(x: MergedSeries, y: MergedSeries, lo: int, hi: int)
    requires Valid(x) && Valid(y) && x.local == y.local
    requires forall t | t < LATEST && At(LocalValues(x), t).None? :: AtRemotes(x.remote, t) == AtRemotes(y.remote, t)
    ensures Answer(x, lo, hi) == Answer(y, lo, hi)
  {
    assert RemoteEnd(x, lo, hi) == RemoteEnd(y, lo, hi);
    forall t ensures At(Answer(x, lo, hi), t) == At(Answer(y, lo, hi), t) {
      AnswerMap(x, lo, hi, t);
      AnswerMap(y, lo, hi, t);
      RemoteEndEarly(x, lo, hi);
    }
    AnswerMap(x, lo, hi, 0);
    AnswerMap(y, lo, hi, 0);
    SortedExtensional(Answer(x, lo, hi), Answer(y, lo, hi));
  }

  lemma RemoteEndEarly(mit: MergedSeries, lo: int, hi: int)
    requires Valid(mit)
    ensures RemoteEnd(mit, lo, hi) < LATEST
  {
    var own := InInterval(LocalValues(mit), lo, hi);
    if own != [] {
      IntervalMembers(LocalValues(mit), lo, hi, own[0]);
    }
  }

  lemma {:induction false} NothingThere(s: seq<SamplePair>, t: int)
    requires At(s, t).None?
    ensures InInterval(s, t, t) == []
  {
    if s != [] {
      NothingThere(s[1..], t);
    }
  }

  /** The range of a single time without a local sample is the remotes' sample. */
  lemma PointRange(mit: MergedSeries, t: int)
    requires Valid(mit) && t < LATEST && At(LocalValues(mit), t).None?
    ensures At(Answer(mit, t, t), t) == AtRemotes(mit.remote, t)
  {
    NothingThere(LocalValues(mit), t);
    AnswerMap(mit, t, t, t);
  }

  /** A range can show which remote a sample without a local one was taken from. */
  lemma RangeShows(fp: Metric -> nat, locals: seq<SeriesIterator>, results: seq<seq<SeriesIterator>>,
                   k: nat, f: nat, t: int) returns (picks: seq<nat>)
    requires Streams(locals, results) && t < LATEST && At(LocalAt(fp, locals, f), t).None?
    requires k < |results| && RemoteAt(fp, results, k, f, t).Some?
    ensures Deliver(results, picks).Some? && RangeOf(fp, locals, results, picks, f, t, t).Some?
    ensures At(RangeOf(fp, locals, results, picks, f, t, t).value, t) == RemoteAt(fp, results, k, f, t)
  {
    picks := CanBeTaken(fp, results, k, f, t);
    IsKey(fp, locals, results, picks, f);
    GroupEntry(fp, locals, results, picks, f);
    PointRange(Grouped(fp, locals, Deliver(results, picks).value)[f], t);
  }

  lemma IsKey(fp: Metric -> nat, locals: seq<SeriesIterator>, results: seq<seq<SeriesIterator>>,
              picks: seq<nat>, f: nat)
    requires Deliver(results, picks).Some? && Of(fp, Deliver(results, picks).value, f) != []
    ensures f in Grouped(fp, locals, Deliver(results, picks).value)
  {
    AddRemotesAt(fp, AddLocals(fp, map[], locals), Deliver(results, picks).value, f);
  }

  /** The ranges of series f are the same for every schedule of the remotes' goroutines exactly
      if, wherever there is no local sample before the latest time, all remotes that have a
      sample have the same one. */
  lemma RangesIgnoreScheduleIff(fp: Metric -> nat, locals: seq<SeriesIterator>,
                                results: seq<seq<SeriesIterator>>, f: nat)
    requires Streams(locals, results)
    ensures RangesIgnoreSchedule(fp, locals, results, f)
            <==> forall t | t < LATEST && At(LocalAt(fp, locals, f), t).None? :: OneSample(fp, results, f, t)
  {
    if RangesIgnoreSchedule(fp, locals, results, f) {
      forall t, j, k | t < LATEST && At(LocalAt(fp, locals, f), t).None?
                       && 0 <= j < |results| && 0 <= k < |results|
                       && RemoteAt(fp, results, j, f, t).Some? && RemoteAt(fp, results, k, f, t).Some?
        ensures RemoteAt(fp, results, j, f, t) == RemoteAt(fp, results, k, f, t)
      {
        var picks := RangeShows(fp, locals, results, j, f, t);
        var picks' := RangeShows(fp, locals, results, k, f, t);
        assert RangeOf(fp, locals, results, picks, f, t, t) == RangeOf(fp, locals, results, picks', f, t, t);
      }
    }
    if forall t | t < LATEST && At(LocalAt(fp, locals, f), t).None? :: OneSample(fp, results, f, t) {
      forall picks, picks', lo, hi | Deliver(results, picks).Some? && Deliver(results, picks').Some?
        ensures RangeOf(fp, locals, results, picks, f, lo, hi) == RangeOf(fp, locals, results, picks', f, lo, hi)
      {
        SameRanges(fp, locals, results, picks, picks', f, lo, hi);
      }
    }
  }

  lemma SameRanges(fp: Metric -> nat, locals: seq<SeriesIterator>, results: seq<seq<SeriesIterator>>,
                   picks: seq<nat>, picks': seq<nat>, f: nat, lo: int, hi: int)
    requires Streams(locals, results) && Deliver(results, picks).Some? && Deliver(results, picks').Some?
    requires forall t | t < LATEST && At(LocalAt(fp, locals, f), t).None? :: OneSample(fp, results, f, t)
    ensures RangeOf(fp, locals, results, picks, f, lo, hi) == RangeOf(fp, locals, results, picks', f, lo, hi)
  {
    SameKeys(fp, locals, results, picks, picks', f);
    GroupEntry(fp, locals, results, picks, f);
    GroupEntry(fp, locals, results, picks', f);
    var m := Grouped(fp, locals, Deliver(results, picks).value);
    var m' := Grouped(fp, locals, Deliver(results, picks').value);
    if f in m {
      forall t | t < LATEST && At(LocalValues(m[f]), t).None?
        ensures AtRemotes(m[f].remote, t) == AtRemotes(m'[f].remote, t)
      {
        SameDelivered(fp, results, picks, picks', f, t);
      }
      SameRange(m[f], m'[f], lo, hi);
    }
  }

  // ----- values -----

  function ValueOf(fp: Metric -> nat, locals: seq<SeriesIterator>, results: seq<seq<SeriesIterator>>,
                   picks: seq<nat>, f: nat, t: int): Option<SamplePair>
    requires Deliver(results, picks).Some?
  {
    var m := Grouped(fp, locals, Deliver(results, picks).value);
    if f in m then Some(ValueAt(m[f], t)) else None
  }

  ghost predicate ValuesIgnoreSchedule(fp: Metric -> nat, locals: seq<SeriesIterator>,
                                       results: seq<seq<SeriesIterator>>, f: nat) {
    forall picks, picks', t | Deliver(results, picks).Some? && Deliver(results, picks').Some? ::
      ValueOf(fp, locals, results, picks, f, t) == ValueOf(fp, locals, results, picks', f, t)
  }

  /** The newest local sample at t is the sentinel, so the remotes are asked. */
  predicate AsksRemotes(fp: Metric -> nat, locals: seq<SeriesIterator>, f: nat, t: int) {
    Newest(LocalAt(fp, locals, f), t) == ZERO_SAMPLE_PAIR
  }

  /** The newest of the merged remotes, seen from the newest time down to the earliest. */
  lemma SameLast(a: seq<SamplePair>, b: seq<SamplePair>)
    requires Sorted(a) && Sorted(b) && forall u | u > EARLIEST :: At(a, u) == At(b, u)
    ensures LastOrZero(a).ts > EARLIEST ==> LastOrZero(a) == LastOrZero(b)
    ensures LastOrZero(a).ts > EARLIEST <==> LastOrZero(b).ts > EARLIEST
  {
    LastCarries(a, b);
    LastCarries(b, a);
    if LastOrZero(a).ts > EARLIEST {
      AtFinds(a, LastOrZero(a).ts, |a| - 1);
      AtFinds(b, LastOrZero(b).ts, |b| - 1);
    }
  }

  lemma LastCarries(a: seq<SamplePair>, b: seq<SamplePair>)
    requires Sorted(a) && Sorted(b) && forall u | u > EARLIEST :: At(a, u) == At(b, u)
    ensures LastOrZero(a).ts > EARLIEST ==> b != [] && LastOrZero(b).ts >= LastOrZero(a).ts
  {
    var last := LastOrZero(a);
    if last.ts > EARLIEST {
      AtFinds(a, last.ts, |a| - 1);
      AtMember(b, last.ts);
      var i :| 0 <= i < |b| && b[i].ts == last.ts;
      UpToLast(b, i);
    }
  }

  lemma SameBest(a: seq<SeriesIterator>, b: seq<SeriesIterator>, t: int)
    requires ValidRemotes(a) && ValidRemotes(b)
    requires forall u | EARLIEST < u <= t :: AtRemotes(a, u) == AtRemotes(b, u)
    ensures BestRemote(a, t) == BestRemote(b, t)
  {
    var x, y := MergeAll([], a, EARLIEST, t), MergeAll([], b, EARLIEST, t);
    BestIsLast(a, t);
    BestIsLast(b, t);
    forall u | u > EARLIEST ensures At(x, u) == At(y, u) {
      MergeAllMap([], a, EARLIEST, t, u);
      MergeAllMap([], b, EARLIEST, t, u);
    }
    SameLast(x, y);
  }

  /** A remote sample at the very time asked for is the newest. */
  lemma BestIsThere(rs: seq<SeriesIterator>, t: int)
    requires ValidRemotes(rs) && t > EARLIEST && AtRemotes(rs, t).Some?
    ensures BestRemote(rs, t) == AtRemotes(rs, t).value
  {
    var all := MergeAll([], rs, EARLIEST, t);
    BestIsLast(rs, t);
    BestBounds(rs, t);
    MergeAllMap([], rs, EARLIEST, t, t);
    AtMember(all, t);
    var i :| 0 <= i < |all| && all[i].ts == t;
    UpToLast(all, i);
    AtFinds(all, t, |all| - 1);
  }

  /** Going back in time, a series whose newest sample is the sentinel stays there. */
  lemma SentinelBefore(s: seq<SamplePair>, u: int, t: int)
    requires IsStream(s) && EARLIEST < u <= t && Newest(s, t) == ZERO_SAMPLE_PAIR
    ensures Newest(s, u) == ZERO_SAMPLE_PAIR
  {
    var early, all := InInterval(s, EARLIEST, u), InInterval(s, EARLIEST, t);
    if early != [] {
      var p := LastOrZero(early);
      IntervalMembers(s, EARLIEST, u, p);
      IntervalMembers(s, EARLIEST, t, p);
      IntervalSorted(s, EARLIEST, t);
      var i :| 0 <= i < |all| && all[i] == p;
      UpToLast(all, i);
      assert i == |all| - 1;
    }
  }

  lemma ValueShows(fp: Metric -> nat, locals: seq<SeriesIterator>, results: seq<seq<SeriesIterator>>,
                   k: nat, f: nat, t: int) returns (picks: seq<nat>)
    requires Streams(locals, results) && t > EARLIEST && AsksRemotes(fp, locals, f, t)
    requires k < |results| && RemoteAt(fp, results, k, f, t).Some?
    ensures Deliver(results, picks).Some?
    ensures ValueOf(fp, locals, results, picks, f, t) == RemoteAt(fp, results, k, f, t)
  {
    picks := CanBeTaken(fp, results, k, f, t);
    IsKey(fp, locals, results, picks, f);
    GroupEntry(fp, locals, results, picks, f);
    BestIsThere(Of(fp, Deliver(results, picks).value, f), t);
  }

  /** The value of series f at any time is the same for every schedule exactly if, at each time
      after the earliest at which the remotes are asked, all remotes that have a sample have
      the same one. */
  lemma ValuesIgnoreScheduleIff(fp: Metric -> nat, locals: seq<SeriesIterator>,
                                results: seq<seq<SeriesIterator>>, f: nat)
    requires Streams(locals, results)
    ensures ValuesIgnoreSchedule(fp, locals, results, f)
            <==> forall t | t > EARLIEST && AsksRemotes(fp, locals, f, t) :: OneSample(fp, results, f, t)
  {
    if ValuesIgnoreSchedule(fp, locals, results, f) {
      forall t, j, k | t > EARLIEST && AsksRemotes(fp, locals, f, t)
                       && 0 <= j < |results| && 0 <= k < |results|
                       && RemoteAt(fp, results, j, f, t).Some? && RemoteAt(fp, results, k, f, t).Some?
        ensures RemoteAt(fp, results, j, f, t) == RemoteAt(fp, results, k, f, t)
      {
        var picks := ValueShows(fp, locals, results, j, f, t);
        var picks' := ValueShows(fp, locals, results, k, f, t);
        assert ValueOf(fp, locals, results, picks, f, t) == ValueOf(fp, locals, results, picks', f, t);
      }
    }
    if forall t | t > EARLIEST && AsksRemotes(fp, locals, f, t) :: OneSample(fp, results, f, t) {
      forall picks, picks', t | Deliver(results, picks).Some? && Deliver(results, picks').Some?
        ensures ValueOf(fp, locals, results, picks, f, t) == ValueOf(fp, locals, results, picks', f, t)
      {
        SameValues(fp, locals, results, picks, picks', f, t);
      }
    }
  }

  lemma SameValues(fp: Metric -> nat, locals: seq<SeriesIterator>, results: seq<seq<SeriesIterator>>,
                   picks: seq<nat>, picks': seq<nat>, f: nat, t: int)
    requires Streams(locals, results) && Deliver(results, picks).Some? && Deliver(results, picks').Some?
    requires forall u | u > EARLIEST && AsksRemotes(fp, locals, f, u) :: OneSample(fp, results, f, u)
    ensures ValueOf(fp, locals, results, picks, f, t) == ValueOf(fp, locals, results, picks', f, t)
  {
    SameKeys(fp, locals, results, picks, picks', f);
    GroupEntry(fp, locals, results, picks, f);
    GroupEntry(fp, locals, results, picks', f);
    var m := Grouped(fp, locals, Deliver(results, picks).value);
    var m' := Grouped(fp, locals, Deliver(results, picks').value);
    if f in m && AsksRemotes(fp, locals, f, t) {
      forall u | EARLIEST < u <= t ensures AtRemotes(m[f].remote, u) == AtRemotes(m'[f].remote, u) {
        SentinelBefore(LocalValues(m[f]), u, t);
        SameDelivered(fp, results, picks, picks', f, u);
      }
      SameBest(m[f].remote, m'[f].remote, t);
    }
  }

  // ----- agreement is enough -----

  /** Remotes agree wherever two of them have a sample at the same time. */
  ghost predicate RemotesAgree(rs: seq<SeriesIterator>) {
    forall x, y :: x in rs && y in rs ==> Agree(x.values, y.values)
  }

  lemma {:induction false} AtRemotesFrom(rs: seq<SeriesIterator>, t: int)
    ensures AtRemotes(rs, t).Some? ==> exists x :: x in rs && At(x.values, t) == AtRemotes(rs, t)
  {
    if rs != [] {
      if At(rs[0].values, t).Some? {
        assert rs[0] in rs;
      } else if AtRemotes(rs, t).Some? {
        AtRemotesFrom(rs[1..], t);
        var x :| x in rs[1..] && At(x.values, t) == AtRemotes(rs[1..], t);
        assert x in rs;
      }
    }
  }

  lemma RemoteAtFrom(fp: Metric -> nat, results: seq<seq<SeriesIterator>>, k: nat, f: nat, t: int)
    returns (x: SeriesIterator)
    requires k < |results| && RemoteAt(fp, results, k, f, t).Some?
    ensures x in Of(fp, Flatten(results), f) && At(x.values, t) == RemoteAt(fp, results, k, f, t)
  {
    AtRemotesFrom(Of(fp, results[k], f), t);
    x :| x in Of(fp, results[k], f) && At(x.values, t) == RemoteAt(fp, results, k, f, t);
    OfMembers(fp, results[k], f);
    FlattenMembers(results, x);
    OfMembers(fp, Flatten(results), f);
  }

  /** Remotes that agree wherever their times coincide give every query the same answer,
      however their goroutines interleave. */
  lemma AgreementIsEnough(fp: Metric -> nat, locals: seq<SeriesIterator>, results: seq<seq<SeriesIterator>>, f: nat)
    requires Streams(locals, results) && RemotesAgree(Of(fp, Flatten(results), f))
    ensures RangesIgnoreSchedule(fp, locals, results, f) && ValuesIgnoreSchedule(fp, locals, results, f)
  {
    forall t ensures OneSample(fp, results, f, t) {
      forall j, k | 0 <= j < |results| && 0 <= k < |results|
                    && RemoteAt(fp, results, j, f, t).Some? && RemoteAt(fp, results, k, f, t).Some?
        ensures RemoteAt(fp, results, j, f, t) == RemoteAt(fp, results, k, f, t)
      {
        var x := RemoteAtFrom(fp, results, j, f, t);
        var y := RemoteAtFrom(fp, results, k, f, t);
        assert Agree(x.values, y.values);
      }
    }
    RangesIgnoreScheduleIff(fp, locals, results, f);
    ValuesIgnoreScheduleIff(fp, locals, results, f);
  }

  /** Without agreement the schedule does show: two remotes whose series differ at one time
      give different answers depending on which of them is grouped first. */
  lemma DisagreementShows(fp: Metric -> nat, x: SeriesIterator, y: SeriesIterator, t: int)
    requires IsStream(x.values) && IsStream(y.values) && fp(x.metric) == fp(y.metric) && t < LATEST
    requires At(x.values, t).Some? && At(y.values, t).Some? && At(x.values, t) != At(y.values, t)
    ensures Deliver([[x], [y]], [0, 1]) == Some([x, y]) && Deliver([[x], [y]], [1, 0]) == Some([y, x])
    ensures var m, m' := Grouped(fp, [], [x, y]), Grouped(fp, [], [y, x]);
            && fp(x.metric) in m && fp(x.metric) in m'
            && Answer(m[fp(x.metric)], t, t) != Answer(m'[fp(x.metric)], t, t)
  {
    DeliverPair(x, y, 0);
    DeliverPair(x, y, 1);
    PairAnswer(fp, x, y, t);
    PairAnswer(fp, y, x, t);
  }

  lemma DeliverPair(x: SeriesIterator, y: SeriesIterator, first: nat)
    requires first <= 1
    ensures Deliver([[x], [y]], [first, 1 - first]) == Some(if first == 0 then [x, y] else [y, x])
  {
    var results := [[x], [y]];
    var one := results[first := []];
    var none := one[1 - first := []];
    assert none == [[], []];
    assert one[1 - first][1..] == [] && results[first][1..] == [];
    DeliverStep(one, 1 - first, [], []);
    DeliverStep(results, first, [1 - first] + [], [one[1 - first][0]] + []);
    assert [first] + ([1 - first] + []) == [first, 1 - first];
    assert [results[first][0]] + ([one[1 - first][0]] + []) == if first == 0 then [x, y] else [y, x];
  }

  lemma PairAnswer(fp: Metric -> nat, x: SeriesIterator, y: SeriesIterator, t: int)
    requires IsStream(x.values) && IsStream(y.values) && fp(x.metric) == fp(y.metric) && t < LATEST
    requires At(x.values, t).Some?
    ensures var m := Grouped(fp, [], [x, y]);
            fp(x.metric) in m && At(Answer(m[fp(x.metric)], t, t), t) == At(x.values, t)
  {
    var f := fp(x.metric);
    var m := Grouped(fp, [], [x, y]);
    var m1 := AddRemote(fp, map[], x);
    var m2 := AddRemote(fp, m1, y);
    assert [x, y][1..] == [y] && [y][1..] == [];
    assert AddRemotes(fp, m1, [y]) == AddRemotes(fp, m2, []) == m2;
    assert m2[f].local == None && m2[f].remote == [x, y];
    AnswerMap(m[f], t, t, t);
  }
}
