/** A series seen through a local iterator and any number of remote ones. */
module MergeIterator {
  import opened Model
  import opened SampleStream
  import opened MergeSamples

  datatype SeriesIterator = SeriesIterator(metric: Metric, values: seq<SamplePair>)

  datatype MergedSeries = MergedSeries(local: Option<SeriesIterator>, remote: seq<SeriesIterator>)

  predicate ValidRemotes(rs: seq<SeriesIterator>) {
    forall k :: 0 <= k < |rs| ==> IsStream(rs[k].values)
  }

  predicate Valid(mit: MergedSeries) {
    (mit.local.Some? ==> IsStream(mit.local.value.values)) && ValidRemotes(mit.remote)
  }

  function LocalValues(mit: MergedSeries): seq<SamplePair> {
    if mit.local.Some? then mit.local.value.values else []
  }

  /** The last timestamp at which remote samples are taken: strictly before the first local
      sample inside the queried interval, and always before the latest representable time. */
  function RemoteEnd(mit: MergedSeries, lo: int, hi: int): int {
    var values := InInterval(LocalValues(mit), lo, hi);
    var cutoff := if values != [] then values[0].ts else LATEST;
    if hi < cutoff then hi else cutoff - 1
  }

  /** Remote results are merged into `first` one after the other. */
  function MergeAll(first: seq<SamplePair>, rs: seq<SeriesIterator>, lo: int, end: int): seq<SamplePair> {
    if rs == [] then first
    else Merge(MergeAll(first, rs[..|rs| - 1], lo, end), InInterval(rs[|rs| - 1].values, lo, end))
  }

  function Answer(mit: MergedSeries, lo: int, hi: int): seq<SamplePair> {
    MergeAll(InInterval(LocalValues(mit), lo, hi), mit.remote, lo, RemoteEnd(mit, lo, hi))
  }

  /** The sample of the lowest-index remote that has one at t. */
  function AtRemotes(rs: seq<SeriesIterator>, t: int): Option<SamplePair> {
    if rs == [] then None
    else if At(rs[0].values, t).Some? then At(rs[0].values, t)
    else AtRemotes(rs[1..], t)
  }

  lemma {:induction false} AtRemotesSnoc(rs: seq<SeriesIterator>, r: SeriesIterator, t: int)
    ensures AtRemotes(rs + [r], t) == if AtRemotes(rs, t).Some? then AtRemotes(rs, t) else At(r.values, t)
  {
    if rs == [] {
      assert (rs + [r])[1..] == [];
    } else {
      AtRemotesSnoc(rs[1..], r, t);
      assert (rs + [r])[0] == rs[0] && (rs + [r])[1..] == rs[1..] + [r];
    }
  }

  // ----- RangeValues -----

  predicate AnyPanics(rs: seq<SeriesIterator>, lo: int, hi: int) {
    rs != [] && (AnyPanics(rs[..|rs| - 1], lo, hi) || SlicePanics(rs[|rs| - 1].values, lo, hi))
  }

  lemma {:induction false} AnyPanicsIff(rs: seq<SeriesIterator>, lo: int, hi: int)
    ensures AnyPanics(rs, lo, hi) <==> exists k :: 0 <= k < |rs| && SlicePanics(rs[k].values, lo, hi)
  {
    if rs != [] {
      var before := rs[..|rs| - 1];
      AnyPanicsIff(before, lo, hi);
      assert forall k :: 0 <= k < |before| ==> before[k] == rs[k];
    }
  }

  predicate RangePanics(mit: MergedSeries, lo: int, hi: int) {
    SlicePanics(LocalValues(mit), lo, hi) || AnyPanics(mit.remote, lo, hi)
  }

  lemma {:induction false} NarrowInterval(s: seq<SamplePair>, lo: int, hi: int, end: int)
    requires end <= hi
    ensures InInterval(InInterval(s, lo, hi), lo, end) == InInterval(s, lo, end)
  {
    if s != [] {
      NarrowInterval(s[1..], lo, hi, end);
      var rest := InInterval(s[1..], lo, hi);
      if lo <= s[0].ts <= hi {
        assert InInterval(s, lo, hi)[1..] == rest;
      } else {
        assert InInterval(s, lo, hi) == rest;
      }
    }
  }

  /** Cutting an interval's samples at a timestamp gives those of a narrower interval. */
  lemma CutInterval(s: seq<SamplePair>, lo: int, hi: int, cutoff: int, n: nat)
    requires Sorted(s)
    requires n <= |InInterval(s, lo, hi)|
    requires n > 0 ==> InInterval(s, lo, hi)[n - 1].ts < cutoff
    requires n < |InInterval(s, lo, hi)| ==> InInterval(s, lo, hi)[n].ts >= cutoff
    ensures InInterval(s, lo, hi)[..n] == InInterval(s, lo, if hi < cutoff then hi else cutoff - 1)
  {
    var vs := InInterval(s, lo, hi);
    var end := if hi < cutoff then hi else cutoff - 1;
    IntervalSorted(s, lo, hi);
    forall i | 0 <= i < |vs| ensures lo <= vs[i].ts <= hi {
      IntervalMembers(s, lo, hi, vs[i]);
    }
    IntervalIsSlice(vs, lo, end, 0, n);
    NarrowInterval(s, lo, hi, end);
  }

  /** One remote's samples of the interval, cut before the first local sample. */
  method RemoteBefore(it: SeriesIterator, lo: int, hi: int, cutoff: int) returns (r: Option<seq<SamplePair>>)
    requires IsStream(it.values)
    ensures r == if SlicePanics(it.values, lo, hi) then None
                 else Some(InInterval(it.values, lo, if hi < cutoff then hi else cutoff - 1))
  {
    var vs := SampleStream.RangeValues(it.values, lo, hi);
    if vs.None? {
      return None;
    }
    var n := Search(|vs.value|, (i: int) requires 0 <= i < |vs.value| => !(vs.value[i].ts < cutoff));
    CutInterval(it.values, lo, hi, cutoff, n);
    return Some(vs.value[..n]);
  }

  method LocalRange(mit: MergedSeries, lo: int, hi: int) returns (r: Option<seq<SamplePair>>)
    requires Valid(mit)
    ensures r == if SlicePanics(LocalValues(mit), lo, hi) then None else Some(InInterval(LocalValues(mit), lo, hi))
  {
    if mit.local.Some? {
      r := SampleStream.RangeValues(mit.local.value.values, lo, hi);
    } else {
      r := Some([]);
    }
  }

  lemma NoPanicForward(mit: MergedSeries, lo: int, hi: int)
    requires lo <= hi
    ensures !RangePanics(mit, lo, hi)
  {
    AnyPanicsIff(mit.remote, lo, hi);
  }

  lemma {:induction false} PrefixPanics(rs: seq<SeriesIterator>, k: nat, lo: int, hi: int)
    requires k <= |rs| && AnyPanics(rs[..k], lo, hi)
    ensures AnyPanics(rs, lo, hi)
  {
    if k < |rs| {
      assert rs[..|rs| - 1][..k] == rs[..k];
      PrefixPanics(rs[..|rs| - 1], k, lo, hi);
    } else {
      assert rs[..k] == rs;
    }
  }

  lemma MergeAllNext(first: seq<SamplePair>, rs: seq<SeriesIterator>, k: nat, lo: int, end: int)
    requires k < |rs|
    ensures MergeAll(first, rs[..k + 1], lo, end)
            == Merge(MergeAll(first, rs[..k], lo, end), InInterval(rs[k].values, lo, end))
  {
    assert rs[..k + 1][..k] == rs[..k];
  }

  method RangeValues(mit: MergedSeries, lo: int, hi: int) returns (r: Option<seq<SamplePair>>)
    requires Valid(mit)
    ensures r.None? <==> RangePanics(mit, lo, hi)
    ensures r.Some? ==> r.value == Answer(mit, lo, hi)
    ensures lo <= hi ==> r.Some?
  {
    hide InInterval, Merge, Sorted, SlicePanics;
    if lo <= hi { NoPanicForward(mit, lo, hi); }
    var own := LocalRange(mit, lo, hi);
    if own.None? {
      return None;
    }
    var values := own.value;
    var remoteCutoff := LATEST;
    if |values| > 0 {
      remoteCutoff := values[0].ts;
    }
    ghost var end := RemoteEnd(mit, lo, hi);
    for k := 0 to |mit.remote|
      invariant values == MergeAll(own.value, mit.remote[..k], lo, end)
      invariant !AnyPanics(mit.remote[..k], lo, hi)
    {
      var vs := RemoteBefore(mit.remote[k], lo, hi, remoteCutoff);
      assert mit.remote[..k + 1][..k] == mit.remote[..k];
      if vs.None? {
        PrefixPanics(mit.remote, k + 1, lo, hi);
        return None;
      }
      MergeAllNext(own.value, mit.remote, k, lo, end);
      values := MergeLists(values, vs.value);
    }
    assert mit.remote[..|mit.remote|] == mit.remote;
    return Some(values);
  }

  lemma {:induction false} MergeAllSorted(first: seq<SamplePair>, rs: seq<SeriesIterator>, lo: int, end: int)
    requires Sorted(first) && ValidRemotes(rs)
    ensures Sorted(MergeAll(first, rs, lo, end))
  {
    if rs != [] {
      var before, last := rs[..|rs| - 1], rs[|rs| - 1];
      MergeAllSorted(first, before, lo, end);
      IntervalSorted(last.values, lo, end);
      MergeSorted(MergeAll(first, before, lo, end), InInterval(last.values, lo, end));
    }
  }

  lemma {:induction false} MergeAllMap(first: seq<SamplePair>, rs: seq<SeriesIterator>, lo: int, end: int, t: int)
    requires Sorted(first) && ValidRemotes(rs)
    ensures Sorted(MergeAll(first, rs, lo, end))
    ensures At(MergeAll(first, rs, lo, end), t)
            == if At(first, t).Some? then At(first, t) else if lo <= t <= end then AtRemotes(rs, t) else None
  {
    MergeAllSorted(first, rs, lo, end);
    if rs != [] {
      var before, last := rs[..|rs| - 1], rs[|rs| - 1];
      assert rs == before + [last];
      MergeAllMap(first, before, lo, end, t);
      AtRemotesSnoc(before, last, t);
      IntervalSorted(last.values, lo, end);
      IntervalAt(last.values, lo, end, t);
      MergeAt(MergeAll(first, before, lo, end), InInterval(last.values, lo, end), t);
    }
  }

  /** What RangeValues means: a sorted list that, read as a map, has every local sample of the
      interval and, before the first of them, the sample of the first remote that has one. */
  lemma AnswerMap(mit: MergedSeries, lo: int, hi: int, t: int)
    requires Valid(mit)
    ensures Sorted(Answer(mit, lo, hi))
    ensures At(Answer(mit, lo, hi), t)
            == if !(lo <= t <= hi) then None
               else if At(LocalValues(mit), t).Some? then At(LocalValues(mit), t)
               else if t <= RemoteEnd(mit, lo, hi) then AtRemotes(mit.remote, t)
               else None
  {
    var own := InInterval(LocalValues(mit), lo, hi);
    IntervalSorted(LocalValues(mit), lo, hi);
    IntervalAt(LocalValues(mit), lo, hi, t);
    MergeAllMap(own, mit.remote, lo, RemoteEnd(mit, lo, hi), t);
  }

  /** The sample the local iterator has at t, if there is one. */
  function OwnAt(local: Option<SeriesIterator>, t: int): Option<SamplePair> {
    match local
    case None => None
    case Some(it) => At(it.values, t)
  }

  /** No local sample of the interval comes before or at t. */
  predicate BeforeOwn(local: Option<SeriesIterator>, lo: int, hi: int, t: int) {
    local.Some? ==>
      forall i :: 0 <= i < |local.value.values| && lo <= local.value.values[i].ts <= hi ==> t < local.value.values[i].ts
  }

  /** The answer time by time: in the interval the local sample, or else, before the latest time
      and before all local samples of the interval, that of the remotes. */
  lemma AnswerAt(mit: MergedSeries, lo: int, hi: int, t: int)
    requires Valid(mit)
    ensures At(Answer(mit, lo, hi), t)
            == if !(lo <= t <= hi) then None
               else if OwnAt(mit.local, t).Some? then OwnAt(mit.local, t)
               else if t < 0x7fff_ffff_ffff_ffff && BeforeOwn(mit.local, lo, hi, t) then AtRemotes(mit.remote, t)
               else None
  {
    AnswerMap(mit, lo, hi, t);
    var s := LocalValues(mit);
    var own := InInterval(s, lo, hi);
    if lo <= t <= hi && At(s, t).None? && own != [] {
      IntervalSorted(s, lo, hi);
      IntervalMembers(s, lo, hi, own[0]);
      if t < own[0].ts {
        forall i | 0 <= i < |s| && lo <= s[i].ts <= hi ensures t < s[i].ts {
          IntervalMembers(s, lo, hi, s[i]);
        }
      }
    } else if own == [] {
      forall i | 0 <= i < |s| ensures !(lo <= s[i].ts <= hi) {
        IntervalMembers(s, lo, hi, s[i]);
      }
    }
  }

  /** The lowest index: a remote's sample is used exactly when no earlier remote has one. */
  lemma {:induction false} AtRemotesLowestIndex(rs: seq<SeriesIterator>, t: int, k: nat)
    requires k < |rs| && At(rs[k].values, t).Some?
    requires forall j :: 0 <= j < k ==> At(rs[j].values, t).None?
    ensures AtRemotes(rs, t) == At(rs[k].values, t)
    decreases k
  {
    if k > 0 {
      assert At(rs[0].values, t).None?;
      AtRemotesLowestIndex(rs[1..], t, k - 1);
    }
  }

  /** The local samples of the interval are exactly the end of the answer. */
  lemma LocalIsSuffix(mit: MergedSeries, lo: int, hi: int)
    requires Valid(mit)
    ensures var own := InInterval(LocalValues(mit), lo, hi);
            var all := Answer(mit, lo, hi);
            |own| <= |all| && all[|all| - |own|..] == own
  {
    var own := InInterval(LocalValues(mit), lo, hi);
    IntervalSorted(LocalValues(mit), lo, hi);
    if own != [] {
      SuffixKept(own, mit.remote, lo, RemoteEnd(mit, lo, hi));
    }
  }

  lemma {:induction false} MergeAllBefore(own: seq<SamplePair>, b: seq<SamplePair>)
    requires own != [] && forall i :: 0 <= i < |b| ==> b[i].ts < own[0].ts
    ensures Merge(own, b) == b + own
  {
    if b != [] {
      MergeAllBefore(own, b[1..]);
      assert [b[0]] + (b[1..] + own) == b + own;
    }
  }

  lemma {:induction false} MergeBefore(prefix: seq<SamplePair>, own: seq<SamplePair>, b: seq<SamplePair>)
    requires own != [] && forall i :: 0 <= i < |b| ==> b[i].ts < own[0].ts
    ensures Merge(prefix + own, b) == Merge(prefix, b) + own
    decreases |prefix| + |b|
  {
    if prefix == [] {
      assert prefix + own == own;
      MergeAllBefore(own, b);
    } else if b != [] {
      var x, p := prefix[0], prefix[1..];
      var y, q := b[0], b[1..];
      assert (prefix + own)[0] == x && (prefix + own)[1..] == p + own;
      if x.ts < y.ts {
        MergeBefore(p, own, b);
        Regroup([x], Merge(p, b), own);
      } else if x.ts > y.ts {
        MergeBefore(prefix, own, q);
        Regroup([y], Merge(prefix, q), own);
      } else {
        MergeBefore(p, own, q);
        Regroup([x], Merge(p, q), own);
      }
    }
  }

  lemma {:induction false} SuffixKept(own: seq<SamplePair>, rs: seq<SeriesIterator>, lo: int, end: int)
    requires Sorted(own) && own != [] && ValidRemotes(rs) && end < own[0].ts
    ensures var all := MergeAll(own, rs, lo, end);
            |own| <= |all| && all[|all| - |own|..] == own
  {
    if rs != [] {
      var before, last := rs[..|rs| - 1], rs[|rs| - 1];
      SuffixKept(own, before, lo, end);
      MergeAllMap(own, before, lo, end, 0);
      var all := MergeAll(own, before, lo, end);
      var prefix := all[..|all| - |own|];
      assert all == prefix + own;
      var vs := InInterval(last.values, lo, end);
      forall i | 0 <= i < |vs| ensures vs[i].ts < own[0].ts {
        IntervalMembers(last.values, lo, end, vs[i]);
      }
      MergeBefore(prefix, own, vs);
    }
  }

  // ----- the cutoff, and what the doc comment says of it -----

  lemma {:induction false} AtRemotesSome(rs: seq<SeriesIterator>, t: int)
    ensures AtRemotes(rs, t).Some? <==> exists k :: 0 <= k < |rs| && At(rs[k].values, t).Some?
  {
    if rs != [] {
      AtRemotesSome(rs[1..], t);
      assert forall k :: 0 < k < |rs| ==> rs[k] == rs[1..][k - 1];
    }
  }

  /** A time in the local part of the series at which there is no local sample. */
  predicate BetweenLocals(mit: MergedSeries, t: int) {
    var own := LocalValues(mit);
    own != [] && own[0].ts <= t && At(own, t).None?
  }

  /** Remote samples are only taken before the first local sample of the series, as the doc
      comment of mergeIterator has it. */
  ghost predicate RemotesOnlyBefore(mit: MergedSeries, lo: int, hi: int) {
    forall t | BetweenLocals(mit, t) :: At(Answer(mit, lo, hi), t).None?
  }

  lemma TakenBetweenLocals(mit: MergedSeries, lo: int, hi: int, t: int)
    requires Valid(mit) && BetweenLocals(mit, t)
    ensures At(Answer(mit, lo, hi), t).Some?
            <==> lo <= t <= RemoteEnd(mit, lo, hi)
                 && exists k :: 0 <= k < |mit.remote| && At(mit.remote[k].values, t).Some?
  {
    AnswerMap(mit, lo, hi, t);
    AtRemotesSome(mit.remote, t);
  }

  /** It is so for a query exactly if no remote has, in the part of the interval where remotes
      count, a sample after the series' first local one at a time without a local sample. */
  lemma RemotesOnlyBeforeIff(mit: MergedSeries, lo: int, hi: int)
    requires Valid(mit)
    ensures RemotesOnlyBefore(mit, lo, hi)
            <==> forall k, t | 0 <= k < |mit.remote| && BetweenLocals(mit, t) && lo <= t <= RemoteEnd(mit, lo, hi) ::
                   At(mit.remote[k].values, t).None?
  {
    forall t | BetweenLocals(mit, t)
      ensures At(Answer(mit, lo, hi), t).Some?
              <==> lo <= t <= RemoteEnd(mit, lo, hi)
                   && exists k :: 0 <= k < |mit.remote| && At(mit.remote[k].values, t).Some?
    {
      TakenBetweenLocals(mit, lo, hi, t);
    }
    if RemotesOnlyBefore(mit, lo, hi) {
      forall k, t | 0 <= k < |mit.remote| && BetweenLocals(mit, t) && lo <= t <= RemoteEnd(mit, lo, hi)
        ensures At(mit.remote[k].values, t).None?
      {
        assert At(Answer(mit, lo, hi), t).None?;
      }
    }
  }

  /** A query that starts no later than the first local sample is always answered so. */
  lemma EarlyQueriesCutThere(mit: MergedSeries, lo: int, hi: int)
    requires Valid(mit) && (LocalValues(mit) != [] ==> lo <= LocalValues(mit)[0].ts)
    ensures RemotesOnlyBefore(mit, lo, hi)
  {
    var own := LocalValues(mit);
    if own != [] && own[0].ts <= hi {
      assert InInterval(own, lo, hi)[0] == own[0];
    }
    RemotesOnlyBeforeIff(mit, lo, hi);
  }

  /** A later one need not be: with local samples at 10 and 30, the query from 15 to 40 has the
      remote sample at 20. */
  lemma LaterQueriesNeedNot()
    ensures var mit := MergedSeries(Some(SeriesIterator(map[], [SamplePair(10, 1.0), SamplePair(30, 3.0)])),
                                    [SeriesIterator(map[], [SamplePair(20, 2.0)])]);
            && Valid(mit) && At(Answer(mit, 15, 40), 20) == Some(SamplePair(20, 2.0))
            && !RemotesOnlyBefore(mit, 15, 40)
  {
    var own, other := [SamplePair(10, 1.0), SamplePair(30, 3.0)], [SamplePair(20, 2.0)];
    var mit := MergedSeries(Some(SeriesIterator(map[], own)), [SeriesIterator(map[], other)]);
    assert own[1..] == [SamplePair(30, 3.0)] && own[1..][1..] == [];
    assert InInterval(own[1..], 15, 40) == [SamplePair(30, 3.0)];
    assert InInterval(own, 15, 40) == [SamplePair(30, 3.0)];
    assert At(own[1..][1..], 20) == None && At(own[1..], 20) == None && At(own, 20) == None;
    assert At(other, 20) == Some(SamplePair(20, 2.0));
    assert mit.remote[0].values == other;
    AnswerMap(mit, 15, 40, 20);
  }
}
