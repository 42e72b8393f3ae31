/** The two ways to read a merged series, and exactly when they agree. */
module ReadPaths {
  import opened Model
  import opened SampleStream
  import opened MergeSamples
  import opened MergeIterator

  function Newest(s: seq<SamplePair>, t: int): SamplePair {
    LastOrZero(InInterval(s, EARLIEST, t))
  }

  /** The newest remote sample, from the lowest-index remote on a tie. */
  function BestRemote(rs: seq<SeriesIterator>, t: int): SamplePair {
    if rs == [] then ZERO_SAMPLE_PAIR
    else Newer(BestRemote(rs[..|rs| - 1], t), Newest(rs[|rs| - 1].values, t))
  }

  function ValueAt(mit: MergedSeries, t: int): SamplePair {
    var own := Newest(LocalValues(mit), t);
    if own == ZERO_SAMPLE_PAIR then BestRemote(mit.remote, t) else own
  }

  method ValueAtOrBeforeTime(mit: MergedSeries, t: int) returns (latest: SamplePair)
    requires Valid(mit)
    ensures latest == ValueAt(mit, t)
  {
    latest := ZERO_SAMPLE_PAIR;
    if mit.local.Some? {
      latest := SampleStream.ValueAtOrBeforeTime(mit.local.value.values, t);
    }
    if latest == ZERO_SAMPLE_PAIR {
      for k := 0 to |mit.remote|
        invariant latest == BestRemote(mit.remote[..k], t)
      {
        var v := SampleStream.ValueAtOrBeforeTime(mit.remote[k].values, t);
        assert mit.remote[..k + 1][..k] == mit.remote[..k];
        if v.ts > latest.ts {
          latest := v;
        }
      }
      assert mit.remote[..|mit.remote|] == mit.remote;
    }
  }

  predicate RemoteIn(rs: seq<SeriesIterator>, lo: int, hi: int) {
    exists k :: 0 <= k < |rs| && InInterval(rs[k].values, lo, hi) != []
  }

  /** When the two paths give the same sample at t: the sentinel for "no sample" is a sample
      with the earliest time and value 0, and the cutoff for remotes is the latest time, so
      samples at the two ends of the time range are the only ones that can go wrong. */
  predicate EndsHarmless(mit: MergedSeries, t: int) {
    var own := InInterval(LocalValues(mit), EARLIEST, t);
    var later := RemoteIn(mit.remote, EARLIEST + 1, t);
    if own != [] then
      LastOrZero(own) == ZERO_SAMPLE_PAIR ==> !later
    else
      && (t == LATEST ==> !RemoteIn(mit.remote, LATEST, LATEST))
      && (!later ==> AtRemotes(mit.remote, EARLIEST).None?
                     || AtRemotes(mit.remote, EARLIEST).value == ZERO_SAMPLE_PAIR)
  }

  // ----- newest samples -----

  lemma UpToLast(s: seq<SamplePair>, i: nat)
    requires Sorted(s) && i < |s|
    ensures s[i].ts <= LastOrZero(s).ts
  {
  }

  lemma NewestBounds(s: seq<SamplePair>, t: int)
    requires IsStream(s)
    ensures EARLIEST <= Newest(s, t).ts
    ensures InInterval(s, EARLIEST, t) != [] ==> Newest(s, t).ts <= t
    ensures Newest(s, t).ts > EARLIEST <==> InInterval(s, EARLIEST + 1, t) != []
  {
    var vs, later := InInterval(s, EARLIEST, t), InInterval(s, EARLIEST + 1, t);
    if vs != [] {
      IntervalMembers(s, EARLIEST, t, LastOrZero(vs));
      IntervalMembers(s, EARLIEST + 1, t, LastOrZero(vs));
    }
    if later != [] {
      var p := later[0];
      IntervalMembers(s, EARLIEST + 1, t, p);
      IntervalMembers(s, EARLIEST, t, p);
      IntervalSorted(s, EARLIEST, t);
      var i :| 0 <= i < |vs| && vs[i] == p;
      UpToLast(vs, i);
    }
  }

  lemma NewestZero(s: seq<SamplePair>, t: int)
    ensures InInterval(s, EARLIEST, t) == [] ==> Newest(s, t) == ZERO_SAMPLE_PAIR
  {
  }

  lemma {:induction false} BestBounds(rs: seq<SeriesIterator>, t: int)
    requires ValidRemotes(rs)
    ensures BestRemote(rs, t) == ZERO_SAMPLE_PAIR || EARLIEST < BestRemote(rs, t).ts <= t
    ensures BestRemote(rs, t).ts > EARLIEST <==> RemoteIn(rs, EARLIEST + 1, t)
  {
    if rs != [] {
      var before, last := rs[..|rs| - 1], rs[|rs| - 1];
      assert rs == before + [last];
      BestBounds(before, t);
      RemoteInSnoc(before, last, EARLIEST + 1, t);
      NewestBounds(last.values, t);
      NewestZero(last.values, t);
    }
  }

  lemma RemoteInSnoc(rs: seq<SeriesIterator>, r: SeriesIterator, lo: int, hi: int)
    ensures RemoteIn(rs + [r], lo, hi) <==> RemoteIn(rs, lo, hi) || InInterval(r.values, lo, hi) != []
  {
    if RemoteIn(rs, lo, hi) {
      var k :| 0 <= k < |rs| && InInterval(rs[k].values, lo, hi) != [];
      assert (rs + [r])[k] == rs[k];
    }
    assert (rs + [r])[|rs|] == r;
  }

  /** The best remote sample is the last of the merged remotes, unless that one sits at the
      very earliest time. */
  lemma {:induction false} BestIsLast(rs: seq<SeriesIterator>, t: int)
    requires ValidRemotes(rs)
    ensures var all := MergeAll([], rs, EARLIEST, t);
            Sorted(all) && (all != [] ==> LastOrZero(all).ts >= EARLIEST)
            && BestRemote(rs, t) == if LastOrZero(all).ts > EARLIEST then LastOrZero(all) else ZERO_SAMPLE_PAIR
  {
    if rs != [] {
      var before, last := rs[..|rs| - 1], rs[|rs| - 1];
      var m, vs := MergeAll([], before, EARLIEST, t), InInterval(last.values, EARLIEST, t);
      BestIsLast(before, t);
      NewestBounds(last.values, t);
      IntervalSorted(last.values, EARLIEST, t);
      MergeSorted(m, vs);
      if m != [] && vs != [] {
        MergeLast(m, vs);
      }
    }
  }

  // ----- what a value read means -----

  /** p is the newest remote sample after the earliest time and not after t, from the first remote
      that has one at its time; or the sentinel where there is none. */
  ghost predicate IsBest(rs: seq<SeriesIterator>, t: int, p: SamplePair) {
    if exists k, i :: 0 <= k < |rs| && 0 <= i < |rs[k].values| && EARLIEST < rs[k].values[i].ts <= t then
      && EARLIEST < p.ts <= t && AtRemotes(rs, p.ts) == Some(p)
      && forall k, i :: 0 <= k < |rs| && 0 <= i < |rs[k].values| && rs[k].values[i].ts <= t ==>
           rs[k].values[i].ts <= p.ts
    else p == SamplePair(-0x8000_0000_0000_0000, 0.0)
  }

  lemma RemoteInIff(rs: seq<SeriesIterator>, t: int)
    ensures RemoteIn(rs, EARLIEST + 1, t)
            <==> exists k, i :: 0 <= k < |rs| && 0 <= i < |rs[k].values| && EARLIEST < rs[k].values[i].ts <= t
  {
    if RemoteIn(rs, EARLIEST + 1, t) {
      var k :| 0 <= k < |rs| && InInterval(rs[k].values, EARLIEST + 1, t) != [];
      var p := InInterval(rs[k].values, EARLIEST + 1, t)[0];
      IntervalMembers(rs[k].values, EARLIEST + 1, t, p);
      var i :| 0 <= i < |rs[k].values| && rs[k].values[i] == p;
    }
    if k, i :| 0 <= k < |rs| && 0 <= i < |rs[k].values| && EARLIEST < rs[k].values[i].ts <= t {
      IntervalMembers(rs[k].values, EARLIEST + 1, t, rs[k].values[i]);
    }
  }

  lemma RemoteIsMerged(rs: seq<SeriesIterator>, t: int, k: nat, i: nat)
    requires ValidRemotes(rs) && k < |rs| && i < |rs[k].values| && rs[k].values[i].ts <= t
    ensures rs[k].values[i].ts <= LastOrZero(MergeAll([], rs, EARLIEST, t)).ts
  {
    var all, u := MergeAll([], rs, EARLIEST, t), rs[k].values[i].ts;
    MergeAllMap([], rs, EARLIEST, t, u);
    AtFinds(rs[k].values, u, i);
    AtRemotesSome(rs, u);
    AtMember(all, u);
    var j :| 0 <= j < |all| && all[j].ts == u;
    UpToLast(all, j);
  }

  lemma BestMeans(rs: seq<SeriesIterator>, t: int)
    requires ValidRemotes(rs)
    ensures IsBest(rs, t, BestRemote(rs, t))
  {
    var all := MergeAll([], rs, EARLIEST, t);
    BestIsLast(rs, t);
    BestBounds(rs, t);
    RemoteInIff(rs, t);
    if BestRemote(rs, t).ts > EARLIEST {
      var p := LastOrZero(all);
      AtFinds(all, p.ts, |all| - 1);
      MergeAllMap([], rs, EARLIEST, t, p.ts);
      forall k, i | 0 <= k < |rs| && 0 <= i < |rs[k].values| && rs[k].values[i].ts <= t
        ensures rs[k].values[i].ts <= p.ts
      {
        RemoteIsMerged(rs, t, k, i);
      }
    }
  }

  lemma NewestMeans(s: seq<SamplePair>, t: int)
    requires IsStream(s)
    ensures IsNewest(s, t, Newest(s, t))
  {
    var n := 0;
    while n < |s| && s[n].ts <= t
      invariant n <= |s| && (n > 0 ==> s[n - 1].ts <= t)
    {
      n := n + 1;
    }
    NewestIsLast(s, t, n);
  }

  /** The direct read: the newest local sample unless there is none or it is the sentinel, and then
      the best remote one. */
  lemma ValueAtMeans(mit: MergedSeries, t: int) returns (own: SamplePair)
    requires Valid(mit)
    ensures IsNewest(if mit.local.Some? then mit.local.value.values else [], t, own)
    ensures own != SamplePair(-0x8000_0000_0000_0000, 0.0) ==> ValueAt(mit, t) == own
    ensures own == SamplePair(-0x8000_0000_0000_0000, 0.0) ==> IsBest(mit.remote, t, ValueAt(mit, t))
  {
    own := Newest(LocalValues(mit), t);
    NewestMeans(LocalValues(mit), t);
    BestMeans(mit.remote, t);
  }

  // ----- agreement -----

  lemma LocalDecides(mit: MergedSeries, t: int)
    requires Valid(mit) && InInterval(LocalValues(mit), EARLIEST, t) != []
    ensures ValueAt(mit, t) == LastOrZero(Answer(mit, EARLIEST, t)) <==> EndsHarmless(mit, t)
  {
    LocalIsSuffix(mit, EARLIEST, t);
    BestBounds(mit.remote, t);
    var own, all := InInterval(LocalValues(mit), EARLIEST, t), Answer(mit, EARLIEST, t);
    assert LastOrZero(all) == LastOrZero(all[|all| - |own|..]);
  }

  lemma EarliestOfRemotes(rs: seq<SeriesIterator>, t: int)
    requires ValidRemotes(rs) && EARLIEST <= t
    ensures var all := MergeAll([], rs, EARLIEST, t);
            all != [] && LastOrZero(all).ts == EARLIEST ==> AtRemotes(rs, EARLIEST) == Some(LastOrZero(all))
    ensures var all := MergeAll([], rs, EARLIEST, t);
            all == [] ==> AtRemotes(rs, EARLIEST) == None
  {
    var all := MergeAll([], rs, EARLIEST, t);
    MergeAllMap([], rs, EARLIEST, t, EARLIEST);
    if all != [] && LastOrZero(all).ts == EARLIEST {
      AtFinds(all, EARLIEST, |all| - 1);
    }
  }

  lemma RemotesDecide(mit: MergedSeries, t: int)
    requires Valid(mit) && InInterval(LocalValues(mit), EARLIEST, t) == [] && EARLIEST <= t < LATEST
    ensures ValueAt(mit, t) == LastOrZero(Answer(mit, EARLIEST, t)) <==> EndsHarmless(mit, t)
  {
    BestIsLast(mit.remote, t);
    BestBounds(mit.remote, t);
    EarliestOfRemotes(mit.remote, t);
  }

  lemma {:induction false} NoneAtLatest(rs: seq<SeriesIterator>)
    requires ValidRemotes(rs) && !RemoteIn(rs, LATEST, LATEST)
    ensures BestRemote(rs, LATEST) == BestRemote(rs, LATEST - 1)
    ensures RemoteIn(rs, EARLIEST + 1, LATEST) <==> RemoteIn(rs, EARLIEST + 1, LATEST - 1)
  {
    if rs != [] {
      var before, last := rs[..|rs| - 1], rs[|rs| - 1];
      assert rs == before + [last];
      RemoteInSnoc(before, last, LATEST, LATEST);
      RemoteInSnoc(before, last, EARLIEST + 1, LATEST);
      RemoteInSnoc(before, last, EARLIEST + 1, LATEST - 1);
      NoneAtLatest(before);
      SameWithoutLatest(last.values, EARLIEST);
      SameWithoutLatest(last.values, EARLIEST + 1);
    }
  }

  lemma {:induction false} SameWithoutLatest(s: seq<SamplePair>, lo: int)
    requires InInterval(s, LATEST, LATEST) == []
    ensures InInterval(s, lo, LATEST) == InInterval(s, lo, LATEST - 1)
  {
    if s != [] {
      SameWithoutLatest(s[1..], lo);
    }
  }

  lemma {:induction false} LatestWins(rs: seq<SeriesIterator>)
    requires ValidRemotes(rs) && RemoteIn(rs, LATEST, LATEST)
    ensures BestRemote(rs, LATEST).ts == LATEST
  {
    var before, last := rs[..|rs| - 1], rs[|rs| - 1];
    assert rs == before + [last];
    RemoteInSnoc(before, last, LATEST, LATEST);
    NewestBounds(last.values, LATEST);
    BestBounds(before, LATEST);
    if RemoteIn(before, LATEST, LATEST) {
      LatestWins(before);
    } else {
      NewestAtLatest(last.values);
    }
  }

  lemma NewestAtLatest(s: seq<SamplePair>)
    requires IsStream(s) && InInterval(s, LATEST, LATEST) != []
    ensures Newest(s, LATEST).ts == LATEST
  {
    var p := InInterval(s, LATEST, LATEST)[0];
    var vs := InInterval(s, EARLIEST, LATEST);
    IntervalMembers(s, LATEST, LATEST, p);
    IntervalMembers(s, EARLIEST, LATEST, p);
    IntervalSorted(s, EARLIEST, LATEST);
    NewestBounds(s, LATEST);
    var i :| 0 <= i < |vs| && vs[i] == p;
    UpToLast(vs, i);
  }

  lemma RemotesDecideAtLatest(mit: MergedSeries)
    requires Valid(mit) && InInterval(LocalValues(mit), EARLIEST, LATEST) == []
    ensures ValueAt(mit, LATEST) == LastOrZero(Answer(mit, EARLIEST, LATEST)) <==> EndsHarmless(mit, LATEST)
  {
    var all := MergeAll([], mit.remote, EARLIEST, LATEST - 1);
    assert Answer(mit, EARLIEST, LATEST) == all;
    BestIsLast(mit.remote, LATEST - 1);
    BestBounds(mit.remote, LATEST - 1);
    EarliestOfRemotes(mit.remote, LATEST - 1);
    if RemoteIn(mit.remote, LATEST, LATEST) {
      LatestWins(mit.remote);
    } else {
      NoneAtLatest(mit.remote);
    }
  }

  /** For every merged series and every time: reading the last sample directly gives the last
      sample of the whole range up to then, or the sentinel when there is none, exactly under
      EndsHarmless. */
  lemma ReadPathsAgreeIff(mit: MergedSeries, t: int)
    requires Valid(mit) && EARLIEST <= t <= LATEST
    ensures ValueAt(mit, t) == LastOrZero(Answer(mit, EARLIEST, t)) <==> EndsHarmless(mit, t)
  {
    if InInterval(LocalValues(mit), EARLIEST, t) != [] {
      LocalDecides(mit, t);
    } else if t < LATEST {
      RemotesDecide(mit, t);
    } else {
      RemotesDecideAtLatest(mit);
    }
  }

  predicate Inside(s: seq<SamplePair>) {
    forall i :: 0 <= i < |s| ==> EARLIEST < s[i].ts < LATEST
  }

  lemma {:induction false} NothingAt(s: seq<SamplePair>, t: int)
    requires forall i :: 0 <= i < |s| ==> s[i].ts != t
    ensures InInterval(s, t, t) == [] && At(s, t) == None
  {
    if s != [] {
      NothingAt(s[1..], t);
    }
  }

  lemma {:induction false} NoRemoteAt(rs: seq<SeriesIterator>, t: int)
    requires forall k, i :: 0 <= k < |rs| && 0 <= i < |rs[k].values| ==> rs[k].values[i].ts != t
    ensures AtRemotes(rs, t) == None
  {
    if rs != [] {
      NothingAt(rs[0].values, t);
      NoRemoteAt(rs[1..], t);
    }
  }

  /** Series with no sample at the two ends of the time range always read the same both ways. */
  lemma ReadPathsAgree(mit: MergedSeries, t: int)
    requires Valid(mit) && EARLIEST <= t <= LATEST
    requires Inside(LocalValues(mit)) && forall k :: 0 <= k < |mit.remote| ==> Inside(mit.remote[k].values)
    ensures ValueAt(mit, t) == LastOrZero(Answer(mit, EARLIEST, t))
  {
    NoRemoteAt(mit.remote, EARLIEST);
    forall k | 0 <= k < |mit.remote| ensures InInterval(mit.remote[k].values, LATEST, LATEST) == [] {
      NothingAt(mit.remote[k].values, LATEST);
    }
    var own := InInterval(LocalValues(mit), EARLIEST, t);
    if own != [] {
      IntervalMembers(LocalValues(mit), EARLIEST, t, LastOrZero(own));
    }
    ReadPathsAgreeIff(mit, t);
  }

  /** Both ends do go wrong: a remote sample at the latest time is read directly but never in a
      range, and a remote sample at the earliest time the other way round. */
  lemma EndsDoMatter()
    ensures var late := MergedSeries(None, [SeriesIterator(map[], [SamplePair(0x7fff_ffff_ffff_ffff, 1.0)])]);
            Valid(late) && !EndsHarmless(late, LATEST)
    ensures var early := MergedSeries(None, [SeriesIterator(map[], [SamplePair(-0x8000_0000_0000_0000, 1.0)])]);
            Valid(early) && !EndsHarmless(early, EARLIEST)
  {
    var p, q := SamplePair(LATEST, 1.0), SamplePair(EARLIEST, 1.0);
    var late, early := SeriesIterator(map[], [p]), SeriesIterator(map[], [q]);
    assert p in [p];
    IntervalMembers([p], LATEST, LATEST, p);
    assert InInterval([late][0].values, LATEST, LATEST) != [];
    assert At([q], EARLIEST) == Some(q);
    NothingAfterEarliest(q);
    assert !RemoteIn([early], EARLIEST + 1, EARLIEST);
  }

  lemma NothingAfterEarliest(q: SamplePair)
    ensures InInterval([q], EARLIEST + 1, EARLIEST) == []
  {
  }
}
