/** A series as a list of samples sorted by time, and the iterator that searches it. */
module SampleStream {
  import opened Model

  datatype SamplePair = SamplePair(ts: int, value: real)

  const EARLIEST := -0x8000_0000_0000_0000
  const LATEST := 0x7fff_ffff_ffff_ffff
  const ZERO_SAMPLE_PAIR := SamplePair(EARLIEST, 0.0)

  predicate Sorted(s: seq<SamplePair>) {
    forall i, j :: 0 <= i < j < |s| ==> s[i].ts < s[j].ts
  }

  /** A series: strictly increasing 64-bit timestamps. */
  predicate IsStream(s: seq<SamplePair>) {
    Sorted(s) && forall i :: 0 <= i < |s| ==> EARLIEST <= s[i].ts <= LATEST
  }

  /** The list read as a map from timestamps to samples. */
  function At(s: seq<SamplePair>, t: int): Option<SamplePair> {
    if s == [] then None else if s[0].ts == t then Some(s[0]) else At(s[1..], t)
  }

  /** The samples with lo <= timestamp <= hi. */
  function InInterval(s: seq<SamplePair>, lo: int, hi: int): seq<SamplePair> {
    if s == [] then []
    else (if lo <= s[0].ts <= hi then [s[0]] else []) + InInterval(s[1..], lo, hi)
  }

  /** The last sample, or the value that stands for none. */
  function LastOrZero(s: seq<SamplePair>): SamplePair {
    if s == [] then ZERO_SAMPLE_PAIR else s[|s| - 1]
  }

  // ----- facts about sorted lists -----

  lemma {:induction false} AtFinds(s: seq<SamplePair>, t: int, k: nat)
    requires Sorted(s) && k < |s| && s[k].ts == t
    ensures At(s, t) == Some(s[k])
  {
    if k > 0 {
      assert s[0].ts < s[k].ts;
      AtFinds(s[1..], t, k - 1);
    }
  }

  lemma {:induction false} AtMember(s: seq<SamplePair>, t: int)
    ensures At(s, t).Some? ==> At(s, t).value in s && At(s, t).value.ts == t
  {
    if s != [] { AtMember(s[1..], t); }
  }

  lemma {:induction false} AtBelowFirst(s: seq<SamplePair>, t: int)
    requires Sorted(s) && (s != [] ==> t < s[0].ts)
    ensures At(s, t) == None
  {
    AtMember(s, t);
  }

  /** A sorted list is determined by the map it stands for. */
  lemma {:induction false} SortedExtensional(a: seq<SamplePair>, b: seq<SamplePair>)
    requires Sorted(a) && Sorted(b)
    requires forall t :: At(a, t) == At(b, t)
    ensures a == b
    decreases |a|
  {
    var first := if a != [] then a[0].ts else if b != [] then b[0].ts else 0;
    assert At(a, first) == At(b, first);
    if a != [] && b != [] {
      var x, y := a[0].ts, b[0].ts;
      assert At(a, x) == At(b, x) && At(a, y) == At(b, y);
      if x < y { AtBelowFirst(b, x); }
      if y < x { AtBelowFirst(a, y); }
      forall t ensures At(a[1..], t) == At(b[1..], t) {
        assert At(a, t) == At(b, t);
        if t <= x {
          AtBelowFirst(a[1..], t);
          AtBelowFirst(b[1..], t);
        }
      }
      SortedExtensional(a[1..], b[1..]);
      assert a == [a[0]] + a[1..] && b == [b[0]] + b[1..];
    }
  }

  lemma {:induction false} IntervalMembers(s: seq<SamplePair>, lo: int, hi: int, p: SamplePair)
    ensures p in InInterval(s, lo, hi) <==> p in s && lo <= p.ts <= hi
  {
    if s != [] {
      IntervalMembers(s[1..], lo, hi, p);
      assert p in s <==> p == s[0] || p in s[1..];
    }
  }

  lemma {:induction false} IntervalSorted(s: seq<SamplePair>, lo: int, hi: int)
    requires Sorted(s)
    ensures Sorted(InInterval(s, lo, hi))
  {
    if s != [] {
      var rest := InInterval(s[1..], lo, hi);
      IntervalSorted(s[1..], lo, hi);
      forall k | 0 <= k < |rest| ensures s[0].ts < rest[k].ts {
        IntervalMembers(s[1..], lo, hi, rest[k]);
        var i :| 0 <= i < |s[1..]| && s[1..][i] == rest[k];
        assert s[0].ts < s[i + 1].ts;
      }
    }
  }

  lemma {:induction false} IntervalAt(s: seq<SamplePair>, lo: int, hi: int, t: int)
    requires Sorted(s)
    ensures At(InInterval(s, lo, hi), t) == if lo <= t <= hi then At(s, t) else None
  {
    if s != [] {
      IntervalAt(s[1..], lo, hi, t);
      var rest := InInterval(s[1..], lo, hi);
      if lo <= s[0].ts <= hi {
        assert InInterval(s, lo, hi)[1..] == rest;
      } else {
        assert InInterval(s, lo, hi) == rest;
      }
    }
  }

  /** On a sorted list the interval is one slice, between any two cut points that separate
      what is below, inside and above. */
  lemma {:induction false} IntervalIsSlice(s: seq<SamplePair>, lo: int, hi: int, start: nat, end: nat)
    requires start <= end <= |s|
    requires forall i :: 0 <= i < start ==> s[i].ts < lo
    requires forall i :: start <= i < end ==> lo <= s[i].ts <= hi
    requires forall i :: end <= i < |s| ==> s[i].ts > hi
    ensures InInterval(s, lo, hi) == s[start..end]
    decreases |s|
  {
    if s != [] {
      var rest := s[1..];
      forall i | 0 <= i < |rest| ensures rest[i] == s[i + 1] { }
      if start > 0 {
        IntervalIsSlice(rest, lo, hi, start - 1, end - 1);
        assert rest[start - 1..end - 1] == s[start..end];
      } else if end > 0 {
        IntervalIsSlice(rest, lo, hi, 0, end - 1);
        assert [s[0]] + rest[..end - 1] == s[..end];
      } else {
        IntervalIsSlice(rest, lo, hi, 0, 0);
      }
    }
  }

  // ----- searching -----

  /** Go's sort.Search. For a predicate that never turns back to false it finds the first
      index where it holds. */
  method Search(n: nat, f: int --> bool) returns (i: nat)
    requires forall h :: 0 <= h < n ==> f.requires(h)
    ensures i <= n
    ensures i > 0 ==> !f(i - 1)
    ensures i < n ==> f(i)
  {
    i := 0;
    var j := n;
    while i < j
      invariant 0 <= i <= j <= n
      invariant i > 0 ==> !f(i - 1)
      invariant j < n ==> f(j)
    {
      var h := i + (j - i) / 2;
      if !f(h) {
        i := h + 1;
      } else {
        j := h;
      }
    }
  }

  /** p is the newest sample not after ts, or the sentinel where there is none. */
  ghost predicate IsNewest(values: seq<SamplePair>, ts: int, p: SamplePair) {
    if exists i :: 0 <= i < |values| && values[i].ts <= ts then
      p in values && p.ts <= ts && forall i :: 0 <= i < |values| && values[i].ts <= ts ==> values[i].ts <= p.ts
    else p == SamplePair(-0x8000_0000_0000_0000, 0.0)
  }

  lemma NewestIsLast(values: seq<SamplePair>, ts: int, n: nat)
    requires IsStream(values) && n <= |values|
    requires n > 0 ==> values[n - 1].ts <= ts
    requires n < |values| ==> values[n].ts > ts
    ensures IsNewest(values, ts, if n == 0 then ZERO_SAMPLE_PAIR else values[n - 1])
    ensures IsNewest(values, ts, LastOrZero(InInterval(values, EARLIEST, ts)))
  {
    IntervalIsSlice(values, EARLIEST, ts, 0, n);
    if n > 0 {
      assert values[n - 1] in values;
    }
  }

  /** The newest sample not after ts: the last of everything up to ts. */
  method ValueAtOrBeforeTime(values: seq<SamplePair>, ts: int) returns (p: SamplePair)
    requires IsStream(values)
    ensures p == LastOrZero(InInterval(values, EARLIEST, ts))
    ensures IsNewest(values, ts, p)
  {
    var i := Search(|values|, (n: int) requires 0 <= n < |values| => values[n].ts > ts);
    IntervalIsSlice(values, EARLIEST, ts, 0, i);
    NewestIsLast(values, ts, i);
    if i == 0 {
      return ZERO_SAMPLE_PAIR;
    }
    return values[i - 1];
  }

  /** The interval turned around so that the slice bounds cross: this is where Go panics. */
  predicate SlicePanics(values: seq<SamplePair>, lo: int, hi: int) {
    && (exists i :: 0 <= i < |values| && hi < values[i].ts < lo)
    && (exists i :: 0 <= i < |values| && lo <= values[i].ts)
  }

  /** In terms of the two searches: the first sample not before the interval exists and stands
      behind the first one after it. */
  lemma SlicePanicsIff(values: seq<SamplePair>, lo: int, hi: int, start: nat, end: nat)
    requires IsStream(values) && start <= |values| && end <= |values|
    requires start > 0 ==> values[start - 1].ts < lo
    requires start < |values| ==> values[start].ts >= lo
    requires end > 0 ==> values[end - 1].ts <= hi
    requires end < |values| ==> values[end].ts > hi
    ensures SlicePanics(values, lo, hi) <==> start < |values| && start > end
  {
    if SlicePanics(values, lo, hi) {
      var i :| 0 <= i < |values| && hi < values[i].ts < lo;
      assert end <= i < start;
    }
    if start < |values| && start > end {
      assert hi < values[end].ts < lo && lo <= values[start].ts;
    }
  }

  /** It happens: samples at 10 and 30 and the interval from 20 back to 5. */
  lemma BackwardsIntervalPanics()
    ensures var s := [SamplePair(10, 1.0), SamplePair(30, 3.0)]; IsStream(s) && SlicePanics(s, 20, 5)
  {
    var s := [SamplePair(10, 1.0), SamplePair(30, 3.0)];
    assert 5 < s[0].ts < 20 && 20 <= s[1].ts;
  }

  /** Exactly the samples of the interval. None stands for the slice bounds panic, which needs
      an interval whose end lies before its start. */
  method RangeValues(values: seq<SamplePair>, lo: int, hi: int) returns (r: Option<seq<SamplePair>>)
    requires IsStream(values)
    ensures r == if SlicePanics(values, lo, hi) then None else Some(InInterval(values, lo, hi))
    ensures lo <= hi ==> r.Some?
  {
    var n := |values|;
    var start := Search(n, (i: int) requires 0 <= i < n => !(values[i].ts < lo));
    var end := Search(n, (i: int) requires 0 <= i < n => values[i].ts > hi);
    if start == n {
      IntervalIsSlice(values, lo, hi, n, n);
      return Some([]);
    }
    if start > end {
      return None;
    }
    IntervalIsSlice(values, lo, hi, start, end);
    return Some(values[start..end]);
  }
}
