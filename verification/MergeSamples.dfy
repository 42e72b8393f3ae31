/** mergeSamples: the left-biased union of two sorted sample lists. */
module MergeSamples {
  import opened Model
  import opened SampleStream

  function Merge(a: seq<SamplePair>, b: seq<SamplePair>): seq<SamplePair> {
    if a == [] then b
    else if b == [] then a
    else if a[0].ts < b[0].ts then [a[0]] + Merge(a[1..], b)
    else if a[0].ts > b[0].ts then [b[0]] + Merge(a, b[1..])
    else [a[0]] + Merge(a[1..], b[1..])
  }

  /** The two-index loop, for any two lists. */
  method MergeLists(a: seq<SamplePair>, b: seq<SamplePair>) returns (result: seq<SamplePair>)
    ensures result == Merge(a, b)
  {
    result := [];
    var i, j := 0, 0;
    assert a[0..] == a && b[0..] == b;
    while i < |a| && j < |b|
      invariant i <= |a| && j <= |b|
      invariant result + Merge(a[i..], b[j..]) == Merge(a, b)
      decreases |a| - i + |b| - j
    {
      MergeHeads(a, b, i, j);
      Regroup(result, [if b[j].ts < a[i].ts then b[j] else a[i]], Merge(a[i..], b[j..])[1..]);
      if a[i].ts < b[j].ts {
        result := result + [a[i]];
        i := i + 1;
      } else if a[i].ts > b[j].ts {
        result := result + [b[j]];
        j := j + 1;
      } else {
        result := result + [a[i]];
        i := i + 1;
        j := j + 1;
      }
    }
    result := result + a[i..];
    result := result + b[j..];
  }

  lemma MergeHeads(a: seq<SamplePair>, b: seq<SamplePair>, i: nat, j: nat)
    requires i < |a| && j < |b|
    ensures var m := Merge(a[i..], b[j..]);
            && m != []
            && m[0] == (if b[j].ts < a[i].ts then b[j] else a[i])
            && m == [m[0]] + m[1..]
            && m[1..] == (if a[i].ts < b[j].ts then Merge(a[i + 1..], b[j..])
                          else if a[i].ts > b[j].ts then Merge(a[i..], b[j + 1..])
                          else Merge(a[i + 1..], b[j + 1..]))
  {
    assert a[i..][1..] == a[i + 1..] && b[j..][1..] == b[j + 1..];
  }

  /** As maps, merging is union with the left value on a tie. */
  lemma {:induction false} MergeAt(a: seq<SamplePair>, b: seq<SamplePair>, t: int)
    requires Sorted(a) && Sorted(b)
    ensures At(Merge(a, b), t) == if At(a, t).Some? then At(a, t) else At(b, t)
    decreases |a| + |b|
  {
    if a != [] && b != [] {
      if a[0].ts < b[0].ts {
        MergeAt(a[1..], b, t);
        if t == a[0].ts { AtBelowFirst(b, t); }
      } else if a[0].ts > b[0].ts {
        MergeAt(a, b[1..], t);
        if t == b[0].ts { AtBelowFirst(a, t); }
      } else {
        MergeAt(a[1..], b[1..], t);
      }
    }
  }

  lemma {:induction false} MergeBounded(a: seq<SamplePair>, b: seq<SamplePair>, low: int)
    requires forall i :: 0 <= i < |a| ==> low < a[i].ts
    requires forall i :: 0 <= i < |b| ==> low < b[i].ts
    ensures forall i :: 0 <= i < |Merge(a, b)| ==> low < Merge(a, b)[i].ts
    decreases |a| + |b|
  {
    if a != [] && b != [] {
      if a[0].ts < b[0].ts { MergeBounded(a[1..], b, low); }
      else if a[0].ts > b[0].ts { MergeBounded(a, b[1..], low); }
      else { MergeBounded(a[1..], b[1..], low); }
    }
  }

  lemma {:induction false} MergeSorted(a: seq<SamplePair>, b: seq<SamplePair>)
    requires Sorted(a) && Sorted(b)
    ensures Sorted(Merge(a, b))
    decreases |a| + |b|
  {
    if a != [] && b != [] {
      if a[0].ts < b[0].ts {
        MergeSorted(a[1..], b);
        MergeBounded(a[1..], b, a[0].ts);
      } else if a[0].ts > b[0].ts {
        MergeSorted(a, b[1..]);
        MergeBounded(a, b[1..], b[0].ts);
      } else {
        MergeSorted(a[1..], b[1..]);
        MergeBounded(a[1..], b[1..], a[0].ts);
      }
    }
  }

  /** Merging does not depend on grouping. */
  lemma {:induction false} MergeAssociative(a: seq<SamplePair>, b: seq<SamplePair>, c: seq<SamplePair>)
    requires Sorted(a) && Sorted(b) && Sorted(c)
    ensures Merge(Merge(a, b), c) == Merge(a, Merge(b, c))
  {
    var left, right := Merge(Merge(a, b), c), Merge(a, Merge(b, c));
    MergeSorted(a, b);
    MergeSorted(b, c);
    MergeSorted(Merge(a, b), c);
    MergeSorted(a, Merge(b, c));
    forall t ensures At(left, t) == At(right, t) {
      MergeAt(a, b, t);
      MergeAt(b, c, t);
      MergeAt(Merge(a, b), c, t);
      MergeAt(a, Merge(b, c), t);
    }
    SortedExtensional(left, right);
  }

  /** Repeating a list or merging with an empty one changes nothing. */
  lemma {:induction false} MergeIdempotent(a: seq<SamplePair>)
    requires Sorted(a)
    ensures Merge(a, a) == a && Merge(a, []) == a && Merge([], a) == a
  {
    MergeSorted(a, a);
    forall t ensures At(Merge(a, a), t) == At(a, t) {
      MergeAt(a, a, t);
    }
    SortedExtensional(Merge(a, a), a);
  }

  /** The two lists agree wherever both have a sample. */
  ghost predicate Agree(a: seq<SamplePair>, b: seq<SamplePair>) {
    forall t :: At(a, t).Some? && At(b, t).Some? ==> At(a, t) == At(b, t)
  }

  /** The order of the two lists matters exactly where they disagree. */
  lemma {:induction false} MergeCommutesIff(a: seq<SamplePair>, b: seq<SamplePair>)
    requires Sorted(a) && Sorted(b)
    ensures Merge(a, b) == Merge(b, a) <==> Agree(a, b)
  {
    MergeSorted(a, b);
    MergeSorted(b, a);
    forall t
      ensures At(Merge(a, b), t) == if At(a, t).Some? then At(a, t) else At(b, t)
      ensures At(Merge(b, a), t) == if At(b, t).Some? then At(b, t) else At(a, t)
    {
      MergeAt(a, b, t);
      MergeAt(b, a, t);
    }
    if Agree(a, b) {
      SortedExtensional(Merge(a, b), Merge(b, a));
    }
  }

  /** The newer of two samples, the left one on a tie. */
  function Newer(x: SamplePair, y: SamplePair): SamplePair {
    if y.ts > x.ts then y else x
  }

  lemma LastOfTail(s: seq<SamplePair>)
    requires |s| > 1
    ensures LastOrZero(s[1..]) == LastOrZero(s)
  {
  }

  lemma LastOfCons(x: SamplePair, s: seq<SamplePair>)
    requires s != []
    ensures LastOrZero([x] + s) == LastOrZero(s)
  {
  }

  lemma LastIsMax(s: seq<SamplePair>)
    requires Sorted(s) && s != []
    ensures s[0].ts <= LastOrZero(s).ts
    ensures |s| > 1 ==> s[0].ts < LastOrZero(s).ts
  {
  }

  /** The newest sample of a merge is the newer of the two newest. */
  lemma {:induction false} MergeLast(a: seq<SamplePair>, b: seq<SamplePair>)
    requires Sorted(a) && Sorted(b) && a != [] && b != []
    ensures Merge(a, b) != [] && LastOrZero(Merge(a, b)) == Newer(LastOrZero(a), LastOrZero(b))
    decreases |a| + |b|, 1
  {
    LastIsMax(a);
    LastIsMax(b);
    if a[0].ts < b[0].ts {
      if |a| > 1 {
        MergeLast(a[1..], b);
        LastOfTail(a);
      }
      LastOfCons(a[0], Merge(a[1..], b));
    } else if a[0].ts > b[0].ts {
      if |b| > 1 {
        MergeLast(a, b[1..]);
        LastOfTail(b);
      }
      LastOfCons(b[0], Merge(a, b[1..]));
    } else {
      MergeLastTie(a, b);
    }
  }

  lemma MergeLastTie(a: seq<SamplePair>, b: seq<SamplePair>)
    requires Sorted(a) && Sorted(b) && a != [] && b != [] && a[0].ts == b[0].ts
    ensures LastOrZero(Merge(a, b)) == Newer(LastOrZero(a), LastOrZero(b))
    decreases |a| + |b|, 0
  {
    LastIsMax(a);
    LastIsMax(b);
    if |a| > 1 { LastOfTail(a); }
    if |b| > 1 { LastOfTail(b); }
    if |a| > 1 && |b| > 1 {
      MergeLast(a[1..], b[1..]);
    }
    if |a| > 1 || |b| > 1 {
      LastOfCons(a[0], Merge(a[1..], b[1..]));
    }
  }
}
