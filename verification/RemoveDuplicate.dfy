/** In-place duplicate removal over the array that is being read. */
module RemoveDuplicate {

  /** The first occurrence of each value, in order. */
  function FirstOccurrences(s: seq<string>): seq<string> {
    if s == [] then []
    else
      var before, x := s[..|s| - 1], s[|s| - 1];
      if x in before then FirstOccurrences(before) else FirstOccurrences(before) + [x]
  }

  /** Writes the kept values over the front of the array while ranging over it; the write
      index never passes the read index, so every value is still there when it is read. */
  method RemoveDuplicates(data: array<string>) returns (k: nat)
    modifies data
    ensures k <= data.Length
    ensures data[..k] == FirstOccurrences(old(data[..]))
    ensures data[k..] == old(data[k..])
  {
    hide FirstOccurrences;
    ghost var original := data[..];
    NoOccurrences(original);
    var seen: seq<string> := [];
    k := 0;
    for i := 0 to data.Length
      invariant k <= i
      invariant seen == data[..k] == FirstOccurrences(original[..i])
      invariant forall j :: k <= j < data.Length ==> data[j] == original[j]
    {
      var n := data[i];
      NextOccurrence(original, i);
      var known := false;
      for t := 0 to |seen|
        invariant known <==> n in seen[..t]
      {
        if n == seen[t] {
          known := true;
        }
      }
      assert seen[..|seen|] == seen;
      if !known {
        seen := seen + [n];
        data[k] := n;
        k := k + 1;
        assert data[..k] == data[..k - 1] + [n];
      }
    }
    assert original[..data.Length] == original;
  }

  lemma NoOccurrences(s: seq<string>)
    ensures FirstOccurrences(s[..0]) == []
  {
  }

  lemma NextOccurrence(s: seq<string>, i: nat)
    requires i < |s|
    ensures var before := FirstOccurrences(s[..i]);
            FirstOccurrences(s[..i + 1]) == if s[i] in before then before else before + [s[i]]
  {
    assert s[..i + 1][..i] == s[..i];
    SameValues(s[..i], s[i]);
  }

  lemma {:induction false} SameValues(s: seq<string>, x: string)
    ensures x in FirstOccurrences(s) <==> x in s
  {
    if s != [] {
      SameValues(s[..|s| - 1], x);
      assert s == s[..|s| - 1] + [s[|s| - 1]];
    }
  }

  /** No value is left twice. */
  lemma {:induction false} NoRepeats(s: seq<string>)
    ensures forall i, j :: 0 <= i < j < |FirstOccurrences(s)| ==> FirstOccurrences(s)[i] != FirstOccurrences(s)[j]
  {
    if s != [] {
      NoRepeats(s[..|s| - 1]);
      SameValues(s[..|s| - 1], s[|s| - 1]);
    }
  }

  predicate IsFirst(s: seq<string>, i: nat) {
    i < |s| && forall j :: 0 <= j < i ==> s[j] != s[i]
  }

  /** Values stand in the order in which they first occurred. */
  lemma {:induction false} KeepsOrder(s: seq<string>, i: nat, j: nat)
    requires IsFirst(s, i) && IsFirst(s, j) && i < j
    ensures exists a, b :: 0 <= a < b < |FirstOccurrences(s)|
              && FirstOccurrences(s)[a] == s[i] && FirstOccurrences(s)[b] == s[j]
    decreases |s|
  {
    var before, last := s[..|s| - 1], s[|s| - 1];
    var r := FirstOccurrences(before);
    if j < |s| - 1 {
      KeepsOrder(before, i, j);
      var a, b :| 0 <= a < b < |r| && r[a] == s[i] && r[b] == s[j];
      assert FirstOccurrences(s)[a] == s[i] && FirstOccurrences(s)[b] == s[j];
    } else {
      SameValues(before, s[i]);
      assert s[i] == before[i];
      var a :| 0 <= a < |r| && r[a] == s[i];
      assert FirstOccurrences(s) == r + [last];
      assert FirstOccurrences(s)[a] == s[i] && FirstOccurrences(s)[|r|] == s[j];
    }
  }

  /** Removing duplicates again changes nothing. */
  lemma {:induction false} Idempotent(s: seq<string>)
    ensures FirstOccurrences(FirstOccurrences(s)) == FirstOccurrences(s)
  {
    if s != [] {
      var before, x := s[..|s| - 1], s[|s| - 1];
      Idempotent(before);
      SameValues(before, x);
      if x !in before {
        var r := FirstOccurrences(before);
        assert (r + [x])[..|r|] == r;
      }
    }
  }
}
