/** Concurrent remotes of one query: they are all given the same matchers, and each appends its
    external labels to them. Go's append writes into the spare capacity of the shared backing
    array, and only copies once that is used up. */
module SharedMatchers {
  import opened Model

  /** One remote's addExternalLabels: the labels it adds, in the order its map yields them, how
      many it has appended, and from the first copy on its own array behind the user's matchers. */
  datatype Remote = Remote(order: seq<string>, done: nat, own: Option<seq<string>>)

  /** The spare slots behind the user's matchers, shared by the remotes. */
  datatype Slots = Slots(spare: seq<string>, remotes: seq<Remote>)

  predicate CanAppend(s: Slots, r: nat) {
    && r < |s.remotes|
    && s.remotes[r].done < |s.remotes[r].order|
    && (s.remotes[r].own.None? ==> s.remotes[r].done <= |s.spare|)
  }

  /** One append of remote r. */
  function AppendNext(s: Slots, r: nat): Slots
    requires CanAppend(s, r)
  {
    var m := s.remotes[r];
    var x := m.order[m.done];
    match m.own
    case Some(own) => s.(remotes := s.remotes[r := m.(done := m.done + 1, own := Some(own + [x]))])
    case None =>
      if m.done < |s.spare| then
        Slots(s.spare[m.done := x], s.remotes[r := m.(done := m.done + 1)])
      else
        s.(remotes := s.remotes[r := m.(done := m.done + 1, own := Some(s.spare + [x]))])
  }

  function Run(s: Slots, picks: seq<nat>): Option<Slots>
    decreases |picks|
  {
    if picks == [] then Some(s)
    else if CanAppend(s, picks[0]) then Run(AppendNext(s, picks[0]), picks[1..])
    else None
  }

  function Start(spare: seq<string>, orders: seq<seq<string>>): Slots {
    Slots(spare, seq(|orders|, r requires 0 <= r < |orders| => Remote(orders[r], 0, None)))
  }

  /** What remote r finds behind the user's matchers. */
  function Added(s: Slots, r: nat): seq<string>
    requires r < |s.remotes|
  {
    var m := s.remotes[r];
    if m.own.Some? then m.own.value
    else if m.done <= |s.spare| then s.spare[..m.done]
    else s.spare
  }

  predicate IsDone(s: Slots, r: nat) {
    r < |s.remotes| && s.remotes[r].done == |s.remotes[r].order|
  }

  /** Whatever the schedule, a remote that has appended its labels finds each of them, then and later. */
  ghost predicate EachKeepsItsOwn(spare: seq<string>, orders: seq<seq<string>>) {
    var s := Start(spare, orders);
    forall picks, r: nat | Run(s, picks).Some? && IsDone(Run(s, picks).value, r) ::
      KeepsItsOwn(orders, Run(s, picks).value, r)
  }

  predicate KeepsItsOwn(orders: seq<seq<string>>, s: Slots, r: nat) {
    r < |s.remotes| && r < |orders| ==> multiset(Added(s, r)) == multiset(orders[r])
  }

  /** The remotes' maps yield the labels in the same order as far as the spare slots go. */
  predicate SameStart(spare: seq<string>, orders: seq<seq<string>>) {
    forall j, k, i | 0 <= j < |orders| && 0 <= k < |orders| && 0 <= i < |spare|
                     && i < |orders[j]| && i < |orders[k]| :: orders[j][i] == orders[k][i]
  }

  predicate NoRepeats(s: seq<string>) {
    forall i, j :: 0 <= i < j < |s| ==> s[i] != s[j]
  }

  /** All remotes add the same labels, each once. */
  predicate SameLabels(orders: seq<seq<string>>) {
    && (forall j, k :: 0 <= j < |orders| && 0 <= k < |orders| ==> multiset(orders[j]) == multiset(orders[k]))
    && (forall j :: 0 <= j < |orders| ==> NoRepeats(orders[j]))
  }

  // ----- with the same start nothing is lost -----

  predicate RemoteOk(spare: seq<string>, m: Remote) {
    && m.done <= |m.order|
    && match m.own
       case Some(own) => own == m.order[..m.done]
       case None => m.done <= |spare| && spare[..m.done] == m.order[..m.done]
  }

  predicate AllOk(orders: seq<seq<string>>, s: Slots) {
    && |s.remotes| == |orders|
    && forall r :: 0 <= r < |orders| ==> s.remotes[r].order == orders[r] && RemoteOk(s.spare, s.remotes[r])
  }

  lemma AppendKeepsOk(orders: seq<seq<string>>, s: Slots, r: nat)
    requires AllOk(orders, s) && CanAppend(s, r) && SameStart(s.spare, orders)
    ensures AllOk(orders, AppendNext(s, r)) && |AppendNext(s, r).spare| == |s.spare|
  {
    var m := s.remotes[r];
    var next := AppendNext(s, r);
    assert m.order[..m.done + 1] == m.order[..m.done] + [m.order[m.done]];
    forall k | 0 <= k < |orders| ensures RemoteOk(next.spare, next.remotes[k]) {
      assert RemoteOk(s.spare, s.remotes[k]);
      if k != r && s.remotes[k].own.None? && m.own.None? && m.done < s.remotes[k].done {
        assert orders[k][m.done] == orders[r][m.done];
      }
    }
  }

  lemma {:induction false} RunKeepsOk(orders: seq<seq<string>>, s: Slots, picks: seq<nat>)
    requires AllOk(orders, s) && SameStart(s.spare, orders) && Run(s, picks).Some?
    ensures AllOk(orders, Run(s, picks).value)
    decreases |picks|
  {
    if picks != [] {
      AppendKeepsOk(orders, s, picks[0]);
      RunKeepsOk(orders, AppendNext(s, picks[0]), picks[1..]);
    }
  }

  lemma SameStartKeeps(spare: seq<string>, orders: seq<seq<string>>)
    requires SameStart(spare, orders)
    ensures EachKeepsItsOwn(spare, orders)
  {
    var s := Start(spare, orders);
    forall picks, r: nat | Run(s, picks).Some? && IsDone(Run(s, picks).value, r)
      ensures KeepsItsOwn(orders, Run(s, picks).value, r)
    {
      RunKeepsOk(orders, s, picks);
      var t := Run(s, picks).value;
      if r < |orders| {
        assert RemoteOk(t.spare, t.remotes[r]);
        assert orders[r][..|orders[r]|] == orders[r];
      }
    }
  }

  // ----- otherwise a label can be lost -----

  lemma {:induction false} RunConcat(s: Slots, a: seq<nat>, b: seq<nat>)
    requires Run(s, a).Some?
    ensures Run(s, a + b) == Run(Run(s, a).value, b)
    decreases |a|
  {
    if a == [] {
      assert a + b == b;
    } else {
      assert (a + b)[0] == a[0] && (a + b)[1..] == a[1..] + b;
      RunConcat(AppendNext(s, a[0]), a[1..], b);
    }
  }

  /** Only remote r and the slots have changed. */
  predicate OnlyMoved(s: Slots, t: Slots, r: nat) {
    |t.remotes| == |s.remotes| && forall k :: 0 <= k < |s.remotes| && k != r ==> t.remotes[k] == s.remotes[k]
  }

  /** Slots from..to have been overwritten with those labels of the order. */
  predicate Overlaid(before: seq<string>, after: seq<string>, order: seq<string>, from: nat, to: nat) {
    && |after| == |before|
    && forall x | 0 <= x < |before| ::
         after[x] == if from <= x < to && x < |order| then order[x] else before[x]
  }

  /** Appending n labels in a row within the spare slots. */
  lemma {:induction false} AppendInPlace(s: Slots, r: nat, n: nat) returns (picks: seq<nat>, t: Slots)
    requires r < |s.remotes| && s.remotes[r].own.None?
    requires s.remotes[r].done + n <= |s.remotes[r].order| && s.remotes[r].done + n <= |s.spare|
    ensures Run(s, picks) == Some(t) && OnlyMoved(s, t, r)
    ensures var (m, d) := (s.remotes[r], s.remotes[r].done);
            t.remotes[r] == m.(done := d + n) && Overlaid(s.spare, t.spare, m.order, d, d + n)
    decreases n
  {
    picks, t := [], s;
    if n > 0 {
      var next := AppendNext(s, r);
      var rest;
      rest, t := AppendInPlace(next, r, n - 1);
      picks := [r] + rest;
      assert picks[1..] == rest;
    }
  }

  /** Appending n labels to an array of one's own. */
  lemma {:induction false} AppendToOwn(s: Slots, r: nat, n: nat) returns (picks: seq<nat>, t: Slots)
    requires r < |s.remotes| && s.remotes[r].own.Some? && s.remotes[r].done + n <= |s.remotes[r].order|
    ensures Run(s, picks) == Some(t) && OnlyMoved(s, t, r)
    ensures var (m, d) := (s.remotes[r], s.remotes[r].done);
            t.remotes[r] == m.(done := d + n, own := Some(m.own.value + m.order[d..d + n]))
    decreases n
  {
    var (m, d) := (s.remotes[r], s.remotes[r].done);
    picks, t := [], s;
    if n == 0 {
      assert m.own.value + m.order[d..d + n] == m.own.value;
    } else {
      var next := AppendNext(s, r);
      var rest;
      rest, t := AppendToOwn(next, r, n - 1);
      picks := [r] + rest;
      assert picks[1..] == rest;
      assert m.own.value + [m.order[d]] + m.order[d + 1..d + n] == m.own.value + m.order[d..d + n];
    }
  }

  /** A remote that has filled the spare slots appends the rest of its labels to a copy. */
  lemma Finish(s: Slots, r: nat) returns (picks: seq<nat>, t: Slots)
    requires r < |s.remotes| && s.remotes[r].own.None?
    requires s.remotes[r].done <= |s.remotes[r].order| && s.remotes[r].done <= |s.spare|
    requires s.remotes[r].done == |s.spare| || s.remotes[r].done == |s.remotes[r].order|
    ensures Run(s, picks) == Some(t) && IsDone(t, r)
    ensures var (m, d) := (s.remotes[r], s.remotes[r].done);
            Added(t, r) == s.spare[..d] + m.order[d..]
  {
    var (m, d) := (s.remotes[r], s.remotes[r].done);
    picks, t := [], s;
    if d == |m.order| {
      assert s.spare[..d] + m.order[d..] == s.spare[..d];
    } else {
      var next := AppendNext(s, r);
      var rest;
      rest, t := AppendToOwn(next, r, |m.order| - d - 1);
      picks := [r] + rest;
      assert picks[1..] == rest;
      assert s.spare + [m.order[d]] + m.order[d + 1..|m.order|] == s.spare[..d] + m.order[d..];
    }
  }

  /** The slots after a remote has appended what fits and another has overwritten them up to i. */
  lemma MixedSlots(spare: seq<string>, x: seq<string>, y: seq<string>, a: seq<string>, b: seq<string>, m: nat, i: nat)
    requires Overlaid(spare, x, a, 0, m) && Overlaid(x, y, b, 0, i + 1)
    requires m <= |spare| && m <= |a| && i < m && i < |b|
    ensures y[..m] + a[m..] == b[..i + 1] + a[i + 1..]
  {
    var all := y[..m] + a[m..];
    var mixed := b[..i + 1] + a[i + 1..];
    assert |all| == |mixed| == |a|;
    forall p | 0 <= p < |a| ensures all[p] == mixed[p] {
    }
  }

  /** Remote j appends what fits, remote k overwrites the slots up to i, and j goes on. */
  lemma Overwrite(spare: seq<string>, orders: seq<seq<string>>, j: nat, k: nat, i: nat)
    returns (picks: seq<nat>, t: Slots)
    requires j < |orders| && k < |orders| && j != k && i < |spare| && i < |orders[j]| && i < |orders[k]|
    ensures Run(Start(spare, orders), picks) == Some(t) && IsDone(t, j)
    ensures Added(t, j) == orders[k][..i + 1] + orders[j][i + 1..]
  {
    hide Added, Overlaid;
    var s := Start(spare, orders);
    var a, b := orders[j], orders[k];
    var m := if |a| <= |spare| then |a| else |spare|;
    var first, x := AppendInPlace(s, j, m);
    var second, y := AppendInPlace(x, k, i + 1);
    var third;
    third, t := Finish(y, j);
    picks := first + (second + third);
    RunConcat(s, first, second + third);
    RunConcat(x, second, third);
    MixedSlots(spare, x.spare, y.spare, a, b, m, i);
  }

  /** Up to their first difference two orders are the same. */
  lemma {:induction false} FirstDifference(a: seq<string>, b: seq<string>, i: nat) returns (d: nat)
    requires i < |a| && i < |b| && a[i] != b[i]
    ensures d <= i && a[d] != b[d] && a[..d] == b[..d]
  {
    d := i;
    if e :| 0 <= e < i && a[e] != b[e] {
      d := FirstDifference(a, b, e);
    }
  }

  lemma OverwriteLoses(a: seq<string>, b: seq<string>, i: nat)
    requires i < |a| && i < |b| && a[..i] == b[..i] && a[i] != b[i] && NoRepeats(a)
    ensures a[i] !in b[..i + 1] + a[i + 1..]
  {
    var mixed := b[..i + 1] + a[i + 1..];
    forall x | 0 <= x < |mixed| ensures mixed[x] != a[i] {
      if x < i {
        assert mixed[x] == b[..i][x] == a[..i][x] == a[x];
      }
    }
  }

  lemma OtherwiseLoses(spare: seq<string>, orders: seq<seq<string>>, j: nat, k: nat, i: nat)
    requires SameLabels(orders) && j < |orders| && k < |orders| && i < |spare|
    requires i < |orders[j]| && i < |orders[k]| && orders[j][i] != orders[k][i]
    ensures !EachKeepsItsOwn(spare, orders)
  {
    var d := FirstDifference(orders[j], orders[k], i);
    var picks, t := Overwrite(spare, orders, j, k, d);
    OverwriteLoses(orders[j], orders[k], d);
    assert orders[j][d] in multiset(orders[j]);
    assert orders[j][d] !in multiset(Added(t, j));
    assert !KeepsItsOwn(orders, t, j);
  }

  /** For remotes that add the same labels, each in the order its map happens to yield: every
      remote keeps all of its matchers under every schedule exactly if the orders agree as far
      as the spare slots go. Else some schedule has a remote ask without one of its labels. */
  lemma EachKeepsItsOwnIff(spare: seq<string>, orders: seq<seq<string>>)
    requires SameLabels(orders)
    ensures EachKeepsItsOwn(spare, orders) <==> SameStart(spare, orders)
  {
    if SameStart(spare, orders) {
      SameStartKeeps(spare, orders);
    } else {
      var j, k, i :| 0 <= j < |orders| && 0 <= k < |orders| && 0 <= i < |spare|
                     && i < |orders[j]| && i < |orders[k]| && orders[j][i] != orders[k][i];
      OtherwiseLoses(spare, orders, j, k, i);
    }
  }

  /** So whatever orders the maps yield, nothing is lost without spare capacity, with at most one
      label to add, or with a single remote. */
  lemma AlwaysSafe(spare: seq<string>, orders: seq<seq<string>>)
    requires SameLabels(orders)
    requires spare == [] || |orders| <= 1 || forall r :: 0 <= r < |orders| ==> |orders[r]| <= 1
    ensures EachKeepsItsOwn(spare, orders)
  {
    forall j, k, i | 0 <= j < |orders| && 0 <= k < |orders| && 0 <= i < |spare|
                     && i < |orders[j]| && i < |orders[k]|
      ensures orders[j][i] == orders[k][i]
    {
      if j != k {
        OnlyLabel(orders[j], orders[k]);
      }
    }
    hide EachKeepsItsOwn, SameLabels;
    EachKeepsItsOwnIff(spare, orders);
  }

  lemma OnlyLabel(a: seq<string>, b: seq<string>)
    requires multiset(a) == multiset(b) && |a| == 1 == |b|
    ensures a[0] == b[0]
  {
    assert a[0] in multiset(b);
  }

  /** And with a spare slot, two labels and two remotes there are orders and a schedule that lose one. */
  lemma TwoLabelsCanLose(spare: seq<string>, a: string, b: string)
    requires spare != [] && a != b
    ensures SameLabels([[a, b], [b, a]]) && !EachKeepsItsOwn(spare, [[a, b], [b, a]])
  {
    var orders := [[a, b], [b, a]];
    assert multiset([a, b]) == multiset([b, a]);
    assert orders[0][0] != orders[1][0];
    EachKeepsItsOwnIff(spare, orders);
  }
}
