/** Where the samples appended to the writer go: to every queue of the configuration in use, once. */
module WriterAppends {
  import opened Model
  import opened QueueProtocol
  import opened WriterProtocol

  /** The samples of appends under way that have not reached queue i. */
  function Behind(fl: seq<InFlight>, i: nat): seq<Sample> {
    if fl == [] then [] else Owed(fl[0], i) + Behind(fl[1..], i)
  }

  function Owed(a: InFlight, i: nat): seq<Sample> {
    if a.next <= i then [a.sample] else []
  }

  /** Queue i of pool e has been handed every sample offered to the pool exactly once, except for
      those of appends under way that are still before it. */
  predicate ReachedAt(w: WriterState, e: nat, i: nat)
    requires InPool(w, e, i) && e < |w.offered|
  {
    var behind := if e == |w.epochs| - 1 then Behind(w.inFlight, i) else [];
    multiset(w.epochs[e][i].state.appended) + multiset(behind) == multiset(w.offered[e])
  }

  ghost predicate Reached(w: WriterState) {
    forall e: nat, i: nat | InPool(w, e, i) && e < |w.offered| :: ReachedAt(w, e, i)
  }

  lemma AppendedGrows(c: Config, s: State, act: Action)
    requires ValidConfig(c) && Enabled(c, s, act)
    ensures Apply(c, s, act).appended == s.appended + if act.Append? then [act.sample] else []
  {
    hide Proposed, NextIntegral;
  }

  lemma {:induction false} BehindBegins(fl: seq<InFlight>, x: Sample, i: nat)
    ensures Behind(fl + [InFlight(x, 0)], i) == Behind(fl, i) + [x]
  {
    var more := fl + [InFlight(x, 0)];
    if fl == [] {
      assert more[1..] == [];
    } else {
      BehindBegins(fl[1..], x, i);
      assert more[0] == fl[0] && more[1..] == fl[1..] + [InFlight(x, 0)];
    }
  }

  /** The sample that queue i is handed, if it is the next one. */
  function Handed(a: InFlight, i: nat): multiset<Sample> {
    if a.next == i then multiset{a.sample} else multiset{}
  }

  lemma OwedAdvances(a: InFlight, i: nat)
    ensures multiset(Owed(a, i)) == multiset(Owed(a.(next := a.next + 1), i)) + Handed(a, i)
  {
  }

  lemma OwedFirst(fl: seq<InFlight>, i: nat)
    requires fl != []
    ensures multiset(Behind(fl, i)) == multiset(Owed(fl[0], i)) + multiset(Behind(fl[1..], i))
  {
    assert Behind(fl, i) == Owed(fl[0], i) + Behind(fl[1..], i);
  }

  lemma LeftSum(h: multiset<Sample>, h': multiset<Sample>, t: multiset<Sample>, d: multiset<Sample>)
    requires h == h' + d
    ensures h + t == (h' + t) + d && t + h == (t + h') + d
  {
  }

  lemma {:induction false} BehindAdvances(fl: seq<InFlight>, k: nat, i: nat)
    requires k < |fl|
    ensures multiset(Behind(fl, i)) == multiset(Behind(Advance(fl, k), i)) + Handed(fl[k], i)
  {
    hide Behind, Owed, Handed;
    var next := Advance(fl, k);
    OwedFirst(fl, i);
    OwedFirst(next, i);
    var head, tail := multiset(Owed(fl[0], i)), multiset(Behind(fl[1..], i));
    if k == 0 {
      assert next[1..] == fl[1..];
      OwedAdvances(fl[0], i);
      LeftSum(head, multiset(Owed(next[0], i)), tail, Handed(fl[k], i));
    } else {
      BehindAdvances(fl[1..], k - 1, i);
      assert next[1..] == Advance(fl[1..], k - 1);
      LeftSum(tail, multiset(Behind(next[1..], i)), head, Handed(fl[k], i));
    }
  }

  lemma {:induction false} BehindEnds(fl: seq<InFlight>, k: nat, i: nat)
    requires k < |fl| && fl[k].next > i
    ensures Behind(fl[..k] + fl[k + 1..], i) == Behind(fl, i)
  {
    var rest := fl[..k] + fl[k + 1..];
    if k == 0 {
      assert rest == fl[1..];
    } else {
      BehindEnds(fl[1..], k - 1, i);
      assert rest[0] == fl[0] && rest[1..] == fl[1..][..k - 1] + fl[1..][k..];
    }
  }

  lemma BeginReaches(w: WriterState, x: Sample)
    requires LockOk(w) && Reached(w) && WriterEnabled(w, BeginAppend(x))
    ensures Reached(WriterApply(w, BeginAppend(x)))
  {
    hide Enabled, Apply;
    var w' := WriterApply(w, BeginAppend(x));
    forall e: nat, i: nat | InPool(w', e, i) && e < |w'.offered| ensures ReachedAt(w', e, i) {
      assert InPool(w, e, i) && ReachedAt(w, e, i);
      BehindBegins(w.inFlight, x, i);
    }
  }

  lemma EndReachesAt(w: WriterState, w': WriterState, k: nat, e: nat, i: nat)
    requires LockOk(w) && InPool(w, e, i) && ReachedAt(w, e, i)
    requires k < |w.inFlight| && w.inFlight[k].next >= |Current(w)|
    requires w' == w.(inFlight := w.inFlight[..k] + w.inFlight[k + 1..])
    ensures ReachedAt(w', e, i)
  {
    if e == |w.epochs| - 1 {
      BehindEnds(w.inFlight, k, i);
    }
  }

  lemma EndReaches(w: WriterState, k: nat)
    requires LockOk(w) && Reached(w) && WriterEnabled(w, EndAppend(k))
    ensures Reached(WriterApply(w, EndAppend(k)))
  {
    hide Enabled, Apply, ReachedAt;
    var w' := WriterApply(w, EndAppend(k));
    forall e: nat, i: nat | InPool(w', e, i) && e < |w'.offered| ensures ReachedAt(w', e, i) {
      assert InPool(w, e, i);
      EndReachesAt(w, w', k, e, i);
    }
  }

  /** One queue has moved; what it was handed has changed only if it was an append. */
  lemma ActAppended(w: WriterState, i: nat, act: Action, e: nat, j: nat)
    requires w.epochs != [] && CanAct(w, |w.epochs| - 1, i, act) && InPool(w, e, j)
    ensures var w' := Act(w, |w.epochs| - 1, i, act);
            && InPool(w', e, j) && |w'.epochs| == |w.epochs|
            && w'.epochs[e][j].state.appended
               == w.epochs[e][j].state.appended
                  + if e == |w.epochs| - 1 && j == i && act.Append? then [act.sample] else []
  {
    var m := w.epochs[|w.epochs| - 1][i];
    AppendedGrows(m.cfg, m.state, act);
    hide Enabled, Apply;
  }

  lemma NextReachesAt(w: WriterState, w': WriterState, k: nat, e: nat, i: nat)
    requires LockOk(w) && InPool(w, e, i) && ReachedAt(w, e, i) && k < |w.inFlight|
    requires InPool(w', e, i) && |w'.epochs| == |w.epochs| && w'.offered == w.offered
    requires w'.inFlight == Advance(w.inFlight, k)
    requires w'.epochs[e][i].state.appended
             == w.epochs[e][i].state.appended
                + if e == |w.epochs| - 1 && i == w.inFlight[k].next then [w.inFlight[k].sample] else []
    ensures ReachedAt(w', e, i)
  {
    hide Advance;
    BehindAdvances(w.inFlight, k, i);
  }

  lemma NextReaches(w: WriterState, k: nat, meets: bool)
    requires LockOk(w) && Reached(w) && WriterEnabled(w, AppendNext(k, meets))
    ensures Reached(WriterApply(w, AppendNext(k, meets)))
  {
    hide Enabled, Apply, ReachedAt, Advance;
    var (n, x) := (w.inFlight[k].next, w.inFlight[k].sample);
    var moved := Act(w, |w.epochs| - 1, n, Append(x, meets));
    var w' := WriterApply(w, AppendNext(k, meets));
    assert w' == moved.(inFlight := Advance(w.inFlight, k));
    forall e: nat, i: nat | InPool(w', e, i) && e < |w'.offered| ensures ReachedAt(w', e, i) {
      assert InPool(w, e, i);
      ActAppended(w, n, Append(x, meets), e, i);
      NextReachesAt(w, w', k, e, i);
    }
  }

  lemma SameReachesAt(w: WriterState, w': WriterState, e: nat, i: nat)
    requires InPool(w, e, i) && e < |w.offered| && ReachedAt(w, e, i)
    requires InPool(w', e, i) && |w'.epochs| == |w.epochs|
    requires w'.epochs[e][i].state.appended == w.epochs[e][i].state.appended
    requires w'.offered == w.offered && w'.inFlight == w.inFlight
    ensures ReachedAt(w', e, i)
  {
  }

  /** Any other action of a queue of the last pool. */
  lemma MoveReaches(w: WriterState, i: nat, act: Action, w': WriterState)
    requires LockOk(w) && Reached(w) && w.epochs != [] && CanAct(w, |w.epochs| - 1, i, act) && !act.Append?
    requires w'.epochs == Act(w, |w.epochs| - 1, i, act).epochs
    requires w'.offered == w.offered && w'.inFlight == w.inFlight
    ensures Reached(w')
  {
    hide Enabled, Apply, ReachedAt;
    forall e: nat, j: nat | InPool(w', e, j) && e < |w'.offered| ensures ReachedAt(w', e, j) {
      assert InPool(w, e, j);
      ActAppended(w, i, act, e, j);
      SameReachesAt(w, w', e, j);
    }
  }

  lemma ReplaceReaches(w: WriterState)
    requires LockOk(w) && Reached(w) && WriterEnabled(w, ReplaceQueues)
    ensures Reached(WriterApply(w, ReplaceQueues))
  {
    hide Enabled, Apply;
    var w' := WriterApply(w, ReplaceQueues);
    forall e: nat, i: nat | InPool(w', e, i) && e < |w'.offered| ensures ReachedAt(w', e, i) {
      if e < |w.epochs| {
        assert InPool(w, e, i) && ReachedAt(w, e, i);
      } else {
        assert w'.epochs[e][i].state == Init();
      }
    }
  }

  lemma SameReaches(w: WriterState, w': WriterState)
    requires Reached(w) && w'.epochs == w.epochs && w'.offered == w.offered && w'.inFlight == w.inFlight
    ensures Reached(w')
  {
    forall e: nat, i: nat | InPool(w', e, i) && e < |w'.offered| ensures ReachedAt(w', e, i) {
      assert InPool(w, e, i) && ReachedAt(w, e, i);
    }
  }

  lemma StepReaches(w: WriterState, a: WriterAction)
    requires WriterInv(w) && Reached(w) && WriterEnabled(w, a)
    ensures Reached(WriterApply(w, a))
  {
    hide PoolsOk, WireComplete, WireOrdered, Reached, Enabled, Apply;
    match a
    case QueueMoves(e, i, act) =>
      QueueMovesKeepsInv(w, e, i, act);
      MoveReaches(w, i, act, WriterApply(w, a));
    case BeginAppend(x) => BeginReaches(w, x);
    case AppendNext(k, meets) => NextReaches(w, k, meets);
    case EndAppend(k) => EndReaches(w, k);
    case StopNext => MoveReaches(w, w.pc.i, CallStop, WriterApply(w, a));
    case StartNext => MoveReaches(w, w.pc.i, CallStart, WriterApply(w, a));
    case ReplaceQueues => ReplaceReaches(w);
    case _ => SameReaches(w, WriterApply(w, a));
  }

  lemma {:induction false} RunReaches(w: WriterState, acts: seq<WriterAction>)
    requires WriterInv(w) && Reached(w) && WriterRun(w, acts).Some?
    ensures WriterInv(WriterRun(w, acts).value) && Reached(WriterRun(w, acts).value)
    decreases |acts|
  {
    hide WriterInv, Reached, WriterEnabled, WriterApply;
    if acts != [] {
      WriterStepKeepsInv(w, acts[0]);
      StepReaches(w, acts[0]);
      RunReaches(WriterApply(w, acts[0]), acts[1..]);
    }
  }

  /** Over every run: each queue has been handed every sample that was appended to the writer while
      the queue's configuration was in use exactly once, but for appends under way that have not
      come to it yet; and once the configuration is replaced, there are none. */
  lemma EverySampleReachesEveryQueue(acts: seq<WriterAction>, e: nat, i: nat)
    requires WriterRun(InitWriter(), acts).Some? && InPool(WriterRun(InitWriter(), acts).value, e, i)
    ensures var w := WriterRun(InitWriter(), acts).value;
            && |w.offered| == |w.epochs|
            && multiset(w.epochs[e][i].state.appended)
               + multiset(if e == |w.epochs| - 1 then Behind(w.inFlight, i) else [])
               == multiset(w.offered[e])
  {
    RunReaches(InitWriter(), acts);
    assert ReachedAt(WriterRun(InitWriter(), acts).value, e, i);
  }
}
