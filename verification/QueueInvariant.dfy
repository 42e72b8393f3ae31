/** The inductive invariant of the write queue, and its proof action by action. */
module QueueInvariant {
  import opened Model
  import opened ShardMachine
  import opened QueueProtocol
  import opened Ewma

  /** Every sample a shard holds was routed to it by its fingerprint. */
  predicate Routed(c: Config, held: seq<Sample>, k: nat, n: nat)
    requires k < n
  {
    forall x :: x in held ==> Fp(c, x) % n == k
  }

  predicate ShardOk(c: Config, sh: Shard, k: nat, n: nat, started: nat, closed: nat)
    requires k < n
  {
    && ShardInv(c, sh)
    && Routed(c, sh.Held(), k, n)
    && (sh.phase.NotStarted? <==> k >= started)
    && (sh.closed <==> k < closed)
  }

  /** The goroutines of the first `started` shards run and the first `closed` channels are closed. */
  predicate GenOk(c: Config, g: Generation, started: nat, closed: nat) {
    forall k :: 0 <= k < |g| ==> ShardOk(c, g[k], k, |g|, started, closed)
  }

  function LiveStarted(s: State): nat {
    match s.reshard
    case NotLaunched => 0
    case Closing(_) => 0
    case Launching(j) => j
    case _ => |s.live|
  }

  function LiveClosed(s: State): nat {
    match s.stop
    case Draining(i) => i
    case Stopped => |s.live|
    case _ => 0
  }

  function RetiringClosed(s: State): nat {
    if s.reshard.Closing? then s.reshard.nextChannel else 0
  }

  /** The count the controller believes in, once a handed count is recorded. */
  function Target(s: State): int {
    if s.handed.Some? then s.handed.value else s.numShards
  }

  predicate Control(c: Config, s: State) {
    && (s.reshard.Closing? ==> s.reshard.nextChannel <= |s.retiring|)
    && (!s.reshard.Closing? ==> s.retiring == [])
    && (s.reshard.Launching? ==> s.reshard.nextShard <= |s.live|)
    && (s.reshard.NotLaunched? ==> s.stop.NotStopping? && !s.updateRunning && |s.live| == 1)
    && (s.reshard.LoopDone? ==> !s.stop.NotStopping?)
    && (s.stop.NotStopping? && !s.reshard.NotLaunched? ==> s.updateRunning)
    && (s.stop.Draining? ==> s.stop.nextClose <= |s.live|)
    && (s.stop.Draining? || s.stop.Stopped? ==> s.reshard.LoopDone? && !s.updateRunning)
    && (s.stop.Stopped? ==> AllExited(s.live))
    && (s.handed.Some? ==> s.updateRunning && s.pass.Resting?)
    && (!s.pass.Resting? ==> s.updateRunning)
    && (s.reshard.Received? ==> s.reshard.count == Target(s))
    && (!s.reshard.Received? ==> |s.live| == Target(s))
    && Target(s) <= c.maxShards && |s.live| <= c.maxShards
  }

  predicate Gens(c: Config, s: State) {
    && GenOk(c, s.live, LiveStarted(s), LiveClosed(s))
    && GenOk(c, s.retiring, |s.retiring|, RetiringClosed(s))
  }

  /** The samples of one series a generation holds, oldest first: they all sit in one shard. */
  function GenSeries(c: Config, g: Generation, f: nat): seq<Sample> {
    if |g| == 0 then [] else Series(c, g[f % |g|].Held(), f)
  }

  /** Per-series order: finished, then the retiring generation, then the live one. */
  ghost predicate Order(c: Config, s: State) {
    forall f: nat :: OrderOf(c, s, f)
  }

  predicate OrderOf(c: Config, s: State, f: nat) {
    Series(c, Samples(s.finished), f) + GenSeries(c, s.retiring, f) + GenSeries(c, s.live, f)
    == Series(c, s.accepted, f)
  }

  /** What relabelling lets through, in order of arrival. */
  function Survivors(c: Config, xs: seq<Sample>): seq<Sample> {
    if xs == [] then []
    else
      var before := Survivors(c, xs[..|xs| - 1]);
      match Relabelled(c, xs[|xs| - 1])
      case None => before
      case Some(y) => before + [y]
  }

  /** Survivors are the relabelled samples, no more and no less. */
  lemma {:induction false} SurvivorsAre(c: Config, xs: seq<Sample>, y: Sample)
    ensures y in Survivors(c, xs) <==> exists i :: 0 <= i < |xs| && Relabelled(c, xs[i]) == Some(y)
  {
    if xs != [] {
      var before, last := xs[..|xs| - 1], xs[|xs| - 1];
      SurvivorsAre(c, before, y);
      assert forall i :: 0 <= i < |before| ==> before[i] == xs[i];
      if y in Survivors(c, before) {
        var i :| 0 <= i < |before| && Relabelled(c, before[i]) == Some(y);
        assert Relabelled(c, xs[i]) == Some(y);
      }
    }
  }

  predicate Ledger(c: Config, s: State) {
    && multiset(Survivors(c, s.appended)) == multiset(s.accepted) + multiset(s.overflowed)
    && |s.appended| == s.relabelDropped + |s.accepted| + |s.overflowed|
    && Total(s.meters.samplesIn) == |s.accepted| + |s.overflowed|
    && Total(s.meters.samplesOut) == |s.finished|
  }

  ghost predicate Inv(c: Config, s: State) {
    !s.crashed ==> Control(c, s) && Gens(c, s) && Order(c, s) && Ledger(c, s)
  }

  // ----- shards -----

  lemma FreshOk(c: Config, n: nat)
    ensures GenOk(c, Fresh(n), 0, 0)
    ensures forall f: nat :: GenSeries(c, Fresh(n), f) == []
  {
    forall f: nat ensures GenSeries(c, Fresh(n), f) == [] {
      if n > 0 {
        assert Fresh(n)[f % n] == EmptyShard;
        assert EmptyShard.Held() == [];
      }
    }
  }

  lemma ExitedHoldNothing(c: Config, g: Generation, started: nat, closed: nat)
    requires GenOk(c, g, started, closed) && AllExited(g)
    ensures forall f: nat :: GenSeries(c, g, f) == []
  {
    forall f: nat ensures GenSeries(c, g, f) == [] {
      if |g| > 0 {
        assert ShardOk(c, g[f % |g|], f % |g|, |g|, started, closed);
        assert g[f % |g|].Held() == [];
      }
    }
  }

  lemma GenShardStepOk(c: Config, g: Generation, started: nat, closed: nat, k: nat, a: ShardAction)
    requires ValidConfig(c) && GenOk(c, g, started, closed) && ShardCanMove(g, k, a)
    ensures var step := ShardApply(c, g[k], a);
            GenOk(c, g[k := step.next], started, closed) && Routed(c, Samples(step.sent), k, |g|)
  {
    var step := ShardApply(c, g[k], a);
    assert ShardOk(c, g[k], k, |g|, started, closed);
    StepKeepsShardInv(c, g[k], a);
    StepKeepsOrder(c, g[k], a);
    forall x | x in Samples(step.sent) || x in step.next.Held() ensures Fp(c, x) % |g| == k {
      assert x in Samples(step.sent) + step.next.Held();
    }
    assert ShardOk(c, step.next, k, |g|, started, closed);
  }

  /** A shard step keeps its generation in order and moves exactly what it sent. */
  lemma GenShardStep(c: Config, g: Generation, k: nat, a: ShardAction, f: nat)
    requires ValidConfig(c) && ShardCanMove(g, k, a)
    requires Routed(c, Samples(ShardApply(c, g[k], a).sent), k, |g|)
    ensures var step := ShardApply(c, g[k], a);
            Series(c, Samples(step.sent), f) + GenSeries(c, g[k := step.next], f) == GenSeries(c, g, f)
  {
    var step := ShardApply(c, g[k], a);
    var sent := Samples(step.sent);
    if f % |g| == k {
      StepKeepsOrder(c, g[k], a);
      SeriesConcat(c, sent, step.next.Held(), f);
    } else {
      SeriesOfOthers(c, sent, f);
    }
  }

  /** Accepting a sample appends it to its own series and touches no other. */
  lemma GenEnqueue(c: Config, g: Generation, started: nat, closed: nat, x: Sample, meets: bool)
    requires ValidConfig(c) && GenOk(c, g, started, closed) && |g| > 0
    requires var sh := g[Fp(c, x) % |g|];
             !sh.closed && (meets ==> CanMeet(c, sh)) && Offer(c, sh, x, meets).Some?
    ensures var k := Fp(c, x) % |g|;
            var g' := g[k := Offer(c, g[k], x, meets).value];
            GenOk(c, g', started, closed)
            && forall f: nat :: GenSeries(c, g', f) == GenSeries(c, g, f) + Series(c, [x], f)
  {
    var n := |g|;
    var k := Fp(c, x) % n;
    var sh := Offer(c, g[k], x, meets).value;
    var g' := g[k := sh];
    assert ShardOk(c, g[k], k, n, started, closed);
    OfferKeepsShardInv(c, g[k], x, meets);
    assert ShardOk(c, sh, k, n, started, closed);
    forall f: nat ensures GenSeries(c, g', f) == GenSeries(c, g, f) + Series(c, [x], f) {
      SeriesConcat(c, g[k].Held(), [x], f);
      if f % n != k {
        SeriesOfOthers(c, [x], f);
      }
    }
  }

  lemma GenClose(c: Config, g: Generation, started: nat, i: nat)
    requires GenOk(c, g, started, i) && i < |g| && i < started
    ensures !g[i].closed
    ensures var g' := g[i := g[i].(closed := true)];
            GenOk(c, g', started, i + 1) && forall f: nat :: GenSeries(c, g', f) == GenSeries(c, g, f)
  {
    var g' := g[i := g[i].(closed := true)];
    assert ShardOk(c, g[i], i, |g|, started, i);
    assert g'[i].Held() == g[i].Held();
    forall k | 0 <= k < |g'| ensures ShardOk(c, g'[k], k, |g'|, started, i + 1) {
      assert ShardOk(c, g[k], k, |g|, started, i);
    }
  }

  lemma GenLaunch(c: Config, g: Generation, j: nat, closed: nat)
    requires ValidConfig(c) && GenOk(c, g, j, closed) && j < |g|
    ensures var g' := g[j := g[j].(phase := Selecting)];
            GenOk(c, g', j + 1, closed) && forall f: nat :: GenSeries(c, g', f) == GenSeries(c, g, f)
  {
    var g' := g[j := g[j].(phase := Selecting)];
    assert ShardOk(c, g[j], j, |g|, j, closed);
    assert g'[j].Held() == g[j].Held();
    forall k | 0 <= k < |g'| ensures ShardOk(c, g'[k], k, |g'|, j + 1, closed) {
      assert ShardOk(c, g[k], k, |g|, j, closed);
    }
  }

  // ----- actions -----

  ghost predicate Core(c: Config, s: State) {
    !s.crashed && Inv(c, s)
  }

  lemma InitInv(c: Config)
    requires ValidConfig(c)
    ensures Core(c, Init())
  {
    FreshOk(c, 1);
    assert GenOk(c, [], 0, 0);
    forall f: nat ensures OrderOf(c, Init(), f) {
    }
  }

  lemma SurvivorsSnoc(c: Config, xs: seq<Sample>, x: Sample)
    ensures Survivors(c, xs + [x]) ==
            match Relabelled(c, x) case None => Survivors(c, xs) case Some(y) => Survivors(c, xs) + [y]
  {
    assert (xs + [x])[..|xs|] == xs;
  }

  lemma BalanceSnoc(total: seq<Sample>, a: seq<Sample>, b: seq<Sample>, y: Sample)
    requires multiset(total) == multiset(a) + multiset(b)
    ensures multiset(total + [y]) == multiset(a + [y]) + multiset(b)
    ensures multiset(total + [y]) == multiset(a) + multiset(b + [y])
  {
  }

  /** The ledger after one more sample was accepted or overflowed. */
  lemma LedgerSnoc(c: Config, s: State, s': State, x: Sample, y: Sample)
    requires Ledger(c, s) && Relabelled(c, x) == Some(y)
    requires s'.appended == s.appended + [x] && s'.relabelDropped == s.relabelDropped
    requires s'.finished == s.finished && s'.meters == CountIn(s.meters)
    requires (s'.accepted == s.accepted + [y] && s'.overflowed == s.overflowed)
          || (s'.accepted == s.accepted && s'.overflowed == s.overflowed + [y])
    ensures Ledger(c, s')
  {
    SurvivorsSnoc(c, s.appended, x);
    BalanceSnoc(Survivors(c, s.appended), s.accepted, s.overflowed, y);
  }

  lemma AppendKeepsLedger(c: Config, s: State, x: Sample, meets: bool)
    requires ValidConfig(c) && Ledger(c, s) && !s.crashed && !DoAppend(c, s, x, meets).crashed
    ensures Ledger(c, DoAppend(c, s, x, meets))
  {
    match Relabelled(c, x)
    case None => SurvivorsSnoc(c, s.appended, x);
    case Some(y) => LedgerSnoc(c, s, DoAppend(c, s, x, meets), x, y);
  }

  /** A stopped queue has closed every channel, so nothing is enqueued any more. */
  lemma StoppedIsClosed(c: Config, s: State, k: nat)
    requires Core(c, s) && s.stop.Stopped? && k < |s.live|
    ensures s.live[k].closed
  {
    assert ShardOk(c, s.live[k], k, |s.live|, LiveStarted(s), LiveClosed(s));
  }

  lemma EnqueueKeepsOrder(c: Config, s: State, s': State, y: Sample)
    requires Order(c, s)
    requires s'.finished == s.finished && s'.retiring == s.retiring && s'.accepted == s.accepted + [y]
    requires forall f: nat :: GenSeries(c, s'.live, f) == GenSeries(c, s.live, f) + Series(c, [y], f)
    ensures Order(c, s')
  {
    forall f: nat ensures OrderOf(c, s', f) {
      assert OrderOf(c, s, f);
      SeriesConcat(c, s.accepted, [y], f);
      var before := Series(c, Samples(s.finished), f) + GenSeries(c, s.retiring, f);
      assert before + GenSeries(c, s'.live, f) == before + GenSeries(c, s.live, f) + Series(c, [y], f);
    }
  }

  lemma EnqueueKeepsInv(c: Config, s: State, s0: State, y: Sample, meets: bool)
    requires ValidConfig(c) && Core(c, s) && |s.live| > 0
    requires s0 == s.(appended := s0.appended)
    requires meets ==> CanMeet(c, s.live[Fp(c, y) % |s.live|])
    requires !Enqueue(c, s0, y, meets).crashed
    ensures var s' := Enqueue(c, s0, y, meets);
            Control(c, s') && Gens(c, s') && Order(c, s')
  {
    hide Ledger;
    var s' := Enqueue(c, s0, y, meets);
    var k := Fp(c, y) % |s.live|;
    if s.stop.Stopped? {
      StoppedIsClosed(c, s, k);
      assert false;
    } else if Offer(c, s.live[k], y, meets).Some? {
      GenEnqueue(c, s.live, LiveStarted(s), LiveClosed(s), y, meets);
      EnqueueKeepsOrder(c, s, s', y);
    } else {
      SameOrder(c, s, s');
    }
  }

  lemma AppendKeepsInv(c: Config, s: State, x: Sample, meets: bool)
    requires ValidConfig(c) && Core(c, s) && (meets ==> CanHandOver(c, s, x))
    ensures Inv(c, DoAppend(c, s, x, meets))
  {
    hide Proposed, Ledger;
    var s0 := s.(appended := s.appended + [x]);
    var s' := DoAppend(c, s, x, meets);
    if !s'.crashed {
      AppendKeepsLedger(c, s, x, meets);
      match Relabelled(c, x)
      case None => SameOrder(c, s, s');
      case Some(y) => EnqueueKeepsInv(c, s, s0, y, meets);
    }
  }

  /** Order only looks at what is finished, held and accepted. */
  lemma SameOrder(c: Config, s: State, s': State)
    requires Order(c, s)
    requires s'.finished == s.finished && s'.accepted == s.accepted
    requires forall f: nat :: GenSeries(c, s'.retiring, f) + GenSeries(c, s'.live, f)
                              == GenSeries(c, s.retiring, f) + GenSeries(c, s.live, f)
    ensures Order(c, s')
  {
    forall f: nat ensures OrderOf(c, s', f) {
      assert OrderOf(c, s, f);
      var done := Series(c, Samples(s.finished), f);
      assert done + GenSeries(c, s'.retiring, f) + GenSeries(c, s'.live, f)
          == done + (GenSeries(c, s'.retiring, f) + GenSeries(c, s'.live, f));
      assert done + GenSeries(c, s.retiring, f) + GenSeries(c, s.live, f)
          == done + (GenSeries(c, s.retiring, f) + GenSeries(c, s.live, f));
    }
  }

  lemma SwapKeepsInv(c: Config, s: State)
    requires ValidConfig(c) && Core(c, s) && s.reshard.Received?
    ensures Inv(c, DoSwap(s, s.reshard.count))
  {
    var s' := DoSwap(s, s.reshard.count);
    if !s'.crashed {
      FreshOk(c, s.reshard.count);
      SameOrder(c, s, s');
    }
  }

  lemma CloseOldKeepsInv(c: Config, s: State)
    requires ValidConfig(c) && Core(c, s) && s.reshard.Closing? && s.reshard.nextChannel < |s.retiring|
    ensures Core(c, DoCloseOld(s, s.reshard.nextChannel))
  {
    GenClose(c, s.retiring, |s.retiring|, s.reshard.nextChannel);
    SameOrder(c, s, DoCloseOld(s, s.reshard.nextChannel));
  }

  lemma CloseLiveKeepsInv(c: Config, s: State)
    requires ValidConfig(c) && Core(c, s) && s.stop.Draining? && s.stop.nextClose < |s.live|
    ensures Core(c, DoCloseLive(s, s.stop.nextClose))
  {
    GenClose(c, s.live, |s.live|, s.stop.nextClose);
    SameOrder(c, s, DoCloseLive(s, s.stop.nextClose));
  }

  lemma OldDrainedKeepsInv(c: Config, s: State)
    requires ValidConfig(c) && Core(c, s) && Enabled(c, s, OldDrained)
    ensures Core(c, Apply(c, s, OldDrained))
  {
    ExitedHoldNothing(c, s.retiring, |s.retiring|, RetiringClosed(s));
    SameOrder(c, s, Apply(c, s, OldDrained));
  }

  lemma LaunchKeepsInv(c: Config, s: State)
    requires ValidConfig(c) && Core(c, s) && s.reshard.Launching? && s.reshard.nextShard < |s.live|
    ensures Core(c, DoLaunch(s, s.reshard.nextShard))
  {
    GenLaunch(c, s.live, s.reshard.nextShard, LiveClosed(s));
    SameOrder(c, s, DoLaunch(s, s.reshard.nextShard));
  }

  lemma SamplesConcat(a: seq<Sent>, b: seq<Sent>)
    ensures Samples(a + b) == Samples(a) + Samples(b)
  {
  }

  lemma OrderAfterSend(c: Config, s: State, s': State, sent: seq<Sent>, f: nat)
    requires OrderOf(c, s, f)
    requires s'.finished == s.finished + sent && s'.accepted == s.accepted
    requires Series(c, Samples(sent), f) + (GenSeries(c, s'.retiring, f) + GenSeries(c, s'.live, f))
             == GenSeries(c, s.retiring, f) + GenSeries(c, s.live, f)
    ensures OrderOf(c, s', f)
  {
    SamplesConcat(s.finished, sent);
    var done := Series(c, Samples(s.finished), f);
    SeriesConcat(c, Samples(s.finished), Samples(sent), f);
    assert done + Series(c, Samples(sent), f) + GenSeries(c, s'.retiring, f) + GenSeries(c, s'.live, f)
        == done + (Series(c, Samples(sent), f) + (GenSeries(c, s'.retiring, f) + GenSeries(c, s'.live, f)));
    assert done + GenSeries(c, s.retiring, f) + GenSeries(c, s.live, f)
        == done + (GenSeries(c, s.retiring, f) + GenSeries(c, s.live, f));
  }

  lemma OldShardKeepsOrder(c: Config, s: State, s': State, k: nat, a: ShardAction, f: nat)
    requires ValidConfig(c) && ShardCanMove(s.retiring, k, a) && OrderOf(c, s, f)
    requires Routed(c, Samples(ShardApply(c, s.retiring[k], a).sent), k, |s.retiring|)
    requires var step := ShardApply(c, s.retiring[k], a);
             && s'.retiring == s.retiring[k := step.next] && s'.live == s.live
             && s'.finished == s.finished + step.sent && s'.accepted == s.accepted
    ensures OrderOf(c, s', f)
  {
    var sent := ShardApply(c, s.retiring[k], a).sent;
    GenShardStep(c, s.retiring, k, a, f);
    Regroup(Series(c, Samples(sent), f), GenSeries(c, s'.retiring, f), GenSeries(c, s'.live, f));
    OrderAfterSend(c, s, s', sent, f);
  }

  lemma LedgerAfterSend(c: Config, s: State, s': State, a: ShardAction, sent: seq<Sent>)
    requires Ledger(c, s)
    requires s'.finished == s.finished + sent && s'.meters == CountOut(s.meters, a, |sent|)
    requires s'.appended == s.appended && s'.accepted == s.accepted && s'.overflowed == s.overflowed
    requires s'.relabelDropped == s.relabelDropped
    ensures Ledger(c, s')
  {
  }

  lemma OldShardKeepsInv(c: Config, s: State, k: nat, a: ShardAction)
    requires ValidConfig(c) && Core(c, s) && ShardCanMove(s.retiring, k, a)
    ensures Core(c, DoOldShard(c, s, k, a))
  {
    var s' := DoOldShard(c, s, k, a);
    GenShardStepOk(c, s.retiring, |s.retiring|, RetiringClosed(s), k, a);
    forall f: nat ensures OrderOf(c, s', f) {
      assert OrderOf(c, s, f);
      OldShardKeepsOrder(c, s, s', k, a, f);
    }
    LedgerAfterSend(c, s, s', a, ShardApply(c, s.retiring[k], a).sent);
  }

  /** A live shard can only run when no retiring generation is left: this is where the order
      of `stop` before `start` in reshard is needed. */
  lemma LiveRunsAlone(c: Config, s: State, k: nat, a: ShardAction)
    requires ValidConfig(c) && Core(c, s) && ShardCanMove(s.live, k, a)
    ensures s.retiring == []
  {
    assert ShardOk(c, s.live[k], k, |s.live|, LiveStarted(s), LiveClosed(s));
  }

  lemma ExitedStays(c: Config, s: State, k: nat, a: ShardAction)
    requires Core(c, s) && ShardCanMove(s.live, k, a)
    ensures !s.stop.Stopped?
  {
  }

  lemma LiveShardKeepsOrder(c: Config, s: State, s': State, k: nat, a: ShardAction, f: nat)
    requires ValidConfig(c) && ShardCanMove(s.live, k, a) && OrderOf(c, s, f) && s.retiring == []
    requires Routed(c, Samples(ShardApply(c, s.live[k], a).sent), k, |s.live|)
    requires var step := ShardApply(c, s.live[k], a);
             && s'.live == s.live[k := step.next] && s'.retiring == s.retiring
             && s'.finished == s.finished + step.sent && s'.accepted == s.accepted
    ensures OrderOf(c, s', f)
  {
    GenShardStep(c, s.live, k, a, f);
    assert GenSeries(c, s.retiring, f) == [];
    OrderAfterSend(c, s, s', ShardApply(c, s.live[k], a).sent, f);
  }

  lemma LiveShardKeepsInv(c: Config, s: State, k: nat, a: ShardAction)
    requires ValidConfig(c) && Core(c, s) && ShardCanMove(s.live, k, a)
    ensures Core(c, DoLiveShard(c, s, k, a))
  {
    var s' := DoLiveShard(c, s, k, a);
    LiveRunsAlone(c, s, k, a);
    ExitedStays(c, s, k, a);
    GenShardStepOk(c, s.live, LiveStarted(s), LiveClosed(s), k, a);
    forall f: nat ensures OrderOf(c, s', f) {
      assert OrderOf(c, s, f);
      LiveShardKeepsOrder(c, s, s', k, a, f);
    }
    LedgerAfterSend(c, s, s', a, ShardApply(c, s.live[k], a).sent);
  }

  lemma SameLedger(c: Config, s: State, s': State)
    requires Ledger(c, s)
    requires s'.appended == s.appended && s'.accepted == s.accepted && s'.overflowed == s.overflowed
    requires s'.relabelDropped == s.relabelDropped && s'.finished == s.finished
    requires Total(s'.meters.samplesIn) == Total(s.meters.samplesIn)
    requires Total(s'.meters.samplesOut) == Total(s.meters.samplesOut)
    ensures Ledger(c, s')
  {
  }

  /** A step that only moves the pass and the meters on, and loses no event. */
  lemma MetersKeepInv(c: Config, s: State, s': State)
    requires ValidConfig(c) && Core(c, s) && s' == s.(pass := s'.pass, meters := s'.meters)
    requires !s'.pass.Resting? ==> s.updateRunning && s.handed.None?
    requires Total(s'.meters.samplesIn) == Total(s.meters.samplesIn)
    requires Total(s'.meters.samplesOut) == Total(s.meters.samplesOut)
    ensures Inv(c, s')
  {
    hide Ledger, GenOk, GenSeries, Series, Total;
    SameLedger(c, s, s');
    SameOrder(c, s, s');
  }

  /** Ticks only touch the controller's part of the state. */
  lemma TickKeepsInv(c: Config, s: State, act: Action)
    requires ValidConfig(c) && Core(c, s) && Enabled(c, s, act)
    requires act.Tick? || act.TickOut? || act.TickDuration?
    ensures Inv(c, Apply(c, s, act))
  {
    hide Proposed, Ledger, Gens, Order;
    TickedKeepsTotal(s.meters.samplesIn);
    TickedKeepsTotal(s.meters.samplesOut);
    MetersKeepInv(c, s, Apply(c, s, act));
  }

  lemma ProposedAtMost(c: Config, s: State)
    requires ValidConfig(c) && Proposed(c, s).Some?
    ensures Proposed(c, s).value <= c.maxShards
  {
  }

  lemma ProposeKeepsInv(c: Config, s: State, handOff: bool)
    requires ValidConfig(c) && Core(c, s) && Enabled(c, s, Propose(handOff))
    ensures Inv(c, DoPropose(c, s, handOff))
  {
    if handOff { ProposedAtMost(c, s); }
    hide Proposed, NextIntegral, Ledger, GenOk, GenSeries, Series;
    SameLedger(c, s, DoPropose(c, s, handOff));
    SameOrder(c, s, DoPropose(c, s, handOff));
  }

  /** The other actions leave generations, logs and counters alone. */
  lemma ControlStepKeepsInv(c: Config, s: State, act: Action)
    requires ValidConfig(c) && Core(c, s) && Enabled(c, s, act)
    requires act.CallStart? || act.RecordCount? || act.LaunchDone? || act.CallStop?
          || act.UpdateLoopExits? || act.ReshardLoopExits? || act.LockForStop? || act.StopReturns?
    ensures Inv(c, Apply(c, s, act))
  {
    hide Proposed, Ledger, GenOk, GenSeries, Series;
    SameOrder(c, s, Apply(c, s, act));
    SameLedger(c, s, Apply(c, s, act));
  }

  lemma {:induction false} StepKeepsInv(c: Config, s: State, act: Action)
    requires ValidConfig(c) && Core(c, s) && Enabled(c, s, act)
    ensures Inv(c, Apply(c, s, act))
  {
    hide Inv, Proposed;
    match act
    case Append(x, meets) => AppendKeepsInv(c, s, x, meets);
    case Swap => SwapKeepsInv(c, s);
    case CloseOld => CloseOldKeepsInv(c, s);
    case OldDrained => OldDrainedKeepsInv(c, s);
    case Launch => LaunchKeepsInv(c, s);
    case OldShard(k, a) => OldShardKeepsInv(c, s, k, a);
    case LiveShard(k, a) => LiveShardKeepsInv(c, s, k, a);
    case CloseLive => CloseLiveKeepsInv(c, s);
    case Tick => TickKeepsInv(c, s, act);
    case TickOut => TickKeepsInv(c, s, act);
    case TickDuration => TickKeepsInv(c, s, act);
    case Propose(handOff) => ProposeKeepsInv(c, s, handOff);
    case _ => ControlStepKeepsInv(c, s, act);
  }

  lemma {:induction false} RunKeepsInv(c: Config, s: State, acts: seq<Action>)
    requires ValidConfig(c) && Inv(c, s) && Run(c, s, acts).Some?
    ensures Inv(c, Run(c, s, acts).value)
    decreases |acts|
  {
    if acts != [] {
      StepKeepsInv(c, s, acts[0]);
      RunKeepsInv(c, Apply(c, s, acts[0]), acts[1..]);
    }
  }

  lemma ReachableInv(c: Config, s: State)
    requires ValidConfig(c) && Reachable(c, s)
    ensures Inv(c, s)
  {
    var acts :| Run(c, Init(), acts) == Some(s);
    InitInv(c);
    RunKeepsInv(c, Init(), acts);
  }
}
