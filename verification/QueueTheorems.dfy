/** What the invariant means: order, conservation, panics and shard counts over every run. */
module QueueTheorems {
  import opened Model
  import opened ShardMachine
  import opened ReshardDecision
  import opened QueueProtocol
  import opened QueueInvariant
  import opened Ewma

  // ----- everything a generation holds, whatever shard it sits in -----

  function AllHeld(g: Generation): seq<Sample> {
    if g == [] then [] else g[0].Held() + AllHeld(g[1..])
  }

  function AllPending(g: Generation): seq<Sample> {
    if g == [] then [] else g[0].pending + AllPending(g[1..])
  }

  function AllQueued(g: Generation): seq<Sample> {
    if g == [] then [] else g[0].queue + AllQueued(g[1..])
  }

  lemma {:induction false} HeldSplits(g: Generation)
    ensures multiset(AllHeld(g)) == multiset(AllPending(g)) + multiset(AllQueued(g))
  {
    if g != [] {
      HeldSplits(g[1..]);
    }
  }

  lemma {:induction false} OutcomesSplit(sent: seq<Sent>)
    ensures multiset(Samples(sent)) == multiset(WithOutcome(sent, true)) + multiset(WithOutcome(sent, false))
  {
    if sent != [] {
      OutcomesSplit(sent[1..]);
      assert Samples(sent) == [sent[0].sample] + Samples(sent[1..]);
    }
  }

  predicate RoutedFrom(c: Config, g: Generation, i: nat, n: nat)
    requires i + |g| == n
  {
    forall k :: 0 <= k < |g| ==> Routed(c, g[k].Held(), i + k, n)
  }

  lemma RoutedTail(c: Config, g: Generation, i: nat, n: nat)
    requires i + |g| == n && g != [] && RoutedFrom(c, g, i, n)
    ensures RoutedFrom(c, g[1..], i + 1, n)
  {
    forall k | 0 <= k < |g| - 1 ensures Routed(c, g[1..][k].Held(), i + 1 + k, n) {
      assert Routed(c, g[k + 1].Held(), i + (k + 1), n);
    }
  }

  /** Of the shards i, i+1, .., n-1 only the one the fingerprint names holds the series. */
  lemma {:induction false} HeldSeriesFrom(c: Config, g: Generation, i: nat, n: nat, f: nat)
    requires n > 0 && i + |g| == n && RoutedFrom(c, g, i, n)
    ensures Series(c, AllHeld(g), f) == if f % n < i then [] else Series(c, g[f % n - i].Held(), f)
    decreases |g|
  {
    if g != [] {
      RoutedTail(c, g, i, n);
      HeldSeriesFrom(c, g[1..], i + 1, n, f);
      SeriesConcat(c, g[0].Held(), AllHeld(g[1..]), f);
      assert Routed(c, g[0].Held(), i + 0, n);
      if f % n != i {
        SeriesOfOthers(c, g[0].Held(), f);
      }
    }
  }

  lemma NothingHeld(c: Config, f: nat)
    ensures Series(c, AllHeld([]), f) == []
  {
  }

  lemma HeldSeries(c: Config, g: Generation, started: nat, closed: nat, f: nat)
    requires GenOk(c, g, started, closed)
    ensures Series(c, AllHeld(g), f) == GenSeries(c, g, f)
  {
    hide ShardInv, Series, AllHeld, Routed;
    if g == [] {
      NothingHeld(c, f);
    } else {
      forall k | 0 <= k < |g| ensures Routed(c, g[k].Held(), 0 + k, |g|) {
        assert ShardOk(c, g[k], k, |g|, started, closed);
      }
      HeldSeriesFrom(c, g, 0, |g|, f);
    }
  }

  // ----- order -----

  function InSystem(s: State): seq<Sample> {
    Samples(s.finished) + AllHeld(s.retiring) + AllHeld(s.live)
  }

  /** In every reachable state and for every series: what has been sent, then what the
      retiring shards hold, then what the live shards hold is the series as it was accepted. */
  lemma OrderAcrossResharding(c: Config, s: State, f: nat)
    requires ValidConfig(c) && Reachable(c, s) && !s.crashed
    ensures Series(c, InSystem(s), f) == Series(c, s.accepted, f)
  {
    ReachableInv(c, s);
    InvOrder(c, s, f);
  }

  lemma InvOrder(c: Config, s: State, f: nat)
    requires ValidConfig(c) && Core(c, s)
    ensures Series(c, InSystem(s), f) == Series(c, s.accepted, f)
  {
    assert OrderOf(c, s, f);
    HeldSeries(c, s.retiring, |s.retiring|, RetiringClosed(s), f);
    HeldSeries(c, s.live, LiveStarted(s), LiveClosed(s), f);
    SeriesConcat(c, Samples(s.finished) + AllHeld(s.retiring), AllHeld(s.live), f);
    SeriesConcat(c, Samples(s.finished), AllHeld(s.retiring), f);
  }

  /** No send of a series ends before the send of an earlier sample of that series. */
  lemma SentIsPrefix(c: Config, s: State, f: nat)
    requires ValidConfig(c) && Reachable(c, s) && !s.crashed
    ensures Series(c, Samples(s.finished), f) <= Series(c, s.accepted, f)
  {
    ReachableInv(c, s);
    assert OrderOf(c, s, f);
  }

  /** In particular metric by metric, whatever the fingerprints are: what was sent, then what is
      held, is what was accepted, in order ... */
  lemma OrderOfMetric(c: Config, s: State, m: Metric)
    requires ValidConfig(c) && Reachable(c, s) && !s.crashed
    ensures OfMetric(InSystem(s), m) == OfMetric(s.accepted, m)
  {
    OrderAcrossResharding(c, s, c.fingerprint(m));
    SameMetric(c, InSystem(s), s.accepted, m);
  }

  /** ... and what was sent is a prefix of what was accepted. */
  lemma SentOfMetricIsPrefix(c: Config, s: State, m: Metric)
    requires ValidConfig(c) && Reachable(c, s) && !s.crashed
    ensures OfMetric(Samples(s.finished), m) <= OfMetric(s.accepted, m)
  {
    SentIsPrefix(c, s, c.fingerprint(m));
    MetricPrefix(c, Samples(s.finished), s.accepted, m);
  }

  // ----- conservation -----

  lemma SameSeriesSameMultiset(c: Config, a: seq<Sample>, b: seq<Sample>)
    requires forall f: nat :: Series(c, a, f) == Series(c, b, f)
    ensures multiset(a) == multiset(b)
  {
    forall x ensures multiset(a)[x] == multiset(b)[x] {
      SeriesCount(c, a, x);
      SeriesCount(c, b, x);
      assert Series(c, a, Fp(c, x)) == Series(c, b, Fp(c, x));
    }
  }

  lemma InvConservation(c: Config, s: State)
    requires ValidConfig(c) && Core(c, s)
    ensures multiset(s.accepted) == multiset(InSystem(s))
  {
    forall f: nat ensures Series(c, s.accepted, f) == Series(c, InSystem(s), f) {
      InvOrder(c, s, f);
    }
    SameSeriesSameMultiset(c, s.accepted, InSystem(s));
  }

  function Pending(s: State): seq<Sample> {
    AllPending(s.retiring) + AllPending(s.live)
  }

  function Queued(s: State): seq<Sample> {
    AllQueued(s.retiring) + AllQueued(s.live)
  }

  /** Pending is what shards have received, queued what is on their channels. */
  lemma {:induction false} PlacesMean(g: Generation, x: Sample)
    ensures x in AllPending(g) <==> exists k :: 0 <= k < |g| && x in g[k].pending
    ensures x in AllQueued(g) <==> exists k :: 0 <= k < |g| && x in g[k].queue
  {
    if g != [] {
      PlacesMean(g[1..], x);
      assert forall k :: 0 < k < |g| ==> g[k] == g[1..][k - 1];
    }
  }

  lemma InSystemParts(s: State)
    ensures multiset(InSystem(s))
            == multiset(WithOutcome(s.finished, true)) + multiset(WithOutcome(s.finished, false))
               + multiset(Pending(s)) + multiset(Queued(s))
  {
    OutcomesSplit(s.finished);
    HeldSplits(s.retiring);
    HeldSplits(s.live);
  }

  /** Every sample that survives relabelling is in exactly one place: dropped because its
      channel was full, sent, failed, pending or queued. */
  lemma {:induction false} Conservation(c: Config, s: State)
    requires ValidConfig(c) && Reachable(c, s) && !s.crashed
    ensures multiset(Survivors(c, s.appended))
            == multiset(s.overflowed)
               + multiset(WithOutcome(s.finished, true)) + multiset(WithOutcome(s.finished, false))
               + multiset(Pending(s)) + multiset(Queued(s))
  {
    ReachableInv(c, s);
    InvConservation(c, s);
    InSystemParts(s);
  }

  /** The counters agree with the places: those who did not survive relabelling were dropped by
      it, each accepted or overflowing sample was counted once on its way in, and each
      succeeded or failed one once on its way out, whatever ticks fell in between. */
  lemma {:induction false} CountersAgree(c: Config, s: State)
    requires ValidConfig(c) && Reachable(c, s) && !s.crashed
    ensures |s.appended| == s.relabelDropped + |Survivors(c, s.appended)|
    ensures Total(s.meters.samplesIn) == |s.accepted| + |s.overflowed|
    ensures Total(s.meters.samplesOut) == |WithOutcome(s.finished, true)| + |WithOutcome(s.finished, false)|
    ensures Total(s.meters.samplesOut) <= Total(s.meters.samplesIn)
  {
    ReachableInv(c, s);
    InvConservation(c, s);
    assert |multiset(s.accepted)| == |multiset(InSystem(s))|;
    OutcomesSplit(s.finished);
    assert |multiset(Survivors(c, s.appended))| == |multiset(s.accepted)| + |multiset(s.overflowed)|;
    assert |multiset(Samples(s.finished))|
        == |multiset(WithOutcome(s.finished, true))| + |multiset(WithOutcome(s.finished, false))|;
  }

  lemma {:induction false} ExitedHeld(c: Config, g: Generation)
    requires forall k :: 0 <= k < |g| ==> ShardInv(c, g[k]) && g[k].phase.Exited?
    ensures AllHeld(g) == []
  {
    if g != [] {
      assert ShardInv(c, g[0]) && g[0].phase.Exited?;
      ExitedHeld(c, g[1..]);
    }
  }

  /** When Stop has returned, every accepted sample has been sent or has failed, each series
      in the order it was accepted, and no shard holds anything. */
  lemma StopDrains(c: Config, s: State)
    requires ValidConfig(c) && Reachable(c, s) && !s.crashed && s.stop.Stopped?
    ensures s.retiring == [] && AllHeld(s.live) == []
    ensures forall f: nat :: Series(c, Samples(s.finished), f) == Series(c, s.accepted, f)
    ensures forall m :: OfMetric(Samples(s.finished), m) == OfMetric(s.accepted, m)
    ensures multiset(Samples(s.finished)) == multiset(s.accepted)
  {
    ReachableInv(c, s);
    StoppedMeansDrained(c, s);
  }

  lemma StoppedMeansDrained(c: Config, s: State)
    requires ValidConfig(c) && Core(c, s) && s.stop.Stopped?
    ensures s.retiring == [] && AllHeld(s.live) == []
    ensures forall f: nat :: Series(c, Samples(s.finished), f) == Series(c, s.accepted, f)
    ensures forall m :: OfMetric(Samples(s.finished), m) == OfMetric(s.accepted, m)
    ensures multiset(Samples(s.finished)) == multiset(s.accepted)
  {
    forall k | 0 <= k < |s.live| ensures ShardInv(c, s.live[k]) {
      assert ShardOk(c, s.live[k], k, |s.live|, LiveStarted(s), LiveClosed(s));
    }
    ExitedHeld(c, s.live);
    DrainedMeansDelivered(c, s);
  }

  /** Where nothing is held any more, everything accepted has been delivered. */
  lemma DrainedMeansDelivered(c: Config, s: State)
    requires ValidConfig(c) && Core(c, s) && s.retiring == [] && AllHeld(s.live) == []
    ensures forall f: nat :: Series(c, Samples(s.finished), f) == Series(c, s.accepted, f)
    ensures forall m :: OfMetric(Samples(s.finished), m) == OfMetric(s.accepted, m)
    ensures multiset(Samples(s.finished)) == multiset(s.accepted)
  {
    assert InSystem(s) == Samples(s.finished);
    forall f: nat ensures Series(c, Samples(s.finished), f) == Series(c, s.accepted, f) {
      InvOrder(c, s, f);
    }
    SameMetrics(c, Samples(s.finished), s.accepted);
    InvConservation(c, s);
  }

  // ----- nothing waits for more than it has to -----

  /** In every reachable state: an append is only ever kept waiting by a Stop that holds the lock,
      and can be handed over wherever a goroutine may be waiting at an unbuffered channel; the
      clock starts a pass whenever the loop is resting; the end of a pass hands its count over only
      to a loop that waits for it and need not even then; Stop can be called at any time, and
      from then on each loop may leave whenever it rests; and a shard of the live generation that
      was started takes what is on its channel, gives up waiting for more, and goes on after each
      answer. */
  lemma NothingElseWaits(c: Config, s: State, x: Sample, k: nat, o: Outcome)
    requires ValidConfig(c) && Reachable(c, s) && !s.crashed && !s.reshard.NotLaunched?
    ensures !s.stop.Draining? ==> Enabled(c, s, Append(x, false))
    ensures Relabelled(c, x).Some? && c.queueCapacity == 0 && s.live != [] && !s.stop.Draining? ==>
              var k := c.fingerprint(Relabelled(c, x).value.metric) % |s.live|;
              s.live[k].phase.Selecting? ==> Enabled(c, s, Append(x, true))
    ensures s.updateRunning && s.pass.Resting? && s.handed.None? ==> Enabled(c, s, Tick)
    ensures s.stop.NotStopping? ==> s.updateRunning && !s.reshard.LoopDone?
    ensures s.pass.TickedAll? ==>
              && Enabled(c, s, Propose(false))
              && (Enabled(c, s, Propose(true)) <==> s.reshard.Idle? && Proposed(c, s).Some?)
    ensures Enabled(c, s, CallStop)
    ensures !s.stop.NotStopping? && s.reshard.Idle? ==> Enabled(c, s, ReshardLoopExits)
    ensures !s.stop.NotStopping? && s.updateRunning && s.pass.Resting? && s.handed.None? ==>
              Enabled(c, s, UpdateLoopExits)
    ensures k < |s.live| && s.live[k].phase.Selecting? ==>
              && (s.live[k].queue != [] ==> Enabled(c, s, LiveShard(k, Receive)))
              && (s.live[k].pending != [] ==> Enabled(c, s, LiveShard(k, DeadlineFlush)))
    ensures k < |s.live| && s.live[k].phase.Sending? && s.live[k].phase.retries > 0 ==>
              Enabled(c, s, LiveShard(k, StoreReturns(o)))
  {
    hide Order, Ledger, Proposed, Apply, Enabled;
    ReachableInv(c, s);
    if !s.stop.Draining? {
      AppendGoesOn(c, s, x);
    }
    LoopsGoOn(c, s);
    if k < |s.live| {
      LiveShardGoesOn(c, s, k, o);
    }
  }

  lemma AppendGoesOn(c: Config, s: State, x: Sample)
    requires !s.crashed && !s.stop.Draining?
    ensures Enabled(c, s, Append(x, false))
    ensures Relabelled(c, x).Some? && c.queueCapacity == 0 && s.live != [] ==>
              var k := c.fingerprint(Relabelled(c, x).value.metric) % |s.live|;
              s.live[k].phase.Selecting? ==> Enabled(c, s, Append(x, true))
  {
  }

  lemma LoopsGoOn(c: Config, s: State)
    requires !s.crashed
    ensures s.updateRunning && s.pass.Resting? && s.handed.None? ==> Enabled(c, s, Tick)
    ensures s.pass.TickedAll? ==>
              && Enabled(c, s, Propose(false))
              && (Enabled(c, s, Propose(true)) <==> s.reshard.Idle? && Proposed(c, s).Some?)
    ensures Enabled(c, s, CallStop) <==> !s.reshard.NotLaunched?
    ensures !s.stop.NotStopping? && s.reshard.Idle? ==> Enabled(c, s, ReshardLoopExits)
    ensures !s.stop.NotStopping? && s.updateRunning && s.pass.Resting? && s.handed.None? ==>
              Enabled(c, s, UpdateLoopExits)
  {
    hide Proposed;
  }

  lemma LiveShardGoesOn(c: Config, s: State, k: nat, o: Outcome)
    requires Core(c, s) && !s.crashed && k < |s.live|
    ensures s.live[k].phase.Selecting? ==>
              && (s.live[k].queue != [] ==> Enabled(c, s, LiveShard(k, Receive)))
              && (s.live[k].pending != [] ==> Enabled(c, s, LiveShard(k, DeadlineFlush)))
    ensures s.live[k].phase.Sending? && s.live[k].phase.retries > 0 ==>
              Enabled(c, s, LiveShard(k, StoreReturns(o)))
  {
    assert ShardOk(c, s.live[k], k, |s.live|, LiveStarted(s), LiveClosed(s));
  }

  // ----- panics -----

  /** The exact moments at which something panics. In particular no channel is ever closed
      twice, and no sample is sent on a closed channel before Stop has returned. */
  predicate Fatal(c: Config, s: State, act: Action) {
    match act
    case Append(x, _) => Relabelled(c, x).Some? && (|s.live| == 0 || s.stop.Stopped?)
    case CallStop => !s.stop.NotStopping?
    case Swap => s.reshard.Received? && s.reshard.count < 0
    case _ => false
  }

  lemma PanicExactlyWhenFatal(c: Config, s: State, act: Action)
    requires ValidConfig(c) && Reachable(c, s) && Enabled(c, s, act)
    ensures Apply(c, s, act).crashed <==> Fatal(c, s, act)
  {
    ReachableInv(c, s);
    InvPanics(c, s, act);
  }

  lemma AppendPanics(c: Config, s: State, x: Sample, meets: bool)
    requires ValidConfig(c) && Core(c, s) && Enabled(c, s, Append(x, meets))
    ensures DoAppend(c, s, x, meets).crashed <==> Fatal(c, s, Append(x, meets))
  {
    hide Order, Ledger;
    if Relabelled(c, x).Some? && |s.live| > 0 {
      var k := Fp(c, Relabelled(c, x).value) % |s.live|;
      assert ShardOk(c, s.live[k], k, |s.live|, LiveStarted(s), LiveClosed(s));
    }
  }

  lemma InvPanics(c: Config, s: State, act: Action)
    requires ValidConfig(c) && Core(c, s) && Enabled(c, s, act)
    ensures Apply(c, s, act).crashed <==> Fatal(c, s, act)
  {
    hide Proposed, NextIntegral, Inv;
    match act
    case Append(x, meets) => AppendPanics(c, s, x, meets);
    case CloseOld => CloseOldKeepsInv(c, s);
    case CloseLive => CloseLiveKeepsInv(c, s);
    case _ =>
  }

  /** In every reachable state in which no reshard is under way or on its way, the controller's
      count is the number of live shards. */
  lemma RecordedCountIsLive(c: Config, s: State)
    requires ValidConfig(c) && Reachable(c, s) && !s.crashed
    ensures s.handed.None? && !s.reshard.Received? ==> s.numShards == |s.live|
    ensures s.handed.Some? && !s.reshard.Received? ==> s.handed.value == |s.live|
    ensures |s.live| <= c.maxShards
  {
    ReachableInv(c, s);
  }

  /** There is at least one shard and the next count, if one is on its way, is at least one. */
  predicate Manned(s: State) {
    |s.live| >= 1 && Target(s) >= 1 && (s.reshard.Received? ==> s.reshard.count >= 1)
  }

  predicate DemandIsPositive(m: Meters) {
    PositiveDemand(Rate(m.samplesIn), Rate(m.samplesOut), Rate(m.outDuration), NextIntegral(m))
  }

  /** No append after Stop has returned, no second Stop, and counts are handed over only under
      positive demand. */
  predicate PoliteStep(s: State, act: Action) {
    match act
    case Append(_, _) => !s.stop.Stopped?
    case Propose(handOff) => handOff ==> DemandIsPositive(s.meters)
    case CallStop => s.stop.NotStopping?
    case _ => true
  }

  predicate PoliteRun(c: Config, s: State, acts: seq<Action>)
    requires ValidConfig(c)
    decreases |acts|
  {
    acts == []
    || (Enabled(c, s, acts[0]) && PoliteStep(s, acts[0]) && PoliteRun(c, Apply(c, s, acts[0]), acts[1..]))
  }

  lemma PoliteStepIsSafe(c: Config, s: State, act: Action)
    requires ValidConfig(c) && Core(c, s) && Manned(s) && Enabled(c, s, act) && PoliteStep(s, act)
    ensures !Apply(c, s, act).crashed
  {
    InvPanics(c, s, act);
  }

  lemma ProposedSign(c: Config, s: State)
    requires ValidConfig(c) && Proposed(c, s).Some?
    ensures Proposed(c, s).value <= c.maxShards
    ensures Proposed(c, s).value >= 1 <==> DemandIsPositive(s.meters)
  {
    var m := s.meters;
    OfferedSign(Rate(m.samplesIn), Rate(m.samplesOut), Rate(m.outDuration), NextIntegral(m), s.numShards, c.maxShards);
  }

  lemma StepStaysManned(c: Config, s: State, act: Action)
    requires ValidConfig(c) && Manned(s) && Enabled(c, s, act) && PoliteStep(s, act)
    ensures Manned(Apply(c, s, act))
  {
    hide Proposed, DemandIsPositive, NextIntegral;
    if act.Propose? && act.handOff {
      ProposedSign(c, s);
    }
  }

  lemma StopFlags(c: Config, s: State, act: Action)
    requires ValidConfig(c) && Enabled(c, s, act) && !Apply(c, s, act).crashed
    ensures Apply(c, s, act).stop.NotStopping? <==> s.stop.NotStopping? && !act.CallStop?
    ensures Apply(c, s, act).stop.Stopped? <==> s.stop.Stopped? || act.StopReturns?
  {
  }

  lemma {:induction false} PoliteRunFrom(c: Config, s: State, acts: seq<Action>)
    requires ValidConfig(c) && Core(c, s) && Manned(s) && PoliteRun(c, s, acts)
    ensures Run(c, s, acts).Some?
    ensures var t := Run(c, s, acts).value; Core(c, t) && Manned(t)
    decreases |acts|
  {
    if acts != [] {
      PoliteStepIsSafe(c, s, acts[0]);
      StepKeepsInv(c, s, acts[0]);
      StepStaysManned(c, s, acts[0]);
      PoliteRunFrom(c, Apply(c, s, acts[0]), acts[1..]);
    }
  }

  /** No polite run panics, and the live generation always has between one and MaxShards
      shards; while the resharding loop waits, the controller's count is the real one. */
  lemma PoliteRunsAreSafe(c: Config, acts: seq<Action>)
    requires ValidConfig(c) && PoliteRun(c, Init(), acts)
    ensures Run(c, Init(), acts).Some?
    ensures var s := Run(c, Init(), acts).value;
            && !s.crashed
            && 1 <= |s.live| <= c.maxShards
            && (s.reshard.Idle? && s.handed.None? ==> s.numShards == |s.live|)
  {
    InitInv(c);
    PoliteRunFrom(c, Init(), acts);
  }

  // ----- the runs that do panic -----

  lemma RunSnoc(c: Config, s: State, acts: seq<Action>, act: Action)
    requires ValidConfig(c) && Run(c, s, acts).Some? && Enabled(c, Run(c, s, acts).value, act)
    ensures Run(c, s, acts + [act]) == Some(Apply(c, Run(c, s, acts).value, act))
    decreases |acts|
  {
    if acts == [] {
      assert acts + [act] == [act];
      assert [act][1..] == [];
    } else {
      assert (acts + [act])[1..] == acts[1..] + [act];
      RunSnoc(c, Apply(c, s, acts[0]), acts[1..], act);
    }
  }

  lemma Reach(c: Config, s: State, act: Action) returns (t: State)
    requires ValidConfig(c) && Reachable(c, s) && Enabled(c, s, act)
    ensures Reachable(c, t) && t == Apply(c, s, act)
  {
    var acts :| Run(c, Init(), acts) == Some(s);
    RunSnoc(c, Init(), acts, act);
    t := Apply(c, s, act);
  }

  lemma ReachIdle(c: Config) returns (s: State)
    requires ValidConfig(c)
    ensures Reachable(c, s)
    ensures s == Init().(live := [EmptyShard.(phase := Selecting)], reshard := Idle, updateRunning := true)
  {
    s := Init();
    assert Run(c, s, []) == Some(s);
    s := Reach(c, s, CallStart);
    s := Reach(c, s, Launch);
    s := Reach(c, s, LaunchDone);
    assert s.live == [EmptyShard.(phase := Selecting)];
  }

  lemma ReachDraining(c: Config) returns (s: State)
    requires ValidConfig(c)
    ensures Reachable(c, s) && !s.crashed
    ensures s.live == [EmptyShard.(phase := Selecting)] && s.stop == Draining(0)
  {
    s := ReachIdle(c);
    s := Reach(c, s, CallStop);
    s := Reach(c, s, UpdateLoopExits);
    s := Reach(c, s, ReshardLoopExits);
    s := Reach(c, s, LockForStop);
  }

  lemma ReachStopped(c: Config) returns (s: State)
    requires ValidConfig(c)
    ensures Reachable(c, s) && !s.crashed && s.stop.Stopped?
  {
    hide Proposed;
    s := ReachDraining(c);
    s := Reach(c, s, CloseLive);
    s := Reach(c, s, LiveShard(0, SeeClosed));
    s := Reach(c, s, StopReturns);
  }

  /** In any configuration, a stopped queue can be reached, and then both another Stop and an
      Append of a sample that survives relabelling panic. Writer.Stop leaves its queues in
      place, so only its callers rule this out. */
  lemma UseAfterStopPanics(c: Config, x: Sample) returns (s: State)
    requires ValidConfig(c) && Relabelled(c, x).Some?
    ensures Reachable(c, s) && s.stop.Stopped?
    ensures Enabled(c, s, Append(x, false)) && Apply(c, s, Append(x, false)).crashed
    ensures Enabled(c, s, CallStop) && Apply(c, s, CallStop).crashed
  {
    s := ReachStopped(c);
    ReachableInv(c, s);
    PanicExactlyWhenFatal(c, s, Append(x, false));
    PanicExactlyWhenFatal(c, s, CallStop);
  }
}
