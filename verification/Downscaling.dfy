/** A count below one: exactly when it is handed over, what it leads to, and runs of real appends
    and sends that get there. */
module Downscaling {
  import opened Model
  import opened ShardMachine
  import opened ReshardDecision
  import opened QueueProtocol
  import opened QueueInvariant
  import opened QueueTheorems
  import opened QueueTermination
  import opened Ewma

  // ----- when -----

  lemma MeterRateNonNegative(m: Meter)
    ensures Rate(m) >= 0.0
  {
    RateNonNegative(EWMA_WEIGHT, UPDATE_INTERVAL, m.ticked);
  }

  function DesiredNow(m: Meters): real
    requires Rate(m.samplesOut) > 0.0
  {
    Desired(Rate(m.samplesIn), Rate(m.samplesOut), Rate(m.outDuration), NextIntegral(m))
  }

  /** At the end of a pass, with the resharding loop waiting, a count below one can be handed
      over exactly when samples have gone out, and either no time was spent sending them or
      twice the incoming rate with the integral is no more than the outgoing rate; a queue
      that has no shard any more only ever hands over a negative count. */
  lemma HandsOverBelowOneIff(c: Config, s: State)
    requires ValidConfig(c) && Reachable(c, s) && !s.crashed && s.pass.TickedAll? && s.reshard.Idle?
    ensures var m := s.meters;
            (Enabled(c, s, Propose(true)) && Proposed(c, s).value < 1)
            <==> && Rate(m.samplesOut) > 0.0
                 && (Rate(m.outDuration) == 0.0 || 2.0 * Rate(m.samplesIn) + NextIntegral(m) <= Rate(m.samplesOut))
                 && (s.live != [] || DesiredNow(m) <= -1.0)
  {
    var m := s.meters;
    ReachableInv(c, s);
    MeterRateNonNegative(m.outDuration);
    BelowOneIff(Rate(m.samplesIn), Rate(m.samplesOut), Rate(m.outDuration), NextIntegral(m), s.numShards, c.maxShards);
  }

  // ----- what follows -----

  lemma RunOne(c: Config, s: State, act: Action)
    requires ValidConfig(c) && Enabled(c, s, act)
    ensures Run(c, s, [act]) == Some(Apply(c, s, act))
  {
    assert [act][1..] == [];
  }

  /** One more action of a run from a reachable state. */
  lemma Go(c: Config, s: State, acts: seq<Action>, t: State, act: Action) returns (more: seq<Action>, u: State)
    requires ValidConfig(c) && Reachable(c, t) && Run(c, s, acts) == Some(t) && Enabled(c, t, act)
    ensures more == acts + [act] && u == Apply(c, t, act)
    ensures Reachable(c, u) && Run(c, s, more) == Some(u)
  {
    RunSnoc(c, s, acts, act);
    more := acts + [act];
    u := Reach(c, t, act);
  }

  /** A queue without a shard and without a count on its way to the swap. */
  predicate WithoutShards(s: State) {
    s.live == [] && !s.reshard.Received?
  }

  /** The hand-over of a negative count leaves it waiting for a swap that panics; that of a zero
      and the swap after it leave a queue without shards. */
  lemma BelowOneHandedOver(c: Config, s: State) returns (acts: seq<Action>, t: State)
    requires ValidConfig(c) && Reachable(c, s) && Enabled(c, s, Propose(true)) && Proposed(c, s).value < 1
    ensures acts == if Proposed(c, s).value < 0 then [Propose(true)] else [Propose(true), Swap]
    ensures Reachable(c, t) && Run(c, s, acts) == Some(t) && !t.crashed
    ensures t.appended == s.appended && t.finished == s.finished && t.stop == s.stop
    ensures if Proposed(c, s).value < 0 then !CanSwap(t) else WithoutShards(t)
    ensures Proposed(c, s).value == 0 ==>
              t == s.(pass := Resting, meters := s.meters.(integral := NextIntegral(s.meters)), handed := Some(0),
                      retiring := s.live, live := [], reshard := Closing(0))
  {
    t := Reach(c, s, Propose(true));
    acts := [Propose(true)];
    RunOne(c, s, Propose(true));
    if t.reshard.count == 0 {
      acts, t := Go(c, s, acts, t, Swap);
      assert Fresh(0) == [];
    }
  }

  /** From there, whatever happens, a negative count waits until the swap panics. */
  lemma {:induction false} NegativeCountRuns(c: Config, s: State, acts: seq<Action>)
    requires ValidConfig(c) && Core(c, s) && !CanSwap(s) && Run(c, s, acts).Some?
    ensures var t := Run(c, s, acts).value;
            (t.crashed || !CanSwap(t)) && (Swap in acts ==> t.crashed)
    decreases |acts|
  {
    hide Inv, Proposed;
    if acts != [] {
      var s' := Apply(c, s, acts[0]);
      StepKeepsInv(c, s, acts[0]);
      NegativeCountStays(c, s, acts[0]);
      if s'.crashed {
        NothingAfterCrash(c, s', acts[1..]);
      } else {
        InvPanics(c, s, acts[0]);
        NegativeCountRuns(c, s', acts[1..]);
      }
    }
  }

  predicate Survives(c: Config, act: Action) {
    act.Append? && Relabelled(c, act.sample).Some?
  }

  lemma WithoutShardsStep(c: Config, s: State, act: Action)
    requires ValidConfig(c) && Core(c, s) && WithoutShards(s) && Enabled(c, s, act) && !HandsOver(act)
    ensures WithoutShards(Apply(c, s, act))
    ensures Apply(c, s, act).crashed <==> Survives(c, act) || (act.CallStop? && !s.stop.NotStopping?)
  {
    hide Inv, Proposed, NextIntegral;
    InvPanics(c, s, act);
  }

  /** And a queue without shards stays without them as long as no count is handed over: it panics
      at the first sample that survives relabelling, and otherwise only when stopped twice. */
  lemma {:induction false} WithoutShardsRuns(c: Config, s: State, acts: seq<Action>)
    requires ValidConfig(c) && Core(c, s) && WithoutShards(s) && Run(c, s, acts).Some?
    requires forall i :: 0 <= i < |acts| ==> !HandsOver(acts[i])
    ensures var t := Run(c, s, acts).value;
            && WithoutShards(t)
            && ((exists i :: 0 <= i < |acts| && Survives(c, acts[i])) ==> t.crashed)
            && (t.crashed ==> (exists i :: 0 <= i < |acts| && Survives(c, acts[i])) || CallStop in acts)
    decreases |acts|
  {
    hide Inv, Proposed, Survives, WithoutShards;
    if acts != [] {
      var s', rest := Apply(c, s, acts[0]), acts[1..];
      assert !HandsOver(acts[0]);
      StepKeepsInv(c, s, acts[0]);
      WithoutShardsStep(c, s, acts[0]);
      if s'.crashed {
        NothingAfterCrash(c, s', rest);
      } else {
        WithoutShardsRuns(c, s', rest);
        assert forall i :: 0 < i < |acts| ==> acts[i] == rest[i - 1];
        if j :| 0 <= j < |rest| && Survives(c, rest[j]) {
          assert acts[j + 1] == rest[j];
        }
      }
    }
  }

  /** When a pass without shards does hand over a count, the queue has shards again under positive
      demand; otherwise the count is negative. */
  lemma WithoutShardsHandsOver(c: Config, s: State)
    requires ValidConfig(c) && Reachable(c, s) && WithoutShards(s) && Enabled(c, s, Propose(true))
    ensures Proposed(c, s).value != 0
    ensures Proposed(c, s).value > 0 <==> DemandIsPositive(s.meters)
    ensures DemandIsPositive(s.meters) ==>
              var t := Run(c, s, [Propose(true), Swap]);
              t.Some? && !t.value.crashed && |t.value.live| == Proposed(c, s).value >= 1
    ensures !DemandIsPositive(s.meters) ==>
              var t := Run(c, s, [Propose(true)]);
              t.Some? && !t.value.crashed && !CanSwap(t.value)
  {
    var m := s.meters;
    ReachableInv(c, s);
    ProposedSign(c, s);
    BelowOneIff(Rate(m.samplesIn), Rate(m.samplesOut), Rate(m.outDuration), NextIntegral(m), s.numShards, c.maxShards);
    NotAgainZero(c, s);
    RunOne(c, s, Propose(true));
    if DemandIsPositive(m) {
      var t := Reach(c, s, Propose(true));
      var acts, u := Go(c, s, [Propose(true)], t, Swap);
    }
  }

  lemma NotAgainZero(c: Config, s: State)
    requires s.numShards == 0 && Proposed(c, s).Some?
    ensures Proposed(c, s).value != 0
  {
  }

  // ----- a run that gets there -----

  /** A pass that finds n samples in and nothing out, and hands over nothing. */
  predicate Quiet(m: Meters, m': Meters) {
    && m' == Meters(Ticked(m.samplesIn), Ticked(m.samplesOut), Ticked(m.outDuration), m'.integral)
    && m'.integral == m.integral + (Rate(m'.samplesIn) - Rate(m'.samplesOut)) * 0.1
  }

  lemma ReachTickedAll(c: Config, s: State) returns (t: State)
    requires ValidConfig(c) && Reachable(c, s) && Enabled(c, s, Tick)
    ensures Reachable(c, t)
    ensures t == s.(pass := TickedAll,
                    meters := Meters(Ticked(s.meters.samplesIn), Ticked(s.meters.samplesOut),
                                     Ticked(s.meters.outDuration), s.meters.integral))
  {
    t := Reach(c, s, Tick);
    t := Reach(c, t, TickOut);
    t := Reach(c, t, TickDuration);
  }

  lemma ReachQuietPass(c: Config, s: State) returns (t: State)
    requires ValidConfig(c) && Reachable(c, s) && Enabled(c, s, Tick)
    ensures Reachable(c, t) && t == s.(meters := t.meters) && Quiet(s.meters, t.meters)
  {
    t := ReachTickedAll(c, s);
    t := Reach(c, t, Propose(false));
  }

  lemma NextRate(m: Meter)
    ensures m.ticked == [] ==> Rate(Ticked(m)) == m.newEvents as real / 10.0
    ensures m.ticked != [] ==> Rate(Ticked(m)) == 0.8 * Rate(m) + 0.02 * m.newEvents as real
  {
    RateSnoc(EWMA_WEIGHT, UPDATE_INTERVAL, m.ticked, m.newEvents);
  }

  /** Once every counter has ticked: new events are worth a fifth, what is there loses a fifth. */
  lemma NextRates(m: Meters, m': Meters)
    requires Quiet(m, m') && m.samplesIn.ticked != [] && m.samplesOut.ticked != [] && m.outDuration.ticked != []
    ensures Rate(m'.samplesIn) == 0.8 * Rate(m.samplesIn) + 0.02 * m.samplesIn.newEvents as real
    ensures Rate(m'.samplesOut) == 0.8 * Rate(m.samplesOut) + 0.02 * m.samplesOut.newEvents as real
    ensures Rate(m'.outDuration) == 0.8 * Rate(m.outDuration) + 0.02 * m.outDuration.newEvents as real
  {
    NextRate(m.samplesIn);
    NextRate(m.samplesOut);
    NextRate(m.outDuration);
  }

  /** The incoming rate and the integral after k passes since the sample came in. */
  function InAfter(k: nat): real {
    if k == 0 then 0.0 else if k == 1 then 0.02 else 0.8 * InAfter(k - 1)
  }

  function IntegralAfter(k: nat): real {
    if k == 0 then 0.0 else IntegralAfter(k - 1) + InAfter(k) * 0.1
  }

  function Zeros(n: nat): seq<nat> {
    seq(n, i => 0)
  }

  lemma MoreZeros(n: nat)
    ensures Zeros(n) + [0] == Zeros(n + 1)
  {
  }

  /** One sample came in before the first of k passes, and nothing has gone out. */
  predicate Ticks(m: Meters, k: nat) {
    && m.samplesIn == (if k == 0 then Meter(1, [0]) else Meter(0, [0, 1] + Zeros(k - 1)))
    && m.samplesOut == m.outDuration == Meter(0, Zeros(k + 1))
  }

  predicate Waiting(m: Meters, k: nat) {
    && Ticks(m, k)
    && Rate(m.samplesIn) == InAfter(k) && Rate(m.samplesOut) == 0.0 && Rate(m.outDuration) == 0.0
    && m.integral == IntegralAfter(k)
  }

  lemma WaitingGoesOn(m: Meters, m': Meters, k: nat)
    requires Waiting(m, k) && Quiet(m, m')
    ensures Waiting(m', k + 1)
  {
    NextRates(m, m');
    MoreZeros(k + 1);
    if k == 0 {
      assert [0, 1] + Zeros(0) == [0] + [1];
    } else {
      MoreZeros(k - 1);
      assert [0, 1] + Zeros(k) == ([0, 1] + Zeros(k - 1)) + [0];
    }
  }

  lemma {:induction false} ReachWaiting(c: Config, s: State, k: nat) returns (t: State)
    requires ValidConfig(c) && Reachable(c, s) && Enabled(c, s, Tick) && Waiting(s.meters, 0)
    ensures Reachable(c, t) && t == s.(meters := t.meters) && Waiting(t.meters, k)
  {
    hide Waiting, Quiet, Proposed;
    t := s;
    if k > 0 {
      var u := ReachWaiting(c, s, k - 1);
      t := ReachQuietPass(c, u);
      WaitingGoesOn(u.meters, t.meters, k - 1);
    }
  }

  /** The only shard, with this pending and its goroutine there. */
  function OneShard(pending: seq<Sample>, phase: Phase): Generation {
    [Shard([], false, pending, phase)]
  }

  /** A queue that is running, has one shard and no reshard under way. */
  predicate Settled(c: Config, s: State) {
    && s.stop.NotStopping? && s.updateRunning && s.pass.Resting? && s.handed.None?
    && s.reshard.Idle? && s.numShards == 1 && !s.crashed
  }

  /** A first pass that finds nothing. */
  lemma ReachFirstPass(c: Config) returns (s: State)
    requires ValidConfig(c)
    ensures Reachable(c, s) && Settled(c, s) && s.live == OneShard([], Selecting)
    ensures s.meters == Meters(Meter(0, [0]), Meter(0, [0]), Meter(0, [0]), 0.0) && Rate(Meter(0, [0])) == 0.0
  {
    var idle := ReachIdle(c);
    s := ReachQuietPass(c, idle);
    NextRate(EmptyMeter);
    assert s.meters.samplesIn.ticked == [] + [0] == [0];
  }

  /** Appending to the only shard while it waits: the sample is queued, or handed over if the
      channel has no buffer. */
  lemma AppendToOne(c: Config, s: State, x: Sample, y: Sample)
    requires ValidConfig(c) && Relabelled(c, x) == Some(y) && s.live == OneShard([], Selecting)
    ensures var sh := if c.queueCapacity == 0 then Shard([], false, [y], SendIfFull(c, [y]))
                      else Shard([y], false, [], Selecting);
            DoAppend(c, s, x, c.queueCapacity == 0)
            == s.(appended := s.appended + [x], accepted := s.accepted + [y],
                  live := [sh], meters := CountIn(s.meters))
  {
    assert [] + [y] == [y];
  }

  /** A sample arrives ... */
  lemma ReachArrived(c: Config, x: Sample) returns (s: State)
    requires ValidConfig(c) && Relabelled(c, x).Some?
    ensures var y := Relabelled(c, x).value;
            && Reachable(c, s) && Settled(c, s)
            && s.live == if c.queueCapacity == 0 then OneShard([y], SendIfFull(c, [y]))
                         else [Shard([y], false, [], Selecting)]
    ensures s.meters == Meters(Meter(1, [0]), Meter(0, [0]), Meter(0, [0]), 0.0)
  {
    s := ReachFirstPass(c);
    AppendToOne(c, s, x, Relabelled(c, x).value);
    s := Reach(c, s, Append(x, c.queueCapacity == 0));
  }

  /** ... and is received. */
  lemma ReachReceived(c: Config, x: Sample) returns (s: State)
    requires ValidConfig(c) && Relabelled(c, x).Some?
    ensures var pending := [Relabelled(c, x).value];
            Reachable(c, s) && Settled(c, s) && s.live == OneShard(pending, SendIfFull(c, pending))
    ensures s.meters == Meters(Meter(1, [0]), Meter(0, [0]), Meter(0, [0]), 0.0)
  {
    s := ReachArrived(c, x);
    if c.queueCapacity > 0 {
      var y := Relabelled(c, x).value;
      assert [] + [y] == [y] && [y][1..] == [];
      s := Reach(c, s, LiveShard(0, Receive));
    }
  }

  /** It is about to be sent, because the batch is full or the deadline has passed. */
  lemma ReachSending(c: Config, x: Sample) returns (s: State)
    requires ValidConfig(c) && Relabelled(c, x).Some?
    ensures Reachable(c, s) && Settled(c, s) && Waiting(s.meters, 0)
    ensures s.live == OneShard([Relabelled(c, x).value], Sending(1, c.maxRetries, false))
  {
    s := ReachReceived(c, x);
    NextRate(EmptyMeter);
    assert Zeros(1) == [0];
    if s.live[0].phase.Selecting? {
      s := Reach(c, s, LiveShard(0, DeadlineFlush));
    }
  }

  /** Its send is over: the sample is counted, the time not yet. */
  lemma ReachOver(c: Config, s: State, y: Sample) returns (t: State)
    requires ValidConfig(c) && Reachable(c, s) && Settled(c, s)
    requires s.live == OneShard([y], Sending(1, c.maxRetries, false))
    ensures Reachable(c, t) && Settled(c, t) && t.live == OneShard([], Booking(false))
    ensures t.meters == s.meters.(samplesOut := Counted(s.meters.samplesOut, 1))
  {
    var done := if c.maxRetries > 0 then StoreReturns(StoreOk) else GiveUp;
    assert |ShardApply(c, s.live[0], done).sent| == 1;
    assert [y][1..] == [];
    t := Reach(c, s, LiveShard(0, done));
    assert t.live == OneShard([], Booking(false));
  }

  /** ... and now the time too. */
  lemma ReachBooked(c: Config, s: State, y: Sample, took: nat) returns (t: State)
    requires ValidConfig(c) && Reachable(c, s) && Settled(c, s)
    requires s.live == OneShard([y], Sending(1, c.maxRetries, false))
    ensures Reachable(c, t) && Settled(c, t) && |t.live| == 1
    ensures t.meters == s.meters.(samplesOut := Counted(s.meters.samplesOut, 1),
                                  outDuration := Counted(s.meters.outDuration, took))
  {
    hide Proposed;
    t := ReachOver(c, s, y);
    t := Reach(c, t, LiveShard(0, Book(took)));
  }

  /** What the counters have once the sample's send, which k passes fell into, is over. */
  function Sent(m: Meters, took: nat): Meters {
    m.(samplesOut := Counted(m.samplesOut, 1), outDuration := Counted(m.outDuration, took))
  }

  /** k more passes, then its send is over. */
  lemma ReachSent(c: Config, x: Sample, k: nat, took: nat) returns (s: State, m: Meters)
    requires ValidConfig(c) && Relabelled(c, x).Some?
    ensures Reachable(c, s) && Settled(c, s) && |s.live| == 1 && Waiting(m, k) && s.meters == Sent(m, took)
  {
    hide Waiting, Apply, Enabled;
    s := ReachSending(c, x);
    SettledTicks(c, s);
    s := ReachWaiting(c, s, k);
    m := s.meters;
    s := ReachBooked(c, s, Relabelled(c, x).value, took);
  }

  lemma SettledTicks(c: Config, s: State)
    requires Settled(c, s)
    ensures Enabled(c, s, Tick)
  {
  }

  /** What is left of an event after k passes. */
  function Fade(k: nat): real {
    Power(0.8, k)
  }

  lemma {:induction false} FadeFalls(j: nat, k: nat)
    requires j <= k
    ensures 0.0 < Fade(k) <= Fade(j)
    decreases k
  {
    if k > 0 {
      if j < k { FadeFalls(j, k - 1); } else { FadeFalls(k - 1, k - 1); }
    }
  }

  lemma {:induction false} WaitingSums(k: nat)
    requires k >= 1
    ensures InAfter(k) == 0.025 * Fade(k) && IntegralAfter(k) == 0.01 * (1.0 - Fade(k))
  {
    if k == 1 {
      assert Fade(1) == 0.8 && IntegralAfter(0) == 0.0;
    } else {
      WaitingSums(k - 1);
      assert Fade(k) == 0.8 * Fade(k - 1);
    }
  }

  /** What the next pass then computes. */
  lemma RatesAfterSend(m: Meters, k: nat, took: nat)
    requires k >= 1 && Waiting(m, k)
    ensures var after := Sent(m, took);
            && Rate(Ticked(after.samplesIn)) == 0.02 * Fade(k)
            && Rate(Ticked(after.samplesOut)) == 0.02
            && Rate(Ticked(after.outDuration)) == 0.02 * took as real
            && after.integral + (0.02 * Fade(k) - 0.02) * 0.1 == 0.008 - 0.008 * Fade(k)
  {
    var after := Sent(m, took);
    NextRate(after.samplesIn);
    NextRate(after.samplesOut);
    NextRate(after.outDuration);
    WaitingSums(k);
  }

  /** The desired number that comes of it, for a send of so many nanoseconds. */
  function Shrunk(k: nat, took: nat): real {
    took as real * (0.032 * Fade(k) - 0.012) / 1000000000.0
  }

  lemma DesiredAfterSend(k: nat, took: nat)
    ensures Desired(0.02 * Fade(k), 0.02, 0.02 * took as real, 0.008 - 0.008 * Fade(k)) == Shrunk(k, took)
  {
    var d, p := took as real, Fade(k);
    assert 0.02 * d / 0.02 == d;
    assert 0.02 * p + (0.02 * p - 0.02) + (0.008 - 0.008 * p) == 0.032 * p - 0.012;
  }

  lemma ShrunkIsNegative(k: nat, took: nat)
    requires k >= 5 && took > 0
    ensures Shrunk(k, took) < 0.0
  {
    assert Fade(5) == 0.32768;
    FadeFalls(5, k);
    ProductSign(took as real, 0.032 * Fade(k) - 0.012);
    QuotientSign(took as real * (0.032 * Fade(k) - 0.012), 1000000000.0);
  }

  lemma ProposalAfterSend(k: nat, took: nat, maxShards: int)
    requires k >= 5 && took > 0 && maxShards >= 1
    ensures Proposal(0.02 * Fade(k), 0.02, 0.02 * took as real, 0.008 - 0.008 * Fade(k), 1, maxShards)
            == Some(Ceil(Shrunk(k, took)))
    ensures Ceil(Shrunk(k, took)) < 1
    ensures Ceil(Shrunk(k, took)) < 0 <==> Shrunk(k, took) <= -1.0
  {
    DesiredAfterSend(k, took);
    ShrunkIsNegative(k, took);
    hide Shrunk, Desired;
    CountPositiveIff(Shrunk(k, took), maxShards);
    CeilBounds(Shrunk(k, took));
  }

  lemma Products(a: real, b: real, x: real, y: real)
    requires 0.0 <= a <= b && 0.0 <= x <= y
    ensures a * x <= b * y
  {
  }

  /** The passes are ten seconds apart: k of them can only fall into a send that takes about as long. */
  predicate Timely(k: nat, took: nat) {
    (k - 1) * 10000000000 <= took <= (k + 1) * 10000000000
  }

  /** Up to ten passes the desired number rounds up to zero, from twelve on to less. */
  lemma ShrunkSize(k: nat, took: nat)
    requires k >= 5 && Timely(k, took)
    ensures k <= 10 ==> Shrunk(k, took) > -1.0
    ensures k >= 12 ==> Shrunk(k, took) <= -1.0
  {
    var d, w := took as real, 0.012 - 0.032 * Fade(k);
    assert Shrunk(k, took) == -(d * w) / 1000000000.0;
    assert Fade(5) == 0.32768;
    FadeFalls(5, k);
    if k <= 10 {
      assert Fade(10) == 0.1073741824;
      FadeFalls(k, 10);
      Products(d, 110000000000.0, w, 0.0086);
    } else if k >= 12 {
      assert Fade(12) == 0.068719476736;
      FadeFalls(12, k);
      Products(110000000000.0, d, 0.0098, w);
    }
  }

  /** In any configuration: after a send that k >= 5 passes fell into, the next pass, finding one
      sample out and none in, asks for a count below one. The history of the counters says which
      passes these were. */
  lemma DrainedQueueProposesBelowOne(c: Config, x: Sample, k: nat, took: nat) returns (s: State)
    requires ValidConfig(c) && Relabelled(c, x).Some? && k >= 5 && took > 0
    ensures Reachable(c, s) && Enabled(c, s, Propose(true)) && |s.live| == 1
    ensures s.meters.samplesIn.ticked == [0, 1] + Zeros(k - 1) + [0]
    ensures s.meters.samplesOut.ticked == Zeros(k + 1) + [1] && s.meters.outDuration.ticked == Zeros(k + 1) + [took]
    ensures Proposed(c, s) == Some(Ceil(Shrunk(k, took))) && Proposed(c, s).value < 1
  {
    hide Rate, Proposal, Apply;
    var m;
    s, m := ReachSent(c, x, k, took);
    RatesAfterSend(m, k, took);
    ProposalAfterSend(k, took, c.maxShards);
    s := ReachTickedAll(c, s);
  }

  /** So in any configuration runs of appends and sends lead to a panic: with up to ten passes
      during the send at the next sample, from twelve on at the swap. */
  lemma DrainedQueuePanics(c: Config, x: Sample, k: nat, took: nat) returns (s: State, acts: seq<Action>)
    requires ValidConfig(c) && Relabelled(c, x).Some? && k >= 5 && Timely(k, took)
    ensures Reachable(c, s) && Run(c, s, acts).Some? && Run(c, s, acts).value.crashed
    ensures k <= 10 ==> acts == [Propose(true), Swap, Append(x, false)]
    ensures k >= 12 ==> acts == [Propose(true), Swap]
    ensures s.meters.samplesOut.ticked == Zeros(k + 1) + [1] && s.meters.outDuration.ticked == Zeros(k + 1) + [took]
  {
    s := DrainedQueueProposesBelowOne(c, x, k, took);
    ProposalAfterSend(k, took, c.maxShards);
    ShrunkSize(k, took);
    acts := ThenPanics(c, s, x);
  }

  /** A count below one that is handed over, followed by a swap and, if need be, a sample. */
  lemma ThenPanics(c: Config, s: State, x: Sample) returns (acts: seq<Action>)
    requires ValidConfig(c) && Reachable(c, s) && Relabelled(c, x).Some?
    requires Enabled(c, s, Propose(true)) && Proposed(c, s).value < 1
    ensures acts == [Propose(true), Swap] + if Proposed(c, s).value < 0 then [] else [Append(x, false)]
    ensures Run(c, s, acts).Some? && Run(c, s, acts).value.crashed
  {
    var t;
    acts, t := BelowOneHandedOver(c, s);
    ReachableInv(c, s);
    if Proposed(c, s).value < 0 {
      acts, t := Go(c, s, acts, t, Swap);
    } else {
      acts, t := Go(c, s, acts, t, Append(x, false));
    }
  }

  // ----- a pass between the two counters -----

  /** What a pass computes that finds one sample in, one out, and no time spent on it. */
  lemma RatesBetweenCounters(m: Meters)
    requires Waiting(m, 0)
    ensures Rate(Ticked(m.samplesIn)) == 0.02 && Rate(Ticked(m.outDuration)) == 0.0
    ensures Rate(Ticked(Counted(m.samplesOut, 1))) == 0.02 && m.integral == 0.0
  {
    NextRate(m.samplesIn);
    NextRate(Counted(m.samplesOut, 1));
    NextRate(m.outDuration);
    assert IntegralAfter(0) == 0.0;
  }

  /** A queue that has just swapped its only shard, whose last send is not completely counted,
      for none. */
  predicate JustSwappedToNone(s: State) {
    && s.retiring == OneShard([], Booking(false)) && WithoutShards(s) && s.reshard == Closing(0)
    && s.handed == Some(0) && s.updateRunning && s.pass.Resting? && s.stop.NotStopping? && !s.crashed
  }

  /** The shard counts the time and ends; the loop records that there is no shard. */
  lemma ReachNone(c: Config, s: State, took: nat) returns (acts: seq<Action>, t: State)
    requires ValidConfig(c) && Reachable(c, s) && JustSwappedToNone(s)
    ensures Reachable(c, t) && Run(c, s, acts) == Some(t)
    ensures t == s.(retiring := [], reshard := Idle, handed := None, numShards := 0,
                    meters := s.meters.(outDuration := Counted(s.meters.outDuration, took)))
  {
    hide Proposed;
    acts, t := Go(c, s, [], s, OldShard(0, Book(took)));
    assert t.retiring == OneShard([], Selecting);
    acts, t := ReachNoOldShard(c, s, acts, t);
    acts, t := Go(c, s, acts, t, LaunchDone);
    acts, t := Go(c, s, acts, t, RecordCount);
  }

  lemma ReachNoOldShard(c: Config, s: State, acts: seq<Action>, t: State) returns (more: seq<Action>, u: State)
    requires ValidConfig(c) && Reachable(c, t) && Run(c, s, acts) == Some(t) && !t.crashed
    requires t.retiring == OneShard([], Selecting) && t.reshard == Closing(0)
    ensures Reachable(c, u) && Run(c, s, more) == Some(u)
    ensures u == t.(retiring := [], reshard := Launching(0))
  {
    hide Proposed;
    more, u := ReachOldExited(c, s, acts, t);
    more, u := Go(c, s, more, u, OldDrained);
  }

  lemma ReachOldExited(c: Config, s: State, acts: seq<Action>, t: State) returns (more: seq<Action>, u: State)
    requires ValidConfig(c) && Reachable(c, t) && Run(c, s, acts) == Some(t) && !t.crashed
    requires t.retiring == OneShard([], Selecting) && t.reshard == Closing(0)
    ensures Reachable(c, u) && Run(c, s, more) == Some(u)
    ensures u == t.(retiring := [Shard([], true, [], Exited)], reshard := Closing(1))
  {
    hide Proposed;
    more, u := Go(c, s, acts, t, CloseOld);
    assert u.retiring == [Shard([], true, [], Selecting)];
    more, u := Go(c, s, more, u, OldShard(0, SeeClosed));
    assert u.retiring == [Shard([], true, [], Exited)];
  }

  lemma RunTicked(c: Config, s: State, acts: seq<Action>, t: State) returns (more: seq<Action>, u: State)
    requires ValidConfig(c) && Reachable(c, t) && Run(c, s, acts) == Some(t) && Enabled(c, t, Tick)
    ensures Reachable(c, u) && Run(c, s, more) == Some(u)
    ensures u == t.(pass := TickedAll,
                    meters := Meters(Ticked(t.meters.samplesIn), Ticked(t.meters.samplesOut),
                                     Ticked(t.meters.outDuration), t.meters.integral))
  {
    more, u := Go(c, s, acts, t, Tick);
    more, u := Go(c, s, more, u, TickOut);
    more, u := Go(c, s, more, u, TickDuration);
  }

  /** The rates of the pass that finds the second's send it was not told of before. */
  lemma RatesAfterBooking(m: Meters)
    requires m == Meters(Meter(0, [0, 1]), Meter(0, [0, 1]), Meter(1000000000, [0, 0]), 0.0)
    ensures Rate(Ticked(m.samplesIn)) == 0.016 && Rate(Ticked(m.samplesOut)) == 0.016
    ensures Rate(Ticked(m.outDuration)) == 20000000.0
  {
    NextRate(EmptyMeter);
    NextRate(Meter(1, [0]));
    NextRate(Meter(0, [0]));
    assert Ticked(EmptyMeter).ticked == [0];
    assert Ticked(Meter(1, [0])).ticked == [0, 1] && Ticked(Meter(0, [0])).ticked == [0, 0];
    NextRate(m.samplesIn);
    NextRate(m.samplesOut);
    NextRate(m.outDuration);
  }

  lemma ProposalAfterBooking(maxShards: int)
    requires maxShards >= 1
    ensures Proposal(0.016, 0.016, 20000000.0, 0.0, 0, maxShards) == Some(1)
  {
    assert Desired(0.016, 0.016, 20000000.0, 0.0) == 0.02;
    hide Desired;
    CountPositiveIff(0.02, maxShards);
    CeilBounds(0.02);
  }

  /** The next pass then asks for a shard again. */
  lemma NextPassRecovers(c: Config, s: State) returns (acts: seq<Action>, t: State)
    requires ValidConfig(c) && Reachable(c, s) && JustSwappedToNone(s)
    requires s.meters == Meters(Meter(0, [0, 1]), Meter(0, [0, 1]), Meter(0, [0, 0]), 0.0)
    ensures Run(c, s, acts) == Some(t) && !t.crashed && WithoutShards(t) && t.appended == s.appended
    ensures Enabled(c, t, Propose(true)) && Proposed(c, t) == Some(1)
  {
    hide Rate, Proposal, Apply;
    acts, t := ReachNone(c, s, 1000000000);
    RatesAfterBooking(t.meters);
    acts, t := RunTicked(c, s, acts, t);
    ProposalAfterBooking(c.maxShards);
  }

  /** sendSamples counts the samples before it counts the time. In any configuration a pass that
      falls in between finds no time spent and asks for no shard. If a sample comes after the swap
      it panics; if the time is counted and another pass made first, that pass asks for a shard
      again. */
  lemma PassBetweenCounters(c: Config, x: Sample) returns (s: State, t: State, more: seq<Action>, u: State)
    requires ValidConfig(c) && Relabelled(c, x).Some?
    ensures Reachable(c, s) && Enabled(c, s, Propose(true)) && Proposed(c, s) == Some(0)
    ensures s.live == OneShard([], Booking(false))
    ensures Run(c, s, [Propose(true), Swap]) == Some(t) && WithoutShards(t)
    ensures Enabled(c, t, Append(x, false)) && Apply(c, t, Append(x, false)).crashed
    ensures Run(c, t, more) == Some(u) && !u.crashed && WithoutShards(u) && u.appended == t.appended
    ensures Enabled(c, u, Propose(true)) && Proposed(c, u) == Some(1)
  {
    hide Rate, Proposal;
    var before := ReachSending(c, x);
    var over := ReachOver(c, before, Relabelled(c, x).value);
    RatesBetweenCounters(before.meters);
    s := ReachTickedAll(c, over);
    ProposalWithoutTime(0.02, 0.02, 0.0, c.maxShards);
    var acts;
    acts, t := BelowOneHandedOver(c, s);
    TicksBetweenCounters(before.meters);
    more, u := NextPassRecovers(c, t);
  }

  lemma TicksBetweenCounters(m: Meters)
    requires Ticks(m, 0)
    ensures Ticked(m.samplesIn) == Meter(0, [0, 1]) && Ticked(Counted(m.samplesOut, 1)) == Meter(0, [0, 1])
    ensures Ticked(m.outDuration) == Meter(0, [0, 0])
  {
    assert Zeros(1) == [0];
  }
}
