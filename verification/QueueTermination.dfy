/** Draining ends and Stop returns, whatever the scheduler does. */
module QueueTermination {
  import opened Model
  import opened ShardMachine
  import opened QueueProtocol
  import opened QueueInvariant
  import opened QueueTheorems

  function TotalPotential(c: Config, g: Generation): nat {
    if g == [] then 0 else Potential(c, g[0]) + TotalPotential(c, g[1..])
  }

  lemma {:induction false} TotalUpdate(c: Config, g: Generation, k: nat, sh: Shard)
    requires k < |g|
    ensures TotalPotential(c, g[k := sh]) + Potential(c, g[k]) == TotalPotential(c, g) + Potential(c, sh)
  {
    if k == 0 {
      assert g[k := sh][1..] == g[1..];
    } else {
      assert g[k := sh][1..] == g[1..][k - 1 := sh];
      TotalUpdate(c, g[1..], k - 1, sh);
    }
  }

  lemma {:induction false} TotalFresh(c: Config, n: nat)
    ensures TotalPotential(c, Fresh(n)) == 3 * n
  {
    if n > 0 {
      assert Fresh(n)[1..] == Fresh(n - 1);
      TotalFresh(c, n - 1);
    }
  }

  function LoopCost(s: State): nat {
    match s.reshard
    case NotLaunched => 0
    case Received(n) => 4 + (if n > 0 then 3 * n else 0)
    case Closing(_) => 3
    case Launching(_) => 2
    case Idle => 1
    case LoopDone => 0
  }

  /** A pass that has begun may still hand over a count of up to MaxShards. */
  function PassCost(c: Config, s: State): nat {
    var handOver := 5 + (if c.maxShards > 0 then 3 * c.maxShards else 0);
    match s.pass
    case Resting => 0
    case TickedAll => handOver
    case TickedOut => handOver + 1
    case TickedIn => handOver + 2
  }

  function StopCost(s: State): nat {
    match s.stop
    case NotStopping => 3
    case AwaitLoops => 2
    case Draining(_) => 1
    case Stopped => 0
  }

  function ControlCost(c: Config, s: State): nat {
    LoopCost(s) + PassCost(c, s) + StopCost(s) + (if s.updateRunning then 1 else 0) + (if s.handed.Some? then 1 else 0)
  }

  /** An upper bound on how many more steps the queue can take by itself. */
  function Measure(c: Config, s: State): nat {
    TotalPotential(c, s.retiring) + TotalPotential(c, s.live) + ControlCost(c, s)
  }

  /** What the queue does on its own: not a call from outside and not a clock tick. */
  predicate Internal(act: Action) {
    !act.Append? && !act.CallStart? && !act.Tick? && !act.CallStop?
  }

  lemma ShardStepLowers(c: Config, g: Generation, started: nat, closed: nat, k: nat, a: ShardAction)
    requires ValidConfig(c) && GenOk(c, g, started, closed) && ShardCanMove(g, k, a)
    ensures TotalPotential(c, g[k := ShardApply(c, g[k], a).next]) < TotalPotential(c, g)
  {
    assert ShardOk(c, g[k], k, |g|, started, closed);
    StepLowersPotential(c, g[k], a);
    TotalUpdate(c, g, k, ShardApply(c, g[k], a).next);
  }

  lemma OldShardLowers(c: Config, s: State, k: nat, a: ShardAction)
    requires ValidConfig(c) && Core(c, s) && ShardCanMove(s.retiring, k, a)
    ensures TotalPotential(c, DoOldShard(c, s, k, a).retiring) < TotalPotential(c, s.retiring)
    ensures Measure(c, DoOldShard(c, s, k, a)) < Measure(c, s)
  {
    ShardStepLowers(c, s.retiring, |s.retiring|, RetiringClosed(s), k, a);
  }

  lemma LiveShardLowers(c: Config, s: State, k: nat, a: ShardAction)
    requires ValidConfig(c) && Core(c, s) && ShardCanMove(s.live, k, a)
    ensures TotalPotential(c, DoLiveShard(c, s, k, a).live) < TotalPotential(c, s.live)
    ensures Measure(c, DoLiveShard(c, s, k, a)) < Measure(c, s)
  {
    ShardStepLowers(c, s.live, LiveStarted(s), LiveClosed(s), k, a);
  }

  lemma CloseOldLowers(c: Config, s: State, i: nat)
    requires ValidConfig(c) && Core(c, s) && s.reshard == Closing(i) && i < |s.retiring|
    ensures TotalPotential(c, DoCloseOld(s, i).retiring) < TotalPotential(c, s.retiring)
    ensures Measure(c, DoCloseOld(s, i)) < Measure(c, s)
  {
    GenClose(c, s.retiring, |s.retiring|, i);
    TotalUpdate(c, s.retiring, i, s.retiring[i].(closed := true));
  }

  lemma CloseLiveLowers(c: Config, s: State, i: nat)
    requires ValidConfig(c) && Core(c, s) && s.stop == Draining(i) && i < |s.live|
    ensures TotalPotential(c, DoCloseLive(s, i).live) < TotalPotential(c, s.live)
    ensures Measure(c, DoCloseLive(s, i)) < Measure(c, s)
  {
    GenClose(c, s.live, |s.live|, i);
    TotalUpdate(c, s.live, i, s.live[i].(closed := true));
  }

  lemma LaunchLowers(c: Config, s: State, j: nat)
    requires ValidConfig(c) && Core(c, s) && s.reshard == Launching(j) && j < |s.live|
    ensures Measure(c, DoLaunch(s, j)) < Measure(c, s)
  {
    assert ShardOk(c, s.live[j], j, |s.live|, LiveStarted(s), LiveClosed(s));
    TotalUpdate(c, s.live, j, s.live[j].(phase := Selecting));
  }

  lemma SwapLowers(c: Config, s: State, n: int)
    requires ValidConfig(c) && Core(c, s) && s.reshard == Received(n) && n >= 0
    ensures Measure(c, DoSwap(s, n)) < Measure(c, s)
  {
    TotalFresh(c, n);
  }

  lemma PassLowers(c: Config, s: State, act: Action)
    requires ValidConfig(c) && Core(c, s) && Enabled(c, s, act)
    requires act.TickOut? || act.TickDuration? || act.Propose?
    ensures var s' := Apply(c, s, act);
            s'.live == s.live && s'.retiring == s.retiring && ControlCost(c, s') < ControlCost(c, s)
  {
    if act.Propose? && act.handOff {
      ProposedSign(c, s);
    }
  }

  lemma ControlLowers(c: Config, s: State, act: Action)
    requires ValidConfig(c) && Core(c, s) && Enabled(c, s, act)
    requires act.RecordCount? || act.LaunchDone? || act.UpdateLoopExits? || act.ReshardLoopExits?
          || act.LockForStop? || act.StopReturns?
    ensures var s' := Apply(c, s, act);
            s'.live == s.live && s'.retiring == s.retiring && ControlCost(c, s') < ControlCost(c, s)
  {
  }

  lemma OldDrainedLowers(c: Config, s: State)
    requires ValidConfig(c) && Core(c, s) && Enabled(c, s, OldDrained)
    ensures Measure(c, Apply(c, s, OldDrained)) < Measure(c, s)
  {
  }

  lemma InternalLowersMeasure(c: Config, s: State, act: Action)
    requires ValidConfig(c) && Core(c, s) && Enabled(c, s, act) && Internal(act)
    ensures var s' := Apply(c, s, act); s'.crashed || Measure(c, s') < Measure(c, s)
  {
    hide Core, Proposed, NextIntegral;
    match act
    case Swap => if s.reshard.count >= 0 { SwapLowers(c, s, s.reshard.count); }
    case CloseOld => CloseOldLowers(c, s, s.reshard.nextChannel);
    case CloseLive => CloseLiveLowers(c, s, s.stop.nextClose);
    case Launch => LaunchLowers(c, s, s.reshard.nextShard);
    case OldDrained => OldDrainedLowers(c, s);
    case OldShard(k, a) => OldShardLowers(c, s, k, a);
    case LiveShard(k, a) => LiveShardLowers(c, s, k, a);
    case TickOut => PassLowers(c, s, act);
    case TickDuration => PassLowers(c, s, act);
    case Propose(_) => PassLowers(c, s, act);
    case _ => ControlLowers(c, s, act);
  }

  /** A generation whose channels are all closed and whose goroutines run can move until
      every one of them has exited. */
  lemma DrainingCanMove(c: Config, g: Generation) returns (k: nat, a: ShardAction)
    requires ValidConfig(c) && GenOk(c, g, |g|, |g|) && !AllExited(g)
    ensures ShardCanMove(g, k, a)
  {
    k :| k < |g| && !g[k].phase.Exited?;
    assert ShardOk(c, g[k], k, |g|, |g|, |g|);
    a := ClosedShardCanMove(c, g[k]);
  }

  /** Resharding never gets stuck. */
  lemma ReshardCanMove(c: Config, s: State) returns (act: Action)
    requires ValidConfig(c) && Core(c, s)
    requires s.reshard.Received? || s.reshard.Closing? || s.reshard.Launching?
    ensures Enabled(c, s, act) && Internal(act)
    ensures if s.reshard.Received? then act.Swap? else ReshardStep(act)
  {
    if s.reshard.Received? {
      act := Swap;
    } else if s.reshard.Launching? {
      act := if s.reshard.nextShard < |s.live| then Launch else LaunchDone;
    } else if s.reshard.nextChannel < |s.retiring| {
      act := CloseOld;
    } else if AllExited(s.retiring) {
      act := OldDrained;
    } else {
      var k, a := DrainingCanMove(c, s.retiring);
      act := OldShard(k, a);
    }
  }

  /** Before its loops have ended, Stop is waiting for one that can go on. */
  lemma LoopsCanMove(c: Config, s: State) returns (act: Action)
    requires ValidConfig(c) && Core(c, s) && s.stop.AwaitLoops?
    ensures Enabled(c, s, act) && Internal(act) && !HandsOver(act) && StopStep(s, act)
  {
    match s.pass
    case TickedIn => act := TickOut;
    case TickedOut => act := TickDuration;
    case TickedAll => act := Propose(false);
    case Resting =>
      if s.handed.Some? {
        act := RecordCount;
      } else if s.updateRunning {
        act := UpdateLoopExits;
      } else if s.reshard.Idle? {
        act := ReshardLoopExits;
      } else if s.reshard.LoopDone? {
        act := LockForStop;
      } else {
        act := ReshardCanMove(c, s);
      }
  }

  /** Once Stop has been called and until it returns, something can always happen, even when
      Stop arrives in the middle of a pass or of a reshard. */
  lemma StopCanMove(c: Config, s: State) returns (act: Action)
    requires ValidConfig(c) && Core(c, s) && !s.stop.NotStopping? && !s.stop.Stopped?
    ensures Enabled(c, s, act) && Internal(act) && !HandsOver(act) && StopStep(s, act)
  {
    if s.stop.AwaitLoops? {
      act := LoopsCanMove(c, s);
    } else if s.stop.nextClose < |s.live| {
      act := CloseLive;
    } else if AllExited(s.live) {
      act := StopReturns;
    } else {
      var k, a := DrainingCanMove(c, s.live);
      act := LiveShard(k, a);
    }
  }

  predicate AllInternal(acts: seq<Action>) {
    forall i :: 0 <= i < |acts| ==> Internal(acts[i])
  }

  lemma NothingAfterCrash(c: Config, s: State, acts: seq<Action>)
    requires ValidConfig(c) && s.crashed && Run(c, s, acts).Some?
    ensures acts == []
  {
  }

  /** The only step of its own at which a queue can panic, and then it had steps left. */
  lemma OnlySwapPanics(c: Config, s: State, act: Action)
    requires ValidConfig(c) && Core(c, s) && Enabled(c, s, act) && Internal(act) && Apply(c, s, act).crashed
    ensures act.Swap? && s.reshard.Received?
    ensures 1 <= Measure(c, s)
  {
    hide Inv, Proposed;
    InvPanics(c, s, act);
  }

  lemma {:induction false} InternalRunsAreShort(c: Config, s: State, acts: seq<Action>)
    requires ValidConfig(c) && Core(c, s) && AllInternal(acts) && Run(c, s, acts).Some?
    ensures |acts| <= Measure(c, s)
    decreases |acts|
  {
    hide Measure, Inv;
    if acts != [] {
      var s' := Apply(c, s, acts[0]);
      assert Internal(acts[0]);
      StepKeepsInv(c, s, acts[0]);
      InternalLowersMeasure(c, s, acts[0]);
      if s'.crashed {
        OnlySwapPanics(c, s, acts[0]);
        NothingAfterCrash(c, s', acts[1..]);
      } else {
        InternalRunsAreShort(c, s', acts[1..]);
      }
    }
  }

  /** From any reachable state, no schedule of the queue's own steps is longer than the measure ... */
  lemma {:induction false} OwnStepsAreBounded(c: Config, s: State, acts: seq<Action>)
    requires ValidConfig(c) && Reachable(c, s) && !s.crashed && AllInternal(acts) && Run(c, s, acts).Some?
    ensures |acts| <= Measure(c, s)
  {
    ReachableInv(c, s);
    InternalRunsAreShort(c, s, acts);
  }

  ghost predicate Stuck(c: Config, s: State) {
    forall act :: Internal(act) ==> !Enabled(c, s, act)
  }

  /** ... a schedule that cannot be continued has everything delivered: unless a panic ended it,
      nothing is queued or pending and each series is finished completely and in order ... */
  lemma {:induction false} StuckMeansDelivered(c: Config, s: State)
    requires ValidConfig(c) && Reachable(c, s) && !s.crashed && !s.reshard.NotLaunched? && Stuck(c, s)
    ensures s.retiring == [] && AllHeld(s.live) == []
    ensures forall f: nat :: Series(c, Samples(s.finished), f) == Series(c, s.accepted, f)
    ensures forall m :: OfMetric(Samples(s.finished), m) == OfMetric(s.accepted, m)
    ensures multiset(Samples(s.finished)) == multiset(s.accepted)
  {
    ReachableInv(c, s);
    if s.reshard.Received? || s.reshard.Closing? || s.reshard.Launching? {
      var act := ReshardCanMove(c, s);
      assert false;
    }
    forall k | 0 <= k < |s.live| ensures s.live[k].Held() == [] {
      if s.live[k].Held() != [] {
        HolderIsNotStuck(c, s, k);
      }
    }
    NothingHeldAnywhere(s.live);
    DrainedMeansDelivered(c, s);
  }

  /** A started shard that holds anything can move, at the latest when its deadline fires. */
  lemma HolderCanMove(c: Config, s: State, k: nat) returns (a: ShardAction)
    requires ValidConfig(c) && Core(c, s) && k < |s.live| && LiveStarted(s) == |s.live|
    requires s.live[k].Held() != []
    ensures ShardCanMove(s.live, k, a)
  {
    var sh := s.live[k];
    assert ShardOk(c, sh, k, |s.live|, LiveStarted(s), LiveClosed(s));
    match sh.phase
    case Selecting => a := if sh.queue != [] then Receive else DeadlineFlush;
    case Sending(_, retries, _) => a := if retries > 0 then StoreReturns(StoreOk) else GiveUp;
    case Booking(_) => a := Book(0);
    case _ => a := Receive;
  }

  lemma HolderIsNotStuck(c: Config, s: State, k: nat)
    requires ValidConfig(c) && Core(c, s) && k < |s.live| && LiveStarted(s) == |s.live|
    requires s.live[k].Held() != [] && !s.crashed
    ensures !Stuck(c, s)
  {
    var a := HolderCanMove(c, s, k);
    assert Internal(LiveShard(k, a)) && Enabled(c, s, LiveShard(k, a));
  }

  lemma {:induction false} NothingHeldAnywhere(g: Generation)
    requires forall k :: 0 <= k < |g| ==> g[k].Held() == []
    ensures AllHeld(g) == []
  {
    if g != [] {
      assert g[0].Held() == [];
      NothingHeldAnywhere(g[1..]);
    }
  }

  /** ... and once Stop has been called, it has returned. */
  lemma {:induction false} StopTerminates(c: Config, s: State, acts: seq<Action>)
    requires ValidConfig(c) && Reachable(c, s) && !s.crashed && !s.stop.NotStopping?
    requires Run(c, s, acts).Some? && Stuck(c, Run(c, s, acts).value)
    ensures var t := Run(c, s, acts).value; t.crashed || t.stop.Stopped?
  {
    ReachableInv(c, s);
    RunKeepsInv(c, s, acts);
    StopIsForever(c, s, acts);
    var t := Run(c, s, acts).value;
    if !t.crashed && !t.stop.Stopped? {
      var act := StopCanMove(c, t);
    }
  }

  lemma {:induction false} StopIsForever(c: Config, s: State, acts: seq<Action>)
    requires ValidConfig(c) && !s.stop.NotStopping? && Run(c, s, acts).Some?
    ensures !Run(c, s, acts).value.stop.NotStopping?
    decreases |acts|
  {
    if acts != [] {
      StopIsForever(c, Apply(c, s, acts[0]), acts[1..]);
    }
  }

  /** A count on its way to the swap, if there is one, can be swapped to. */
  predicate CanSwap(s: State) {
    s.reshard.Received? ==> s.reshard.count >= 0
  }

  /** And it does return, from every state in which no negative count waits for the swap, also
      on a queue that has no shard. */
  lemma {:induction false} StopReturnsEventually(c: Config, s: State) returns (acts: seq<Action>)
    requires ValidConfig(c) && Core(c, s) && CanSwap(s) && !s.stop.NotStopping?
    ensures AllInternal(acts) && Run(c, s, acts).Some?
    ensures var t := Run(c, s, acts).value; !t.crashed && t.stop.Stopped?
    decreases Measure(c, s)
  {
    hide Proposed, Measure, Inv;
    acts := [];
    if !s.stop.Stopped? {
      var act := StopCanMove(c, s);
      var s' := Apply(c, s, act);
      StopGoesOn(c, s, act);
      StepKeepsInv(c, s, act);
      InternalLowersMeasure(c, s, act);
      var rest := StopReturnsEventually(c, s');
      acts := [act] + rest;
      assert acts[1..] == rest;
      assert forall i :: 0 < i < |acts| ==> acts[i] == rest[i - 1];
    }
  }

  lemma StopGoesOn(c: Config, s: State, act: Action)
    requires ValidConfig(c) && Core(c, s) && CanSwap(s) && !s.stop.NotStopping?
    requires Enabled(c, s, act) && Internal(act) && !HandsOver(act)
    ensures var s' := Apply(c, s, act); !s'.crashed && CanSwap(s') && !s'.stop.NotStopping?
  {
    InvPanics(c, s, act);
  }

  /** From the other states it never returns: the reshard loop can only panic. */
  lemma {:induction false} NegativeCountBlocksStop(c: Config, s: State, acts: seq<Action>)
    requires ValidConfig(c) && Core(c, s) && !CanSwap(s) && Run(c, s, acts).Some?
    ensures !Run(c, s, acts).value.stop.Stopped?
    decreases |acts|
  {
    if acts != [] {
      var s' := Apply(c, s, acts[0]);
      StepKeepsInv(c, s, acts[0]);
      NegativeCountStays(c, s, acts[0]);
      if s'.crashed {
        NothingAfterCrash(c, s', acts[1..]);
      } else {
        NegativeCountBlocksStop(c, s', acts[1..]);
      }
    }
  }

  lemma NegativeCountStays(c: Config, s: State, act: Action)
    requires ValidConfig(c) && Core(c, s) && !CanSwap(s) && Enabled(c, s, act)
    ensures var s' := Apply(c, s, act); if s'.crashed then !s'.stop.Stopped? else !CanSwap(s')
  {
    var s' := Apply(c, s, act);
    if s'.crashed {
      InvPanics(c, s, act);
    }
  }

  /** In every state after Stop was called: the queue's own steps can lead to Stop returned
      exactly if no negative count waits for the swap. */
  lemma StopReturnsIff(c: Config, s: State)
    requires ValidConfig(c) && Reachable(c, s) && !s.crashed && !s.stop.NotStopping?
    ensures (exists acts :: AllInternal(acts) && CanReturn(c, s, acts)) <==> CanSwap(s)
  {
    ReachableInv(c, s);
    InvStopReturnsIff(c, s);
  }

  lemma InvStopReturnsIff(c: Config, s: State)
    requires ValidConfig(c) && Core(c, s) && !s.stop.NotStopping?
    ensures (exists acts :: AllInternal(acts) && CanReturn(c, s, acts)) <==> CanSwap(s)
  {
    if CanSwap(s) {
      var acts := StopReturnsEventually(c, s);
      assert CanReturn(c, s, acts);
    } else {
      forall acts | CanReturn(c, s, acts) ensures false {
        NegativeCountBlocksStop(c, s, acts);
      }
    }
  }

  predicate CanReturn(c: Config, s: State, acts: seq<Action>)
    requires ValidConfig(c)
  {
    Run(c, s, acts).Some? && Run(c, s, acts).value.stop.Stopped?
  }

  // ----- a reshard ends, however many samples keep arriving -----

  /** The steps that bring a reshard to its end. */
  predicate ReshardStep(act: Action) {
    act.CloseOld? || act.OldShard? || act.OldDrained? || act.Launch? || act.LaunchDone?
  }

  predicate HandsOver(act: Action) {
    act.Propose? && act.handOff
  }

  /** Everything but what the live shards hold, the logs and the meters. */
  predicate SameControl(s: State, s': State) {
    && s'.retiring == s.retiring && |s'.live| == |s.live|
    && s'.reshard == s.reshard && s'.stop == s.stop && s'.pass == s.pass
    && s'.updateRunning == s.updateRunning && s'.handed == s.handed
  }

  lemma AppendKeepsControl(c: Config, s: State, x: Sample, meets: bool)
    requires ValidConfig(c)
    ensures SameControl(s, DoAppend(c, s, x, meets))
  {
  }

  function ToLaunch(s: State): nat {
    match s.reshard
    case Closing(_) => |s.live|
    case Launching(j) => if j <= |s.live| then |s.live| - j else 0
    case _ => 0
  }

  function ReshardWork(c: Config, s: State): nat {
    TotalPotential(c, s.retiring) + LoopCost(s) + ToLaunch(s)
  }

  /** Only a reshard step touches the retiring generation or the reshard loop, except for the
      loop's end. */
  lemma OthersKeepReshard(c: Config, s: State, act: Action)
    requires ValidConfig(c) && Core(c, s) && Enabled(c, s, act) && !HandsOver(act) && !ReshardStep(act)
    requires !s.reshard.NotLaunched? && !s.reshard.Received?
    ensures var s' := Apply(c, s, act);
            && s'.retiring == s.retiring && |s'.live| == |s.live|
            && (s'.reshard == s.reshard || (s.reshard.Idle? && s'.reshard.LoopDone?))
  {
    hide Proposed, NextIntegral, Gens, Order, Ledger;
  }

  lemma LoopStepShrinks(c: Config, s: State, act: Action)
    requires ValidConfig(c) && Core(c, s) && Enabled(c, s, act)
    requires act.OldDrained? || act.Launch? || act.LaunchDone?
    ensures var s' := Apply(c, s, act);
            && (s'.reshard.Launching? || s'.reshard.Idle?)
            && ReshardWork(c, s') < ReshardWork(c, s)
  {
  }

  lemma RetiringShrinks(c: Config, s: State, act: Action)
    requires ValidConfig(c) && Core(c, s) && Enabled(c, s, act) && (act.CloseOld? || act.OldShard?)
    ensures var s' := Apply(c, s, act);
            && s'.reshard.Closing? && |s'.live| == |s.live|
            && ReshardWork(c, s') < ReshardWork(c, s)
  {
    match act
    case CloseOld => CloseOldLowers(c, s, s.reshard.nextChannel);
    case OldShard(k, a) => OldShardLowers(c, s, k, a);
  }

  /** Before the swap there is nothing retiring; from then on no action raises the work that
      is left, and each reshard step lowers it. */
  lemma ReshardWorkShrinks(c: Config, s: State, act: Action)
    requires ValidConfig(c) && Core(c, s) && Enabled(c, s, act) && !HandsOver(act)
    requires !s.reshard.NotLaunched? && !s.reshard.Received?
    ensures var s' := Apply(c, s, act);
            && !s'.reshard.NotLaunched? && !s'.reshard.Received?
            && ReshardWork(c, s') <= ReshardWork(c, s)
            && (ReshardStep(act) ==> ReshardWork(c, s') < ReshardWork(c, s))
  {
    hide Core, Proposed, NextIntegral, TotalPotential;
    match act
    case CloseOld => RetiringShrinks(c, s, act);
    case OldShard(_, _) => RetiringShrinks(c, s, act);
    case OldDrained => LoopStepShrinks(c, s, act);
    case Launch => LoopStepShrinks(c, s, act);
    case LaunchDone => LoopStepShrinks(c, s, act);
    case _ => OthersKeepReshard(c, s, act);
  }

  function ReshardSteps(acts: seq<Action>): nat {
    if acts == [] then 0 else (if ReshardStep(acts[0]) then 1 else 0) + ReshardSteps(acts[1..])
  }

  /** It counts each of those steps once. */
  lemma {:induction false} ReshardStepsCount(a: seq<Action>, act: Action, b: seq<Action>)
    ensures ReshardSteps(a + [act] + b) == ReshardSteps(a) + ReshardSteps(b)
              + if act.CloseOld? || act.OldShard? || act.OldDrained? || act.Launch? || act.LaunchDone? then 1 else 0
    decreases |a|
  {
    var all := a + [act] + b;
    if a == [] {
      assert all[1..] == b;
    } else {
      ReshardStepsCount(a[1..], act, b);
      assert all[0] == a[0] && all[1..] == a[1..] + [act] + b;
    }
  }

  lemma {:induction false} ReshardStepsBounded(c: Config, s: State, acts: seq<Action>)
    requires ValidConfig(c) && Core(c, s) && Run(c, s, acts).Some?
    requires !s.reshard.NotLaunched? && !s.reshard.Received?
    requires forall i :: 0 <= i < |acts| ==> !HandsOver(acts[i])
    ensures ReshardSteps(acts) <= ReshardWork(c, s)
    decreases |acts|
  {
    if acts != [] {
      var s' := Apply(c, s, acts[0]);
      assert !HandsOver(acts[0]);
      StepKeepsInv(c, s, acts[0]);
      ReshardWorkShrinks(c, s, acts[0]);
      if s'.crashed {
        NothingAfterCrash(c, s', acts[1..]);
      } else {
        ReshardStepsBounded(c, s', acts[1..]);
      }
    }
  }

  /** Appends cannot hold a reshard up. In any run that hands over no new count, whatever else
      it contains, only so many reshard steps happen, and as long as the reshard is not over
      one of them can happen: the old shards are drained and the new ones started. */
  lemma ReshardEnds(c: Config, s: State, acts: seq<Action>)
    requires ValidConfig(c) && Reachable(c, s) && (s.reshard.Closing? || s.reshard.Launching?)
    requires forall i :: 0 <= i < |acts| ==> !HandsOver(acts[i])
    requires !s.crashed && Run(c, s, acts).Some?
    ensures ReshardSteps(acts) <= ReshardWork(c, s)
    ensures var t := Run(c, s, acts).value;
            !t.crashed && (t.reshard.Closing? || t.reshard.Launching?) ==>
              exists act :: ReshardStep(act) && Enabled(c, t, act)
  {
    ReachableInv(c, s);
    ReshardStepsBounded(c, s, acts);
    RunKeepsInv(c, s, acts);
    var t := Run(c, s, acts).value;
    if !t.crashed && (t.reshard.Closing? || t.reshard.Launching?) {
      var act := ReshardCanMove(c, t);
    }
  }

  // ----- Stop ends, however many samples keep arriving -----

  /** The steps that bring Stop to its end: those of the loops it waits for, and once it holds
      the lock those of the shards it has closed. */
  predicate StopStep(s: State, act: Action) {
    || ReshardStep(act) || act.Swap? || act.RecordCount?
    || act.TickOut? || act.TickDuration? || act.Propose?
    || act.UpdateLoopExits? || act.ReshardLoopExits? || act.LockForStop?
    || act.CloseLive? || act.StopReturns? || (act.LiveShard? && s.stop.Draining?)
  }

  /** What a full shard of this configuration may still have to do. */
  function ShardBound(c: Config): nat
    requires ValidConfig(c)
  {
    c.queueCapacity * (Budget(c) + 4) + c.maxSamplesPerSend * (Budget(c) + 3) + Budget(c) + 4
  }

  function GenBound(c: Config): nat
    requires ValidConfig(c)
  {
    c.maxShards * ShardBound(c)
  }

  lemma Times(a: nat, b: nat, k: nat)
    requires a <= b
    ensures a * k <= b * k
  {
  }

  lemma PotentialBounded(c: Config, sh: Shard)
    requires ValidConfig(c) && ShardInv(c, sh)
    ensures Potential(c, sh) <= ShardBound(c)
  {
    Times(|sh.queue|, c.queueCapacity, Budget(c) + 4);
    if |sh.pending| <= c.maxSamplesPerSend {
      Times(|sh.pending|, c.maxSamplesPerSend, Budget(c) + 3);
    }
  }

  lemma TimesStep(n: nat, k: nat)
    requires n > 0
    ensures n * k == k + (n - 1) * k
  {
  }

  lemma {:induction false} TotalBounded(c: Config, g: Generation, bound: nat)
    requires forall k :: 0 <= k < |g| ==> Potential(c, g[k]) <= bound
    ensures TotalPotential(c, g) <= |g| * bound
  {
    hide Potential;
    if g != [] {
      assert Potential(c, g[0]) <= bound;
      TotalBounded(c, g[1..], bound);
      TimesStep(|g|, bound);
    }
  }

  lemma LiveBounded(c: Config, s: State)
    requires ValidConfig(c) && Core(c, s)
    ensures TotalPotential(c, s.live) <= GenBound(c)
  {
    forall k | 0 <= k < |s.live| ensures Potential(c, s.live[k]) <= ShardBound(c) {
      assert ShardOk(c, s.live[k], k, |s.live|, LiveStarted(s), LiveClosed(s));
      PotentialBounded(c, s.live[k]);
    }
    hide ShardBound, Potential;
    TotalBounded(c, s.live, ShardBound(c));
    Times(|s.live|, c.maxShards, ShardBound(c));
  }

  /** The steps left for the resharding loop, if it is handed nothing more. */
  function LoopWork(c: Config, s: State): nat
    requires ValidConfig(c)
  {
    if s.reshard.Received? then 4 + GenBound(c) + c.maxShards else ReshardWork(c, s)
  }

  function PassWork(c: Config, s: State): nat
    requires ValidConfig(c)
  {
    var handOver := 6 + GenBound(c) + c.maxShards;
    match s.pass
    case Resting => 0
    case TickedAll => handOver
    case TickedOut => handOver + 1
    case TickedIn => handOver + 2
  }

  function DrainWork(c: Config, s: State): nat
    requires ValidConfig(c)
  {
    match s.stop
    case NotStopping => 0
    case AwaitLoops => 2 + GenBound(c)
    case Draining(_) => 1 + TotalPotential(c, s.live)
    case Stopped => 0
  }

  function StopWork(c: Config, s: State): nat
    requires ValidConfig(c)
  {
    LoopWork(c, s) + PassWork(c, s) + DrainWork(c, s)
    + (if s.updateRunning then 1 else 0) + (if s.handed.Some? then 1 else 0)
  }

  lemma HandOverShrinks(c: Config, s: State, act: Action)
    requires ValidConfig(c) && Core(c, s) && Enabled(c, s, act) && !s.stop.NotStopping?
    requires act.TickOut? || act.TickDuration? || act.Propose?
    ensures StopWork(c, Apply(c, s, act)) < StopWork(c, s)
  {
  }

  lemma SwapShrinks(c: Config, s: State)
    requires ValidConfig(c) && Core(c, s) && Enabled(c, s, Swap) && !s.stop.NotStopping? && s.reshard.count >= 0
    ensures StopWork(c, Apply(c, s, Swap)) < StopWork(c, s)
  {
    LiveBounded(c, s);
  }

  lemma ReshardShrinks(c: Config, s: State, act: Action)
    requires ValidConfig(c) && Core(c, s) && Enabled(c, s, act) && !s.stop.NotStopping? && ReshardStep(act)
    ensures StopWork(c, Apply(c, s, act)) < StopWork(c, s)
  {
    ReshardWorkShrinks(c, s, act);
  }

  lemma DrainShrinks(c: Config, s: State, act: Action)
    requires ValidConfig(c) && Core(c, s) && Enabled(c, s, act) && !s.stop.NotStopping?
    requires act.LockForStop? || act.CloseLive? || act.StopReturns? || (act.LiveShard? && s.stop.Draining?)
    ensures StopWork(c, Apply(c, s, act)) < StopWork(c, s)
  {
    match act
    case LockForStop => LiveBounded(c, s);
    case CloseLive => CloseLiveLowers(c, s, s.stop.nextClose);
    case LiveShard(k, a) => LiveShardLowers(c, s, k, a);
    case _ =>
  }

  lemma LoopEndShrinks(c: Config, s: State, act: Action)
    requires ValidConfig(c) && Core(c, s) && Enabled(c, s, act) && !s.stop.NotStopping?
    requires act.RecordCount? || act.UpdateLoopExits? || act.ReshardLoopExits?
    ensures StopWork(c, Apply(c, s, act)) < StopWork(c, s)
  {
  }

  /** Appends and shards that go on working before the lock is taken do not add to it. */
  lemma SameStopWork(c: Config, s: State, s': State)
    requires ValidConfig(c) && SameControl(s, s') && !s.stop.Draining?
    ensures StopWork(c, s') == StopWork(c, s)
  {
    hide GenBound, TotalPotential;
    assert LoopWork(c, s') == LoopWork(c, s);
    assert PassWork(c, s') == PassWork(c, s);
    assert DrainWork(c, s') == DrainWork(c, s);
    hide LoopWork, PassWork, DrainWork;
  }

  lemma NoSecondCall(c: Config, s: State, act: Action)
    requires ValidConfig(c) && Core(c, s) && Enabled(c, s, act) && !s.stop.NotStopping?
    requires act.CallStart? || act.CallStop?
    ensures Apply(c, s, act).crashed
  {
  }

  lemma StopWorkShrinks(c: Config, s: State, act: Action)
    requires ValidConfig(c) && Core(c, s) && Enabled(c, s, act) && !s.stop.NotStopping?
    requires !act.Tick? && !Apply(c, s, act).crashed
    ensures StopWork(c, Apply(c, s, act)) <= StopWork(c, s) - (if StopStep(s, act) then 1 else 0)
  {
    hide Core, StopWork, Proposed, NextIntegral;
    if act.Append? {
      AppendKeepsControl(c, s, act.sample, act.meets);
      SameStopWork(c, s, Apply(c, s, act));
    } else if act.LiveShard? && !s.stop.Draining? {
      SameStopWork(c, s, Apply(c, s, act));
    } else if act.CallStart? || act.CallStop? {
      NoSecondCall(c, s, act);
    } else if ReshardStep(act) {
      ReshardShrinks(c, s, act);
    } else if act.TickOut? || act.TickDuration? || act.Propose? {
      HandOverShrinks(c, s, act);
    } else if act.Swap? {
      SwapShrinks(c, s);
    } else if act.RecordCount? || act.UpdateLoopExits? || act.ReshardLoopExits? {
      LoopEndShrinks(c, s, act);
    } else {
      DrainShrinks(c, s, act);
    }
  }

  lemma PanickingStopStep(c: Config, s: State, act: Action)
    requires ValidConfig(c) && Core(c, s) && Enabled(c, s, act) && Apply(c, s, act).crashed && StopStep(s, act)
    ensures 1 <= StopWork(c, s)
  {
    hide Inv, Proposed;
    InvPanics(c, s, act);
  }

  function StopSteps(c: Config, s: State, acts: seq<Action>): nat
    requires ValidConfig(c) && Run(c, s, acts).Some?
    decreases |acts|
  {
    if acts == [] then 0
    else (if StopStep(s, acts[0]) then 1 else 0) + StopSteps(c, Apply(c, s, acts[0]), acts[1..])
  }

  /** Every step of the queue itself counts, once, except those of live shards before Stop holds the lock. */
  lemma StopStepsCount(c: Config, s: State, act: Action, rest: seq<Action>)
    requires ValidConfig(c) && Run(c, s, [act] + rest).Some?
    ensures Enabled(c, s, act) && Run(c, Apply(c, s, act), rest).Some?
    ensures StopSteps(c, s, [act] + rest) == StopSteps(c, Apply(c, s, act), rest)
              + if Internal(act) && (act.LiveShard? ==> s.stop.Draining?) then 1 else 0
  {
    assert ([act] + rest)[1..] == rest;
  }

  lemma {:induction false} StopStepsBounded(c: Config, s: State, acts: seq<Action>)
    requires ValidConfig(c) && Core(c, s) && !s.stop.NotStopping?
    requires Run(c, s, acts).Some? && Tick !in acts
    ensures StopSteps(c, s, acts) <= StopWork(c, s)
    decreases |acts|
  {
    if acts != [] {
      var s' := Apply(c, s, acts[0]);
      StepKeepsInv(c, s, acts[0]);
      if s'.crashed {
        if StopStep(s, acts[0]) { PanickingStopStep(c, s, acts[0]); }
        NothingAfterCrash(c, s', acts[1..]);
      } else {
        StopFlags(c, s, acts[0]);
        StopWorkShrinks(c, s, acts[0]);
        StopStepsBounded(c, s', acts[1..]);
      }
    }
  }

  /** Appends cannot hold Stop up. In any run after Stop was called in which the clock does not
      start a new pass, whatever is appended meanwhile, only so many of the steps Stop waits for
      happen, and one of them can happen until it has returned. */
  lemma StopEndsUnderAppends(c: Config, s: State, acts: seq<Action>)
    requires ValidConfig(c) && Reachable(c, s) && !s.crashed && !s.stop.NotStopping?
    requires Run(c, s, acts).Some? && Tick !in acts
    ensures StopSteps(c, s, acts) <= StopWork(c, s)
    ensures var t := Run(c, s, acts).value;
            t.crashed || t.stop.Stopped? || exists act :: StopStep(t, act) && Enabled(c, t, act)
  {
    ReachableInv(c, s);
    StopStepsBounded(c, s, acts);
    RunKeepsInv(c, s, acts);
    StopIsForever(c, s, acts);
    var t := Run(c, s, acts).value;
    if !t.crashed && !t.stop.Stopped? {
      var act := StopCanMove(c, t);
    }
  }
}
