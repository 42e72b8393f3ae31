/** The write queue as a state machine: appends, shards, the two background loops, live
    resharding and Stop, under every interleaving. An Action names which goroutine moves next
    and what the outside world answers, so every run of the system is a sequence of actions. */
module QueueProtocol {
  import opened Model
  import opened ShardMachine
  import opened ReshardDecision
  import opened Ewma

  type Generation = seq<Shard>

  /** Where reshardLoop is. Starting the very first generation uses Launching too: Start is
      taken to be over before the first count is handed to the loop. */
  datatype ReshardPc =
    | NotLaunched
    | Idle
    | Received(count: int)
    | Closing(nextChannel: nat)
    | Launching(nextShard: nat)
    | LoopDone

  /** Where Stop is. Draining holds the shards lock. */
  datatype StopPc =
    | NotStopping
    | AwaitLoops
    | Draining(nextClose: nat)
    | Stopped

  /** Where calculateDesiredShards is: the three counters are ticked one after the other. */
  datatype Pass = Resting | TickedIn | TickedOut | TickedAll

  /** What the controller measures: samples counted in and out, the nanoseconds spent sending,
      and the integral of the backlog. */
  datatype Meters = Meters(samplesIn: Meter, samplesOut: Meter, outDuration: Meter, integral: real)

  datatype State = State(
    live: Generation,           // the generation appends go to
    retiring: Generation,       // an unlinked generation being drained, [] when there is none
    reshard: ReshardPc,
    stop: StopPc,
    updateRunning: bool,        // updateShardsLoop has not returned
    pass: Pass,
    handed: Option<int>,        // a count sent to reshardLoop and not yet recorded in numShards
    numShards: int,
    appended: seq<Sample>,      // arguments of Append, in order
    accepted: seq<Sample>,      // samples put on a channel, in order
    overflowed: seq<Sample>,    // samples dropped because their channel was full
    relabelDropped: nat,
    finished: seq<Sent>,        // samples whose send is over, in order
    meters: Meters,
    crashed: bool)              // a goroutine panicked

  datatype Action =
    | Append(sample: Sample, meets: bool)
    | CallStart
    | Tick
    | TickOut
    | TickDuration
    | Propose(handOff: bool)
    | RecordCount
    | Swap
    | CloseOld
    | OldDrained
    | Launch
    | LaunchDone
    | OldShard(k: nat, a: ShardAction)
    | LiveShard(k: nat, a: ShardAction)
    | CallStop
    | UpdateLoopExits
    | ReshardLoopExits
    | LockForStop
    | CloseLive
    | StopReturns

  function Fresh(n: nat): Generation {
    seq(n, i => EmptyShard)
  }

  function Init(): State {
    State(Fresh(1), [], NotLaunched, NotStopping, false, Resting, None, 1, [], [], [], 0, [],
          Meters(EmptyMeter, EmptyMeter, EmptyMeter, 0.0), false)
  }

  predicate AllExited(g: Generation) {
    forall k :: 0 <= k < |g| ==> g[k].phase.Exited?
  }

  predicate ShardCanMove(g: Generation, k: nat, a: ShardAction) {
    k < |g| && ShardEnabled(g[k], a)
  }

  function Rate(m: Meter): real {
    RateOf(EWMA_WEIGHT, UPDATE_INTERVAL, m.ticked)
  }

  /** The integral term as this pass updates it. */
  function NextIntegral(m: Meters): real {
    m.integral + (Rate(m.samplesIn) - Rate(m.samplesOut)) * 0.1
  }

  /** The count that a pass which has ticked all counters offers to the resharding loop. */
  function Proposed(c: Config, s: State): Option<int> {
    var m := s.meters;
    Proposal(Rate(m.samplesIn), Rate(m.samplesOut), Rate(m.outDuration), NextIntegral(m), s.numShards, c.maxShards)
  }

  /** A goroutine of an unbuffered channel that may be waiting for this sample. */
  predicate CanHandOver(c: Config, s: State, x: Sample) {
    Relabelled(c, x).Some? && |s.live| > 0 && CanMeet(c, s.live[Fp(c, Relabelled(c, x).value) % |s.live|])
  }

  /** Whether the action can happen now; nothing happens after a panic. A select on the
      handoff channel may always take its default branch. */
  predicate Enabled(c: Config, s: State, act: Action) {
    && !s.crashed
    && match act
       case Append(x, meets) => !s.stop.Draining? && (meets ==> CanHandOver(c, s, x))
       case CallStart => s.reshard.NotLaunched?
       case Tick => s.updateRunning && s.pass.Resting? && s.handed.None?
       case TickOut => s.pass.TickedIn?
       case TickDuration => s.pass.TickedOut?
       case Propose(handOff) =>
         s.pass.TickedAll? && (handOff ==> s.reshard.Idle? && Proposed(c, s).Some?)
       case RecordCount => s.handed.Some?
       case Swap => s.reshard.Received?
       case CloseOld => s.reshard.Closing? && s.reshard.nextChannel < |s.retiring|
       case OldDrained => s.reshard.Closing? && s.reshard.nextChannel >= |s.retiring| && AllExited(s.retiring)
       case Launch => s.reshard.Launching? && s.reshard.nextShard < |s.live|
       case LaunchDone => s.reshard.Launching? && s.reshard.nextShard >= |s.live|
       case OldShard(k, a) => ShardCanMove(s.retiring, k, a)
       case LiveShard(k, a) => ShardCanMove(s.live, k, a)
       case CallStop => !s.reshard.NotLaunched?
       case UpdateLoopExits => s.stop != NotStopping && s.updateRunning && s.pass.Resting? && s.handed.None?
       case ReshardLoopExits => s.stop != NotStopping && s.reshard.Idle?
       case LockForStop => s.stop.AwaitLoops? && !s.updateRunning && s.reshard.LoopDone?
       case CloseLive => s.stop.Draining? && s.stop.nextClose < |s.live|
       case StopReturns => s.stop.Draining? && s.stop.nextClose >= |s.live| && AllExited(s.live)
  }

  function Crash(s: State): State {
    s.(crashed := true)
  }

  function CountIn(m: Meters): Meters {
    m.(samplesIn := Counted(m.samplesIn, 1))
  }

  /** What a shard's step counts: the samples of a batch that is over, then the time it took. */
  function CountOut(m: Meters, a: ShardAction, sent: nat): Meters {
    m.(samplesOut := Counted(m.samplesOut, sent),
       outDuration := Counted(m.outDuration, if a.Book? then a.took else 0))
  }

  /** enqueue: the remainder of the fingerprint picks the channel; a full channel drops the
      sample, an empty generation divides by zero and a closed channel panics. */
  function Enqueue(c: Config, s: State, y: Sample, meets: bool): State
    requires ValidConfig(c)
  {
    if |s.live| == 0 then Crash(s)
    else
      var k := Fp(c, y) % |s.live|;
      if s.live[k].closed then Crash(s)
      else match Offer(c, s.live[k], y, meets)
        case Some(sh) =>
          s.(live := s.live[k := sh], accepted := s.accepted + [y], meters := CountIn(s.meters))
        case None => s.(overflowed := s.overflowed + [y], meters := CountIn(s.meters))
  }

  function DoAppend(c: Config, s: State, x: Sample, meets: bool): State
    requires ValidConfig(c)
  {
    var s' := s.(appended := s.appended + [x]);
    match Relabelled(c, x)
    case None => s'.(relabelDropped := s.relabelDropped + 1)
    case Some(y) => Enqueue(c, s', y, meets)
  }

  /** Closing a channel that is already closed panics. */
  function CloseChannel(sh: Shard): Option<Shard> {
    if sh.closed then None else Some(sh.(closed := true))
  }

  function DoSwap(s: State, n: int): State {
    if n < 0 then Crash(s)
    else s.(retiring := s.live, live := Fresh(n), reshard := Closing(0))
  }

  function DoCloseOld(s: State, i: nat): State
    requires i < |s.retiring|
  {
    match CloseChannel(s.retiring[i])
    case None => Crash(s)
    case Some(sh) => s.(retiring := s.retiring[i := sh], reshard := Closing(i + 1))
  }

  function DoCloseLive(s: State, i: nat): State
    requires i < |s.live|
  {
    match CloseChannel(s.live[i])
    case None => Crash(s)
    case Some(sh) => s.(live := s.live[i := sh], stop := Draining(i + 1))
  }

  function DoLaunch(s: State, j: nat): State
    requires j < |s.live|
  {
    s.(live := s.live[j := s.live[j].(phase := Selecting)], reshard := Launching(j + 1))
  }

  function DoOldShard(c: Config, s: State, k: nat, a: ShardAction): State
    requires ValidConfig(c) && ShardCanMove(s.retiring, k, a)
  {
    var step := ShardApply(c, s.retiring[k], a);
    s.(retiring := s.retiring[k := step.next], finished := s.finished + step.sent,
       meters := CountOut(s.meters, a, |step.sent|))
  }

  function DoLiveShard(c: Config, s: State, k: nat, a: ShardAction): State
    requires ValidConfig(c) && ShardCanMove(s.live, k, a)
  {
    var step := ShardApply(c, s.live[k], a);
    s.(live := s.live[k := step.next], finished := s.finished + step.sent,
       meters := CountOut(s.meters, a, |step.sent|))
  }

  function DoTick(s: State): State {
    s.(pass := TickedIn, meters := s.meters.(samplesIn := Ticked(s.meters.samplesIn)))
  }

  function DoTickOut(s: State): State {
    s.(pass := TickedOut, meters := s.meters.(samplesOut := Ticked(s.meters.samplesOut)))
  }

  function DoTickDuration(s: State): State {
    s.(pass := TickedAll, meters := s.meters.(outDuration := Ticked(s.meters.outDuration)))
  }

  function DoPropose(c: Config, s: State, handOff: bool): State
    requires handOff ==> Proposed(c, s).Some?
  {
    var s' := s.(pass := Resting, meters := s.meters.(integral := NextIntegral(s.meters)));
    if handOff then
      var n := Proposed(c, s).value;
      s'.(reshard := Received(n), handed := Some(n))
    else s'
  }

  function Apply(c: Config, s: State, act: Action): State
    requires ValidConfig(c) && Enabled(c, s, act)
  {
    match act
    case Append(x, meets) => DoAppend(c, s, x, meets)
    case CallStart => s.(reshard := Launching(0), updateRunning := true)
    case Tick => DoTick(s)
    case TickOut => DoTickOut(s)
    case TickDuration => DoTickDuration(s)
    case Propose(handOff) => DoPropose(c, s, handOff)
    case RecordCount => s.(numShards := s.handed.value, handed := None)
    case Swap => DoSwap(s, s.reshard.count)
    case CloseOld => DoCloseOld(s, s.reshard.nextChannel)
    case OldDrained => s.(retiring := [], reshard := Launching(0))
    case Launch => DoLaunch(s, s.reshard.nextShard)
    case LaunchDone => s.(reshard := Idle)
    case OldShard(k, a) => DoOldShard(c, s, k, a)
    case LiveShard(k, a) => DoLiveShard(c, s, k, a)
    case CallStop => if s.stop.NotStopping? then s.(stop := AwaitLoops) else Crash(s)
    case UpdateLoopExits => s.(updateRunning := false)
    case ReshardLoopExits => s.(reshard := LoopDone)
    case LockForStop => s.(stop := Draining(0))
    case CloseLive => DoCloseLive(s, s.stop.nextClose)
    case StopReturns => s.(stop := Stopped)
  }

  /** The state after a run, or None if some action of it could not happen. */
  function Run(c: Config, s: State, acts: seq<Action>): Option<State>
    requires ValidConfig(c)
    decreases |acts|
  {
    if acts == [] then Some(s)
    else if Enabled(c, s, acts[0]) then Run(c, Apply(c, s, acts[0]), acts[1..])
    else None
  }

  ghost predicate Reachable(c: Config, s: State)
    requires ValidConfig(c)
  {
    exists acts :: Run(c, Init(), acts) == Some(s)
  }
}
