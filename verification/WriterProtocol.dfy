/** The writer around its queues: reconfiguration stops every old queue before it starts any
    new one, under a lock that keeps appends out. All queues that ever existed stay in the
    state, so that nothing is assumed about goroutines of queues that were replaced. */
module WriterProtocol {
  import opened Model
  import opened ShardMachine
  import opened QueueProtocol
  import opened QueueInvariant
  import opened QueueTheorems
  import opened QueueTermination

  datatype Manager = Manager(cfg: Config, state: State)

  type Pool = seq<Manager>

  datatype WriterPc =
    | Unlocked
    | StoppingQueue(i: nat, called: bool, configs: seq<Config>)
    | StartingQueue(i: nat)

  /** A send that is over, and which queue of which configuration made it. */
  datatype Delivery = Delivery(epoch: nat, queue: nat, sent: Sent)

  /** An Append of the writer that has reached the queues before `next`. */
  datatype InFlight = InFlight(sample: Sample, next: nat)

  /** The last pool is the one in use; `wire` lists all sends in the order they ended. `offered`
      has, for each pool, the samples whose Append began while it was in use. */
  datatype WriterState = WriterState(
    epochs: seq<Pool>,
    pc: WriterPc,
    wire: seq<Delivery>,
    offered: seq<seq<Sample>>,
    inFlight: seq<InFlight>)

  datatype WriterAction =
    | QueueMoves(epoch: nat, queue: nat, act: Action)
    | BeginAppend(sample: Sample)
    | AppendNext(k: nat, meets: bool)
    | EndAppend(k: nat)
    | ApplyConfig(configs: seq<Option<Config>>)
    | StopNext
    | StopReturned
    | ReplaceQueues
    | StartNext
    | ApplyReturns

  function InitWriter(): WriterState {
    WriterState([[]], Unlocked, [], [[]], [])
  }

  function Current(w: WriterState): Pool
    requires w.epochs != []
  {
    w.epochs[|w.epochs| - 1]
  }

  predicate InPool(w: WriterState, e: nat, i: nat) {
    e < |w.epochs| && i < |w.epochs[e]|
  }

  /** What a queue does by itself, including its clock. */
  predicate OwnStep(act: Action) {
    Internal(act) || act.Tick?
  }

  predicate CanAct(w: WriterState, e: nat, i: nat, act: Action) {
    && InPool(w, e, i)
    && ValidConfig(w.epochs[e][i].cfg)
    && Enabled(w.epochs[e][i].cfg, w.epochs[e][i].state, act)
  }

  function Tagged(e: nat, i: nat, sent: seq<Sent>): (r: seq<Delivery>)
    ensures |r| == |sent|
    ensures forall k :: 0 <= k < |r| ==> r[k] == Delivery(e, i, sent[k])
  {
    seq(|sent|, k requires 0 <= k < |sent| => Delivery(e, i, sent[k]))
  }

  function Act(w: WriterState, e: nat, i: nat, act: Action): WriterState
    requires CanAct(w, e, i, act)
  {
    var m := w.epochs[e][i];
    var next := Apply(m.cfg, m.state, act);
    var news := if |next.finished| >= |m.state.finished| then next.finished[|m.state.finished|..] else [];
    w.(epochs := w.epochs[e := w.epochs[e][i := m.(state := next)]], wire := w.wire + Tagged(e, i, news))
  }

  predicate AllBuilt(configs: seq<Option<Config>>) {
    forall k :: 0 <= k < |configs| ==> configs[k].Some? && ValidConfig(configs[k].value)
  }

  predicate SomeFails(configs: seq<Option<Config>>) {
    exists k :: 0 <= k < |configs| && configs[k].None?
  }

  function Values(configs: seq<Option<Config>>): seq<Config>
    requires AllBuilt(configs)
  {
    seq(|configs|, k requires 0 <= k < |configs| => configs[k].value)
  }

  function FreshPool(configs: seq<Config>): Pool {
    seq(|configs|, k requires 0 <= k < |configs| => Manager(configs[k], Init()))
  }

  /** Old queues may still move; the lock only keeps Append and ApplyConfig apart: appends share
      it, and ApplyConfig waits until none is left. */
  predicate WriterEnabled(w: WriterState, a: WriterAction) {
    && w.epochs != []
    && match a
       case QueueMoves(e, i, act) => OwnStep(act) && CanAct(w, e, i, act)
       case BeginAppend(_) => w.pc.Unlocked?
       case AppendNext(k, meets) =>
         k < |w.inFlight| && CanAct(w, |w.epochs| - 1, w.inFlight[k].next, Append(w.inFlight[k].sample, meets))
       case EndAppend(k) => k < |w.inFlight| && w.inFlight[k].next >= |Current(w)|
       case ApplyConfig(configs) =>
         w.pc.Unlocked? && w.inFlight == [] && (SomeFails(configs) || AllBuilt(configs))
       case StopNext => w.pc.StoppingQueue? && !w.pc.called && CanAct(w, |w.epochs| - 1, w.pc.i, CallStop)
       case StopReturned =>
         && w.pc.StoppingQueue? && w.pc.called && w.pc.i < |Current(w)|
         && Current(w)[w.pc.i].state.stop.Stopped?
       case ReplaceQueues => w.pc.StoppingQueue? && w.pc.i >= |Current(w)|
       case StartNext => w.pc.StartingQueue? && CanAct(w, |w.epochs| - 1, w.pc.i, CallStart)
       case ApplyReturns => w.pc.StartingQueue? && w.pc.i >= |Current(w)|
  }

  function Offer(w: WriterState, x: Sample): seq<seq<Sample>> {
    if w.offered == [] then [[x]]
    else
      var last := |w.offered| - 1;
      w.offered[last := w.offered[last] + [x]]
  }

  function Advance(fl: seq<InFlight>, k: nat): seq<InFlight>
    requires k < |fl|
  {
    fl[k := fl[k].(next := fl[k].next + 1)]
  }

  function WriterApply(w: WriterState, a: WriterAction): WriterState
    requires WriterEnabled(w, a)
  {
    var last := |w.epochs| - 1;
    match a
    case QueueMoves(e, i, act) => Act(w, e, i, act)
    case BeginAppend(x) => w.(offered := Offer(w, x), inFlight := w.inFlight + [InFlight(x, 0)])
    case AppendNext(k, meets) =>
      Act(w, last, w.inFlight[k].next, Append(w.inFlight[k].sample, meets)).(inFlight := Advance(w.inFlight, k))
    case EndAppend(k) => w.(inFlight := w.inFlight[..k] + w.inFlight[k + 1..])
    case ApplyConfig(configs) =>
      if SomeFails(configs) then w else w.(pc := StoppingQueue(0, false, Values(configs)))
    case StopNext => Act(w, last, w.pc.i, CallStop).(pc := StoppingQueue(w.pc.i, true, w.pc.configs))
    case StopReturned => w.(pc := StoppingQueue(w.pc.i + 1, false, w.pc.configs))
    case ReplaceQueues =>
      w.(epochs := w.epochs + [FreshPool(w.pc.configs)], pc := StartingQueue(0), offered := w.offered + [[]])
    case StartNext => Act(w, last, w.pc.i, CallStart).(pc := StartingQueue(w.pc.i + 1))
    case ApplyReturns => w.(pc := Unlocked)
  }

  function WriterRun(w: WriterState, acts: seq<WriterAction>): Option<WriterState>
    decreases |acts|
  {
    if acts == [] then Some(w)
    else if WriterEnabled(w, acts[0]) then WriterRun(WriterApply(w, acts[0]), acts[1..])
    else None
  }

  // ----- the invariant -----

  datatype Status = Unstarted | Running | Stopping | Done

  predicate HasStatus(s: State, status: Status) {
    match status
    case Unstarted => s.reshard.NotLaunched?
    case Running => !s.reshard.NotLaunched? && s.stop.NotStopping?
    case Stopping => !s.reshard.NotLaunched? && !s.stop.NotStopping?
    case Done => s.stop.Stopped?
  }

  function Expected(pc: WriterPc, i: nat): Status {
    match pc
    case Unlocked => Running
    case StoppingQueue(j, called, _) =>
      if i < j then Done else if i == j && called then Stopping else Running
    case StartingQueue(j) => if i < j then Running else Unstarted
  }

  /** A queue that has panicked may be in any state, but it has not stopped. */
  ghost predicate ManagerOk(m: Manager, status: Status) {
    && ValidConfig(m.cfg)
    && if m.state.crashed then !status.Done? && !m.state.stop.Stopped?
       else Core(m.cfg, m.state) && HasStatus(m.state, status)
  }

  ghost predicate PoolsOk(w: WriterState) {
    && w.epochs != []
    && forall e: nat, i: nat :: InPool(w, e, i) ==>
         ManagerOk(w.epochs[e][i], if e < |w.epochs| - 1 then Done else Expected(w.pc, i))
  }

  predicate ConfigsOk(pc: WriterPc) {
    pc.StoppingQueue? ==> forall k :: 0 <= k < |pc.configs| ==> ValidConfig(pc.configs[k])
  }

  /** Sends of an earlier configuration all end before sends of a later one. */
  predicate WireOrdered(wire: seq<Delivery>, epochs: nat) {
    && (forall p, q :: 0 <= p < q < |wire| ==> wire[p].epoch <= wire[q].epoch)
    && (forall p :: 0 <= p < |wire| ==> wire[p].epoch < epochs)
  }

  /** The sends of one queue, in order. */
  function OnWire(wire: seq<Delivery>, e: nat, i: nat): seq<Sent> {
    if wire == [] then []
    else (if wire[0].epoch == e && wire[0].queue == i then [wire[0].sent] else []) + OnWire(wire[1..], e, i)
  }

  ghost predicate WireComplete(w: WriterState) {
    && (forall e: nat, i: nat | InPool(w, e, i) :: OnWire(w.wire, e, i) == w.epochs[e][i].state.finished)
    && WireInPool(w.wire, w)
  }

  /** No append is under way while the writer is being reconfigured. */
  predicate LockOk(w: WriterState) {
    |w.offered| == |w.epochs| && (w.inFlight != [] ==> w.pc.Unlocked?)
  }

  ghost predicate WriterInv(w: WriterState) {
    PoolsOk(w) && ConfigsOk(w.pc) && LockOk(w) && WireOrdered(w.wire, |w.epochs|) && WireComplete(w)
  }

  /** A stopped queue has no goroutine left that could move. */
  lemma StoppedIsQuiet(c: Config, s: State, act: Action)
    requires ValidConfig(c) && Core(c, s) && s.stop.Stopped? && OwnStep(act)
    ensures !Enabled(c, s, act)
  {
  }

  lemma FinishedGrows(c: Config, s: State, act: Action)
    requires ValidConfig(c) && Enabled(c, s, act)
    ensures s.finished <= Apply(c, s, act).finished
    ensures !act.OldShard? && !act.LiveShard? ==> Apply(c, s, act).finished == s.finished
  {
  }

  lemma StepKeepsStatus(c: Config, s: State, act: Action, status: Status)
    requires ValidConfig(c) && HasStatus(s, status) && !status.Done? && Enabled(c, s, act)
    requires OwnStep(act) || (act.Append? && status.Running?)
    ensures HasStatus(Apply(c, s, act), status)
  {
    hide Proposed, NextIntegral, ShardCanMove;
  }

  lemma OwnStepKeepsStatus(c: Config, s: State, act: Action, status: Status)
    requires ValidConfig(c) && Core(c, s) && HasStatus(s, status) && Enabled(c, s, act)
    requires OwnStep(act) || (act.Append? && status.Running?)
    ensures !status.Done? && HasStatus(Apply(c, s, act), status)
  {
    hide Inv, Enabled, Apply, OwnStep;
    if status.Done? {
      StoppedIsQuiet(c, s, act);
      assert false;
    }
    StepKeepsStatus(c, s, act, status);
  }

  lemma ManagerSteps(m: Manager, status: Status, act: Action)
    requires ManagerOk(m, status) && Enabled(m.cfg, m.state, act)
    requires OwnStep(act) || (act.Append? && status.Running?)
    ensures !status.Done? && ManagerOk(m.(state := Apply(m.cfg, m.state, act)), status)
  {
    StepKeepsInv(m.cfg, m.state, act);
    OwnStepKeepsStatus(m.cfg, m.state, act, status);
  }

  // ----- the wire -----

  lemma {:induction false} OnWireConcat(a: seq<Delivery>, b: seq<Delivery>, e: nat, i: nat)
    ensures OnWire(a + b, e, i) == OnWire(a, e, i) + OnWire(b, e, i)
  {
    if a == [] {
      assert a + b == b;
    } else {
      OnWireConcat(a[1..], b, e, i);
      var head := if a[0].epoch == e && a[0].queue == i then [a[0].sent] else [];
      assert (a + b)[0] == a[0] && (a + b)[1..] == a[1..] + b;
      Regroup(head, OnWire(a[1..], e, i), OnWire(b, e, i));
    }
  }

  lemma {:induction false} OnWireTagged(e: nat, i: nat, sent: seq<Sent>, e': nat, i': nat)
    ensures OnWire(Tagged(e, i, sent), e', i') == if e == e' && i == i' then sent else []
  {
    if sent != [] {
      OnWireTagged(e, i, sent[1..], e', i');
      assert Tagged(e, i, sent)[1..] == Tagged(e, i, sent[1..]);
    }
  }

  lemma {:induction false} OnWireNever(wire: seq<Delivery>, e: nat, i: nat)
    requires forall p :: 0 <= p < |wire| ==> wire[p].epoch != e
    ensures OnWire(wire, e, i) == []
  {
    if wire != [] {
      OnWireNever(wire[1..], e, i);
    }
  }

  lemma WireExtends(wire: seq<Delivery>, i: nat, sent: seq<Sent>, epochs: nat)
    requires epochs > 0 && WireOrdered(wire, epochs)
    ensures WireOrdered(wire + Tagged(epochs - 1, i, sent), epochs)
  {
  }

  lemma ActWire(w: WriterState, e: nat, i: nat, act: Action) returns (news: seq<Sent>)
    requires CanAct(w, e, i, act)
    ensures var m := w.epochs[e][i];
            && Apply(m.cfg, m.state, act).finished == m.state.finished + news
            && Act(w, e, i, act).wire == w.wire + Tagged(e, i, news)
  {
    var m := w.epochs[e][i];
    FinishedGrows(m.cfg, m.state, act);
    news := Apply(m.cfg, m.state, act).finished[|m.state.finished|..];
  }

  lemma ActWireOf(w: WriterState, i: nat, act: Action, e: nat, j: nat)
    requires w.epochs != [] && CanAct(w, |w.epochs| - 1, i, act) && InPool(w, e, j)
    requires OnWire(w.wire, e, j) == w.epochs[e][j].state.finished
    ensures var w' := Act(w, |w.epochs| - 1, i, act);
            OnWire(w'.wire, e, j) == w'.epochs[e][j].state.finished
  {
    hide Apply, Enabled;
    var last := |w.epochs| - 1;
    var news := ActWire(w, last, i, act);
    OnWireConcat(w.wire, Tagged(last, i, news), e, j);
    OnWireTagged(last, i, news, e, j);
  }

  predicate WireInPool(wire: seq<Delivery>, w: WriterState) {
    forall p :: 0 <= p < |wire| ==> InPool(w, wire[p].epoch, wire[p].queue)
  }

  lemma ActWireInPool(w: WriterState, i: nat, act: Action)
    requires w.epochs != [] && CanAct(w, |w.epochs| - 1, i, act) && WireInPool(w.wire, w)
    ensures var w' := Act(w, |w.epochs| - 1, i, act); WireInPool(w'.wire, w')
  {
    var w' := Act(w, |w.epochs| - 1, i, act);
    forall p | 0 <= p < |w'.wire| ensures InPool(w', w'.wire[p].epoch, w'.wire[p].queue) {
      if p < |w.wire| { assert InPool(w, w.wire[p].epoch, w.wire[p].queue); }
    }
  }

  lemma ActKeepsWire(w: WriterState, i: nat, act: Action)
    requires w.epochs != [] && CanAct(w, |w.epochs| - 1, i, act)
    requires WireOrdered(w.wire, |w.epochs|) && WireComplete(w)
    ensures var w' := Act(w, |w.epochs| - 1, i, act);
            WireOrdered(w'.wire, |w'.epochs|) && WireComplete(w')
  {
    var w' := Act(w, |w.epochs| - 1, i, act);
    var news := ActWire(w, |w.epochs| - 1, i, act);
    WireExtends(w.wire, i, news, |w.epochs|);
    ActWireInPool(w, i, act);
    forall e: nat, j: nat | InPool(w', e, j)
      ensures OnWire(w'.wire, e, j) == w'.epochs[e][j].state.finished
    {
      assert InPool(w, e, j);
      ActWireOf(w, i, act, e, j);
    }
  }

  // ----- every action keeps the invariant -----

  function After(m: Manager, act: Action): Manager
    requires ValidConfig(m.cfg) && Enabled(m.cfg, m.state, act)
  {
    m.(state := Apply(m.cfg, m.state, act))
  }

  lemma ActPools(w: WriterState, i: nat, act: Action)
    requires w.epochs != [] && CanAct(w, |w.epochs| - 1, i, act)
    ensures var w' := Act(w, |w.epochs| - 1, i, act);
            && |w'.epochs| == |w.epochs|
            && (forall e: nat, j: nat :: InPool(w', e, j) <==> InPool(w, e, j))
            && (forall e: nat, j: nat :: InPool(w, e, j) ==>
                  w'.epochs[e][j] == if e == |w.epochs| - 1 && j == i then After(w.epochs[e][j], act)
                                     else w.epochs[e][j])
  {
  }

  /** Replacing one manager of the last pool keeps the others as they are. */
  lemma ActKeepsPools(w: WriterState, i: nat, act: Action, pc: WriterPc)
    requires w.epochs != [] && CanAct(w, |w.epochs| - 1, i, act)
    requires ManagerOk(After(Current(w)[i], act), Expected(pc, i))
    requires forall j: nat :: j != i ==> Expected(pc, j) == Expected(w.pc, j)
    requires PoolsOk(w)
    ensures PoolsOk(Act(w, |w.epochs| - 1, i, act).(pc := pc))
  {
    hide ManagerOk, Enabled, Apply;
    var last := |w.epochs| - 1;
    var w' := Act(w, last, i, act).(pc := pc);
    ActPools(w, i, act);
    forall e: nat, j: nat | InPool(w', e, j)
      ensures ManagerOk(w'.epochs[e][j], if e < last then Done else Expected(pc, j))
    {
      assert InPool(Act(w, last, i, act), e, j);
      assert InPool(w, e, j);
    }
  }

  lemma ActKeepsInv(w: WriterState, i: nat, act: Action, pc: WriterPc)
    requires w.epochs != [] && CanAct(w, |w.epochs| - 1, i, act) && ConfigsOk(pc)
    requires w.inFlight != [] ==> pc.Unlocked?
    requires ManagerOk(After(Current(w)[i], act), Expected(pc, i))
    requires forall j: nat :: j != i ==> Expected(pc, j) == Expected(w.pc, j)
    requires WriterInv(w)
    ensures WriterInv(Act(w, |w.epochs| - 1, i, act).(pc := pc))
  {
    hide Enabled, Apply, ManagerOk, PoolsOk, WireComplete, WireOrdered;
    ActKeepsPools(w, i, act, pc);
    ActKeepsWire(w, i, act);
    var w' := Act(w, |w.epochs| - 1, i, act);
    SameWire(w', w'.(pc := pc));
  }

  lemma SameWire(w: WriterState, w': WriterState)
    requires w'.epochs == w.epochs && w'.wire == w.wire && WireComplete(w)
    ensures WireComplete(w')
  {
    forall e: nat, j: nat | InPool(w', e, j) ensures OnWire(w'.wire, e, j) == w'.epochs[e][j].state.finished {
      assert InPool(w, e, j);
    }
    forall p | 0 <= p < |w'.wire| ensures InPool(w', w'.wire[p].epoch, w'.wire[p].queue) {
      assert InPool(w, w.wire[p].epoch, w.wire[p].queue);
    }
  }

  lemma QueueMovesKeepsInv(w: WriterState, e: nat, i: nat, act: Action)
    requires WriterInv(w) && WriterEnabled(w, QueueMoves(e, i, act))
    ensures e == |w.epochs| - 1
    ensures WriterInv(Act(w, e, i, act))
  {
    var m := w.epochs[e][i];
    var status := if e < |w.epochs| - 1 then Done else Expected(w.pc, i);
    assert ManagerOk(m, status);
    ManagerSteps(m, status, act);
    ActKeepsInv(w, i, act, w.pc);
  }

  lemma AppendKeepsWriterInv(w: WriterState, k: nat, meets: bool)
    requires WriterInv(w) && WriterEnabled(w, AppendNext(k, meets))
    ensures WriterInv(WriterApply(w, AppendNext(k, meets)))
  {
    var (i, x) := (w.inFlight[k].next, w.inFlight[k].sample);
    assert InPool(w, |w.epochs| - 1, i);
    ManagerSteps(Current(w)[i], Running, Append(x, meets));
    ActKeepsInv(w, i, Append(x, meets), w.pc);
    SamePools(Act(w, |w.epochs| - 1, i, Append(x, meets)).(pc := w.pc), WriterApply(w, AppendNext(k, meets)));
  }

  /** Appends that begin, go on or end do not touch the pools otherwise. */
  lemma SamePools(w: WriterState, w': WriterState)
    requires WriterInv(w) && w' == w.(offered := w'.offered, inFlight := w'.inFlight) && LockOk(w')
    ensures WriterInv(w')
  {
    hide ManagerOk, Enabled, Apply;
    SameWire(w, w');
    forall e: nat, j: nat | InPool(w', e, j)
      ensures ManagerOk(w'.epochs[e][j], if e < |w.epochs| - 1 then Done else Expected(w'.pc, j))
    {
      assert InPool(w, e, j);
    }
  }

  lemma CallStep(m: Manager, act: Action)
    requires ManagerOk(m, if act.CallStop? then Running else Unstarted) && Enabled(m.cfg, m.state, act)
    requires act.CallStop? || act.CallStart?
    ensures ManagerOk(m.(state := Apply(m.cfg, m.state, act)), if act.CallStop? then Stopping else Running)
  {
    StepKeepsInv(m.cfg, m.state, act);
  }

  lemma CurrentOk(w: WriterState, i: nat)
    requires WriterInv(w) && i < |Current(w)|
    ensures ManagerOk(Current(w)[i], Expected(w.pc, i))
  {
    assert InPool(w, |w.epochs| - 1, i);
  }

  lemma StopNextKeepsInv(w: WriterState)
    requires WriterInv(w) && WriterEnabled(w, StopNext)
    ensures WriterInv(WriterApply(w, StopNext))
  {
    hide PoolsOk, WireComplete, WireOrdered, ManagerOk, Enabled, Apply;
    CurrentOk(w, w.pc.i);
    CallStep(Current(w)[w.pc.i], CallStop);
    ActKeepsInv(w, w.pc.i, CallStop, StoppingQueue(w.pc.i, true, w.pc.configs));
  }

  lemma StartNextKeepsInv(w: WriterState)
    requires WriterInv(w) && WriterEnabled(w, StartNext)
    ensures WriterInv(WriterApply(w, StartNext))
  {
    hide PoolsOk, WireComplete, WireOrdered, ManagerOk, Enabled, Apply;
    CurrentOk(w, w.pc.i);
    CallStep(Current(w)[w.pc.i], CallStart);
    ActKeepsInv(w, w.pc.i, CallStart, StartingQueue(w.pc.i + 1));
  }

  lemma FreshManagerOk(cfg: Config)
    requires ValidConfig(cfg)
    ensures ManagerOk(Manager(cfg, Init()), Unstarted)
  {
    InitInv(cfg);
  }

  lemma ReplaceKeepsPools(w: WriterState)
    requires PoolsOk(w) && ConfigsOk(w.pc) && WriterEnabled(w, ReplaceQueues)
    ensures PoolsOk(WriterApply(w, ReplaceQueues))
  {
    hide ManagerOk;
    var w' := WriterApply(w, ReplaceQueues);
    forall e: nat, j: nat | InPool(w', e, j)
      ensures ManagerOk(w'.epochs[e][j], if e < |w'.epochs| - 1 then Done else Expected(w'.pc, j))
    {
      if e < |w.epochs| {
        assert InPool(w, e, j);
      } else {
        FreshManagerOk(w'.epochs[e][j].cfg);
      }
    }
  }

  lemma ReplaceKeepsWire(w: WriterState)
    requires WireOrdered(w.wire, |w.epochs|) && WireComplete(w) && WriterEnabled(w, ReplaceQueues)
    ensures var w' := WriterApply(w, ReplaceQueues);
            WireOrdered(w'.wire, |w'.epochs|) && WireComplete(w')
  {
    var w' := WriterApply(w, ReplaceQueues);
    forall e: nat, j: nat | InPool(w', e, j)
      ensures OnWire(w'.wire, e, j) == w'.epochs[e][j].state.finished
    {
      if e < |w.epochs| {
        assert InPool(w, e, j);
      } else {
        assert w'.epochs[e][j].state == Init();
        OnWireNever(w.wire, e, j);
      }
    }
    forall p | 0 <= p < |w'.wire| ensures InPool(w', w'.wire[p].epoch, w'.wire[p].queue) {
      assert InPool(w, w.wire[p].epoch, w.wire[p].queue);
    }
  }

  lemma ReplaceKeepsInv(w: WriterState)
    requires WriterInv(w) && WriterEnabled(w, ReplaceQueues)
    ensures WriterInv(WriterApply(w, ReplaceQueues))
  {
    hide PoolsOk, WireComplete, WireOrdered;
    ReplaceKeepsPools(w);
    ReplaceKeepsWire(w);
  }

  /** The remaining actions only move the writer's own position. */
  lemma PcKeepsInv(w: WriterState, a: WriterAction)
    requires WriterInv(w) && WriterEnabled(w, a) && (a.ApplyConfig? || a.StopReturned? || a.ApplyReturns?)
    ensures WriterInv(WriterApply(w, a))
  {
    var w' := WriterApply(w, a);
    SameWire(w, w');
    forall e: nat, j: nat | InPool(w', e, j)
      ensures ManagerOk(w'.epochs[e][j], if e < |w.epochs| - 1 then Done else Expected(w'.pc, j))
    {
      assert InPool(w, e, j);
    }
  }

  lemma InFlightKeepsInv(w: WriterState, a: WriterAction)
    requires WriterInv(w) && WriterEnabled(w, a) && (a.BeginAppend? || a.EndAppend?)
    ensures WriterInv(WriterApply(w, a))
  {
    hide PoolsOk, WireComplete, WireOrdered, Enabled, Apply;
    SamePools(w, WriterApply(w, a));
  }

  lemma WriterStepKeepsInv(w: WriterState, a: WriterAction)
    requires WriterInv(w) && WriterEnabled(w, a)
    ensures WriterInv(WriterApply(w, a))
  {
    hide WriterInv, Enabled, Apply;
    match a
    case QueueMoves(e, i, act) => QueueMovesKeepsInv(w, e, i, act);
    case BeginAppend(_) => InFlightKeepsInv(w, a);
    case AppendNext(k, meets) => AppendKeepsWriterInv(w, k, meets);
    case EndAppend(_) => InFlightKeepsInv(w, a);
    case StopNext => StopNextKeepsInv(w);
    case ReplaceQueues => ReplaceKeepsInv(w);
    case StartNext => StartNextKeepsInv(w);
    case _ => PcKeepsInv(w, a);
  }

  lemma {:induction false} WriterRunKeepsInv(w: WriterState, acts: seq<WriterAction>)
    requires WriterInv(w) && WriterRun(w, acts).Some?
    ensures WriterInv(WriterRun(w, acts).value)
    decreases |acts|
  {
    if acts != [] {
      WriterStepKeepsInv(w, acts[0]);
      WriterRunKeepsInv(WriterApply(w, acts[0]), acts[1..]);
    }
  }

  // ----- the writer's own actions -----

  /** Stopping n queues, one after the other. */
  function Stops(n: nat): seq<WriterAction> {
    if n == 0 then [] else Stops(n - 1) + [StopNext, StopReturned]
  }

  function Starts(n: nat): seq<WriterAction> {
    if n == 0 then [] else Starts(n - 1) + [StartNext]
  }

  /** What ApplyConfig does once all clients are built, with this many old and new queues. */
  function ApplyTrace(before: nat, after: nat): seq<WriterAction> {
    Stops(before) + [ReplaceQueues] + Starts(after) + [ApplyReturns]
  }

  /** What is left of it for a writer at this position with n queues in use. */
  function Left(pc: WriterPc, n: nat): seq<WriterAction> {
    match pc
    case Unlocked => []
    case StoppingQueue(i, called, configs) =>
      if i >= n then ApplyTrace(0, |configs|)
      else if called then [StopReturned] + ApplyTrace(n - i - 1, |configs|)
      else ApplyTrace(n - i, |configs|)
    case StartingQueue(i) => Starts(if i < n then n - i else 0) + [ApplyReturns]
  }

  /** The actions of a run that are the writer's, not its queues'. */
  function OwnActions(acts: seq<WriterAction>): seq<WriterAction> {
    if acts == [] then []
    else (if acts[0].QueueMoves? then [] else [acts[0]]) + OwnActions(acts[1..])
  }

  /** Nothing but queue moves is left out. */
  lemma {:induction false} OwnActionsHas(acts: seq<WriterAction>, i: nat)
    requires i < |acts| && !acts[i].QueueMoves?
    ensures acts[i] in OwnActions(acts)
  {
    if i > 0 {
      OwnActionsHas(acts[1..], i - 1);
    }
  }

  lemma {:induction false} StopsFirst(n: nat)
    requires n > 0
    ensures Stops(n) == [StopNext, StopReturned] + Stops(n - 1)
  {
    if n > 1 {
      StopsFirst(n - 1);
      assert [StopNext, StopReturned] + Stops(n - 2) + [StopNext, StopReturned]
          == [StopNext, StopReturned] + (Stops(n - 2) + [StopNext, StopReturned]);
    }
  }

  lemma {:induction false} StartsFirst(n: nat)
    requires n > 0
    ensures Starts(n) == [StartNext] + Starts(n - 1)
  {
    if n > 1 {
      StartsFirst(n - 1);
    }
  }

  lemma NextStop(begin: seq<WriterAction>, i: nat)
    ensures begin + Stops(i) + [StopNext, StopReturned] == begin + Stops(i + 1)
  {
  }

  lemma NextStart(begin: seq<WriterAction>, i: nat)
    ensures begin + Starts(i) + [StartNext] == begin + Starts(i + 1)
  {
  }

  lemma NothingYet(begin: seq<WriterAction>)
    ensures begin + Stops(0) == begin == begin + Starts(0)
  {
  }

  lemma TraceParts(begin: seq<WriterAction>, before: nat, after: nat)
    ensures begin + Stops(before) + [ReplaceQueues] + Starts(after) + [ApplyReturns]
            == begin + ApplyTrace(before, after)
  {
  }

  lemma StopNextTrace(n: nat, after: nat)
    requires n > 0
    ensures ApplyTrace(n, after) == [StopNext] + ([StopReturned] + ApplyTrace(n - 1, after))
  {
    var rest := [ReplaceQueues] + Starts(after) + [ApplyReturns];
    StopsFirst(n);
    assert ApplyTrace(n, after) == [StopNext, StopReturned] + Stops(n - 1) + rest;
    assert ApplyTrace(n - 1, after) == Stops(n - 1) + rest;
  }

  lemma StartNextTrace(n: nat)
    requires n > 0
    ensures Starts(n) + [ApplyReturns] == [StartNext] + (Starts(n - 1) + [ApplyReturns])
  {
    StartsFirst(n);
  }

  /** Where an action of the locked writer takes it, and how many queues are then in use. */
  ghost predicate Moves(pc: WriterPc, n: nat, a: WriterAction, pc': WriterPc, n': nat) {
    match a
    case StopNext =>
      pc.StoppingQueue? && !pc.called && pc.i < n && pc' == pc.(called := true) && n' == n
    case StopReturned =>
      pc.StoppingQueue? && pc.called && pc.i < n && pc' == StoppingQueue(pc.i + 1, false, pc.configs) && n' == n
    case ReplaceQueues => pc.StoppingQueue? && pc.i >= n && pc' == StartingQueue(0) && n' == |pc.configs|
    case StartNext => pc.StartingQueue? && pc.i < n && pc' == StartingQueue(pc.i + 1) && n' == n
    case ApplyReturns => pc.StartingQueue? && pc.i >= n && pc'.Unlocked? && n' == n
    case _ => false
  }

  lemma LockedActionMoves(w: WriterState, a: WriterAction)
    requires LockOk(w) && WriterEnabled(w, a) && !w.pc.Unlocked? && !a.QueueMoves?
    ensures var w' := WriterApply(w, a); Moves(w.pc, |Current(w)|, a, w'.pc, |Current(w')|)
  {
    hide Enabled, Apply;
  }

  lemma LeftMoves(pc: WriterPc, n: nat, a: WriterAction, pc': WriterPc, n': nat)
    requires Moves(pc, n, a, pc', n')
    ensures Left(pc, n) == [a] + Left(pc', n')
  {
    hide ApplyTrace, Starts;
    match a
    case StopNext => StopNextTrace(n - pc.i, |pc.configs|);
    case ReplaceQueues => ReplaceTrace(|pc.configs|);
    case StartNext => StartNextTrace(n - pc.i);
    case ApplyReturns => ReturnTrace();
    case _ =>
  }

  /** Each of the writer's own actions takes the next one off what is left. */
  lemma LeftGoesOn(w: WriterState, a: WriterAction)
    requires LockOk(w) && WriterEnabled(w, a) && !w.pc.Unlocked? && !a.QueueMoves?
    ensures var w' := WriterApply(w, a);
            Left(w.pc, |Current(w)|) == [a] + Left(w'.pc, |Current(w')|)
  {
    hide Enabled, Apply, Left, Moves;
    var w' := WriterApply(w, a);
    LockedActionMoves(w, a);
    LeftMoves(w.pc, |Current(w)|, a, w'.pc, |Current(w')|);
  }

  lemma ReplaceTrace(after: nat)
    ensures ApplyTrace(0, after) == [ReplaceQueues] + (Starts(after) + [ApplyReturns])
  {
  }

  lemma ReturnTrace()
    ensures Starts(0) + [ApplyReturns] == [ApplyReturns]
  {
  }

  lemma QueueMovesKeepsLeft(w: WriterState, a: WriterAction)
    requires WriterEnabled(w, a) && a.QueueMoves?
    ensures var w' := WriterApply(w, a);
            w'.pc == w.pc && w'.inFlight == w.inFlight && |Current(w')| == |Current(w)|
  {
    hide Enabled, Apply;
  }

  ghost predicate Follows(a: seq<WriterAction>, b: seq<WriterAction>) {
    a <= b || b <= a
  }

  /** While the writer is locked nothing but its own trace happens beside the queues' moves: in
      particular no Append, and stops, replacement and starts in that order. */
  lemma {:induction false} LockedRunsFollow(w: WriterState, acts: seq<WriterAction>)
    requires WriterInv(w) && !w.pc.Unlocked? && WriterRun(w, acts).Some?
    ensures Follows(OwnActions(acts), Left(w.pc, |Current(w)|))
    ensures WriterRun(w, acts).value.pc.Unlocked? ==> Left(w.pc, |Current(w)|) <= OwnActions(acts)
    decreases |acts|
  {
    hide PoolsOk, WireComplete, WireOrdered, Enabled, Apply, Left;
    if acts != [] {
      var a, rest := acts[0], acts[1..];
      var w' := WriterApply(w, a);
      WriterStepKeepsInv(w, a);
      if a.QueueMoves? {
        QueueMovesKeepsLeft(w, a);
        LockedRunsFollow(w', rest);
      } else {
        LeftGoesOn(w, a);
        if w'.pc.Unlocked? {
          NothingLeft(w'.pc, |Current(w')|);
          assert [a] <= [a] + OwnActions(rest);
        } else {
          LockedRunsFollow(w', rest);
          FollowsCons(a, OwnActions(rest), Left(w'.pc, |Current(w')|));
        }
      }
    }
  }

  lemma NothingLeft(pc: WriterPc, n: nat)
    requires pc.Unlocked?
    ensures Left(pc, n) == []
  {
  }

  lemma FollowsCons(x: WriterAction, a: seq<WriterAction>, b: seq<WriterAction>)
    requires Follows(a, b)
    ensures Follows([x] + a, [x] + b)
  {
  }

  // ----- results over every run -----

  /** Over any sequence of reconfigurations and appends, under any interleaving: sends come out
      configuration by configuration, and every send of every queue is there, in its order. */
  lemma ReconfigurationKeepsOrder(acts: seq<WriterAction>)
    requires WriterRun(InitWriter(), acts).Some?
    ensures var w := WriterRun(InitWriter(), acts).value;
            WireOrdered(w.wire, |w.epochs|) && WireComplete(w)
  {
    WriterRunKeepsInv(InitWriter(), acts);
  }

  lemma ReconfigurationFollows(w: WriterState, configs: seq<Option<Config>>, more: seq<WriterAction>)
    requires AllBuilt(configs) && WriterEnabled(w, ApplyConfig(configs))
    requires WriterRun(WriterApply(w, ApplyConfig(configs)), more).Some?
    requires WriterInv(w)
    ensures w.epochs != [] && Follows(OwnActions(more), ApplyTrace(|Current(w)|, |configs|))
    ensures WriterRun(WriterApply(w, ApplyConfig(configs)), more).value.pc.Unlocked? ==>
              ApplyTrace(|Current(w)|, |configs|) <= OwnActions(more)
  {
    hide WriterInv, Enabled, Apply, OwnActions, Follows, ApplyTrace;
    WriterStepKeepsInv(w, ApplyConfig(configs));
    LockedRunsFollow(WriterApply(w, ApplyConfig(configs)), more);
    FirstTrace(w, configs);
  }

  lemma FirstTrace(w: WriterState, configs: seq<Option<Config>>)
    requires AllBuilt(configs) && WriterEnabled(w, ApplyConfig(configs))
    ensures var w' := WriterApply(w, ApplyConfig(configs));
            !w'.pc.Unlocked? && Left(w'.pc, |Current(w')|) == ApplyTrace(|Current(w)|, |configs|)
  {
  }

  /** A reconfiguration whose clients are all built, in any run: until it returns the writer does
      exactly its trace, whatever the queues do meanwhile, and no Append. */
  lemma ReconfigurationTrace(acts: seq<WriterAction>, configs: seq<Option<Config>>, more: seq<WriterAction>)
    requires WriterRun(InitWriter(), acts).Some? && AllBuilt(configs)
    requires var w := WriterRun(InitWriter(), acts).value;
             && WriterEnabled(w, ApplyConfig(configs))
             && WriterRun(WriterApply(w, ApplyConfig(configs)), more).Some?
    ensures var w := WriterRun(InitWriter(), acts).value;
            && w.epochs != [] && Follows(OwnActions(more), ApplyTrace(|Current(w)|, |configs|))
            && (WriterRun(WriterApply(w, ApplyConfig(configs)), more).value.pc.Unlocked? ==>
                  ApplyTrace(|Current(w)|, |configs|) <= OwnActions(more))
  {
    hide WriterInv, WriterEnabled, WriterApply, OwnActions, Follows, ApplyTrace, AllBuilt;
    WriterInitOk();
    WriterRunKeepsInv(InitWriter(), acts);
    ReconfigurationFollows(WriterRun(InitWriter(), acts).value, configs, more);
  }

  lemma WriterInitOk()
    ensures WriterInv(InitWriter())
  {
  }

  /** Before any queue of a new configuration even starts, every sample that a replaced queue
      accepted has been sent or has failed, in order, and none of its goroutines is left. */
  lemma ReplacedQueuesAreDone(acts: seq<WriterAction>, e: nat, i: nat, act: Action)
    requires WriterRun(InitWriter(), acts).Some?
    requires var w := WriterRun(InitWriter(), acts).value; InPool(w, e, i) && e < |w.epochs| - 1
    ensures var w := WriterRun(InitWriter(), acts).value;
            var m := w.epochs[e][i];
            && !m.state.crashed
            && multiset(Samples(OnWire(w.wire, e, i))) == multiset(m.state.accepted)
            && (forall f: nat :: Series(m.cfg, Samples(OnWire(w.wire, e, i)), f) == Series(m.cfg, m.state.accepted, f))
            && (forall m :: OfMetric(Samples(OnWire(w.wire, e, i)), m) == OfMetric(w.epochs[e][i].state.accepted, m))
            && (CanAct(w, e, i, act) ==> act.Append? || act.CallStart? || act.CallStop?)
  {
    WriterRunKeepsInv(InitWriter(), acts);
    var w := WriterRun(InitWriter(), acts).value;
    var m := w.epochs[e][i];
    assert ManagerOk(m, Done);
    StoppedMeansDrained(m.cfg, m.state);
    if OwnStep(act) {
      StoppedIsQuiet(m.cfg, m.state, act);
    }
  }

  /** While the writer waits for a queue to stop that has not panicked, the queue's own steps can
      lead to the end of its Stop exactly if no negative shard count waits for the swap. */
  lemma ApplyConfigMakesProgressIff(acts: seq<WriterAction>)
    requires WriterRun(InitWriter(), acts).Some?
    requires var w := WriterRun(InitWriter(), acts).value;
             && w.epochs != [] && w.pc.StoppingQueue? && w.pc.called && w.pc.i < |Current(w)|
             && !Current(w)[w.pc.i].state.crashed
    ensures var w := WriterRun(InitWriter(), acts).value;
            var m := Current(w)[w.pc.i];
            && ValidConfig(m.cfg)
            && (CanSwap(m.state) <==> exists more :: AllInternal(more) && CanReturn(m.cfg, m.state, more))
  {
    WriterRunKeepsInv(InitWriter(), acts);
    var w := WriterRun(InitWriter(), acts).value;
    assert InPool(w, |w.epochs| - 1, w.pc.i);
    var m := Current(w)[w.pc.i];
    assert ManagerOk(m, Stopping);
    InvStopReturnsIff(m.cfg, m.state);
  }
}
