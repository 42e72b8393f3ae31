/** The runs of the writer: what is never kept waiting, a first run in full, which configurations
    the new queues have, and when no queue panics. */
module WriterRuns {
  import opened Model
  import opened ShardMachine
  import opened QueueProtocol
  import opened QueueInvariant
  import opened QueueTheorems
  import opened QueueTermination
  import opened WriterProtocol

  // ----- nothing waits for more than it has to -----

  /** Queues move whenever they can; appends may begin, beside any others, whenever the writer is not
      being reconfigured; and a reconfiguration whenever no append is under way. */
  lemma LockSharing(w: WriterState, e: nat, i: nat, act: Action, x: Sample, configs: seq<Option<Config>>)
    requires w.epochs != []
    ensures CanAct(w, e, i, act) && !act.Append? && !act.CallStart? && !act.CallStop? ==>
              WriterEnabled(w, QueueMoves(e, i, act))
    ensures WriterEnabled(w, BeginAppend(x)) <==> w.pc.Unlocked?
    ensures (forall k :: 0 <= k < |configs| ==> configs[k].Some? && ValidConfig(configs[k].value)) ==>
              (WriterEnabled(w, ApplyConfig(configs)) <==> w.pc.Unlocked? && w.inFlight == [])
    ensures (exists k :: 0 <= k < |configs| && configs[k].None?) && WriterEnabled(w, ApplyConfig(configs)) ==>
              WriterApply(w, ApplyConfig(configs)) == w
  {
  }

  /** In every run, an append under way can go on: the next queue can take the sample, unless it has
      panicked, or it has come to all of them. */
  lemma AppendsGoOn(acts: seq<WriterAction>, k: nat)
    requires WriterRun(InitWriter(), acts).Some?
    requires k < |WriterRun(InitWriter(), acts).value.inFlight|
    ensures var w := WriterRun(InitWriter(), acts).value;
            var i := w.inFlight[k].next;
            && w.epochs != []
            && if i >= |Current(w)| then WriterEnabled(w, EndAppend(k))
               else Current(w)[i].state.crashed || WriterEnabled(w, AppendNext(k, false))
  {
    WriterRunKeepsInv(InitWriter(), acts);
    var w := WriterRun(InitWriter(), acts).value;
    if w.inFlight[k].next < |Current(w)| {
      CurrentOk(w, w.inFlight[k].next);
    }
  }

  /** In every run, a reconfiguration under way can go on by an action of the writer or, while it
      waits for a queue to stop, by one of that queue's own, unless the queue has panicked. */
  lemma ReconfigurationGoesOn(acts: seq<WriterAction>) returns (a: WriterAction)
    requires WriterRun(InitWriter(), acts).Some?
    requires var w := WriterRun(InitWriter(), acts).value;
             && !w.pc.Unlocked?
             && (w.epochs != [] ==>
                   forall i :: 0 <= i < |Current(w)| ==> !Current(w)[i].state.crashed)
    ensures WriterEnabled(WriterRun(InitWriter(), acts).value, a)
    ensures a.QueueMoves? ==> Internal(a.act)
  {
    WriterRunKeepsInv(InitWriter(), acts);
    a := LockedCanGoOn(WriterRun(InitWriter(), acts).value);
  }

  lemma LockedCanGoOn(w: WriterState) returns (a: WriterAction)
    requires WriterInv(w) && !w.pc.Unlocked?
    requires forall i :: 0 <= i < |Current(w)| ==> !Current(w)[i].state.crashed
    ensures WriterEnabled(w, a) && (a.QueueMoves? ==> Internal(a.act))
  {
    var i := w.pc.i;
    if i >= |Current(w)| {
      a := if w.pc.StoppingQueue? then ReplaceQueues else ApplyReturns;
    } else {
      CurrentOk(w, i);
      var m := Current(w)[i];
      if w.pc.StartingQueue? {
        a := StartNext;
      } else if !w.pc.called {
        a := StopNext;
      } else if m.state.stop.Stopped? {
        a := StopReturned;
      } else {
        var act := StopCanMove(m.cfg, m.state);
        a := QueueMoves(|w.epochs| - 1, i, act);
      }
    }
  }

  /** One more action of a run. */
  lemma {:induction false} RunGoesOn(w: WriterState, acts: seq<WriterAction>, t: WriterState, a: WriterAction)
    requires WriterRun(w, acts) == Some(t) && WriterEnabled(t, a)
    ensures WriterRun(w, acts + [a]) == Some(WriterApply(t, a))
    decreases |acts|
  {
    hide WriterEnabled, WriterApply;
    if acts == [] {
      assert acts + [a] == [a] && [a][1..] == [];
    } else {
      assert (acts + [a])[0] == acts[0] && (acts + [a])[1..] == acts[1..] + [a];
      RunGoesOn(WriterApply(w, acts[0]), acts[1..], t, a);
    }
  }

  function JustStarted(c: Config): Manager {
    Manager(c, Init().(reshard := Launching(0), updateRunning := true))
  }

  lemma FirstPool(c: Config) returns (w: WriterState)
    requires ValidConfig(c)
    ensures WriterRun(InitWriter(), [ApplyConfig([Some(c)]), ReplaceQueues]) == Some(w)
    ensures w == WriterState([[], [Manager(c, Init())]], StartingQueue(0), [], [[], []], [])
  {
    hide Enabled, Apply, Init;
    var begin := [ApplyConfig([Some(c)])];
    assert begin[1..] == [];
    var building := WriterApply(InitWriter(), begin[0]);
    assert building.pc.configs == [c];
    RunGoesOn(InitWriter(), begin, building, ReplaceQueues);
    assert begin + [ReplaceQueues] == [ApplyConfig([Some(c)]), ReplaceQueues];
    w := WriterApply(building, ReplaceQueues);
    assert FreshPool([c]) == [Manager(c, Init())];
  }

  lemma FirstStart(c: Config, w: WriterState)
    requires ValidConfig(c) && w == WriterState([[], [Manager(c, Init())]], StartingQueue(0), [], [[], []], [])
    ensures WriterEnabled(w, StartNext)
    ensures WriterApply(w, StartNext) == WriterState([[], [JustStarted(c)]], StartingQueue(1), [], [[], []], [])
  {
    var w' := WriterApply(w, StartNext);
    assert [Manager(c, Init())][0 := JustStarted(c)] == [JustStarted(c)];
    assert w'.epochs[1] == [JustStarted(c)] && w'.epochs[0] == [];
    assert Tagged(1, 0, []) == [];
    assert w'.wire == [];
  }

  lemma FirstAppend(c: Config, x: Sample, w: WriterState)
    requires ValidConfig(c)
    requires w == WriterState([[], [JustStarted(c)]], Unlocked, [], [[], [x]], [InFlight(x, 0)])
    ensures WriterEnabled(w, AppendNext(0, false))
    ensures var w' := WriterApply(w, AppendNext(0, false));
            && w' == w.(epochs := w'.epochs, inFlight := [InFlight(x, 1)])
            && |w'.epochs| == 2 && |w'.epochs[1]| == 1 && w'.epochs[1][0].cfg == c
            && w'.epochs[1][0].state.appended == [x]
            && w'.epochs[1][0].state.accepted
               == if Relabelled(c, x).Some? && c.queueCapacity > 0 then [Relabelled(c, x).value] else []
  {
    hide Proposed;
    var s := JustStarted(c).state;
    assert s.live == [EmptyShard];
    assert Apply(c, s, Append(x, false)).appended == [x];
    assert Tagged(1, 0, []) == [];
  }

  lemma FirstQueue(c: Config) returns (acts: seq<WriterAction>, w: WriterState)
    requires ValidConfig(c)
    ensures acts == [ApplyConfig([Some(c)]), ReplaceQueues] + [StartNext] + [ApplyReturns]
    ensures WriterRun(InitWriter(), acts) == Some(w)
    ensures w == WriterState([[], [JustStarted(c)]], Unlocked, [], [[], []], [])
  {
    hide Enabled, Apply, JustStarted;
    acts := [ApplyConfig([Some(c)]), ReplaceQueues];
    w := FirstPool(c);
    FirstStart(c, w);
    acts, w := Onward(acts, w, StartNext);
    acts, w := Onward(acts, w, ApplyReturns);
  }

  /** A first configuration and a first append: the new queue starts, is handed the sample and, if
      relabelling lets it through and the channel has room, has it on its channel. */
  lemma FirstRun(c: Config, x: Sample) returns (w: WriterState)
    requires ValidConfig(c)
    ensures WriterRun(InitWriter(), [ApplyConfig([Some(c)]), ReplaceQueues] + [StartNext] + [ApplyReturns]
                                    + [BeginAppend(x)] + [AppendNext(0, false)] + [EndAppend(0)]) == Some(w)
    ensures w.pc.Unlocked? && w.inFlight == [] && w.offered == [[], [x]]
    ensures |w.epochs| == 2 && |w.epochs[1]| == 1 && w.epochs[1][0].cfg == c
    ensures w.epochs[1][0].state.appended == [x]
    ensures w.epochs[1][0].state.accepted
            == if Relabelled(c, x).Some? && c.queueCapacity > 0 then [Relabelled(c, x).value] else []
  {
    hide Enabled, Apply, JustStarted;
    var acts;
    acts, w := FirstQueue(c);
    assert [] + [x] == [x];
    acts, w := Onward(acts, w, BeginAppend(x));
    assert w.offered == [[], [x]] && w.inFlight == [InFlight(x, 0)];
    FirstAppend(c, x, w);
    acts, w := Onward(acts, w, AppendNext(0, false));
    acts, w := Onward(acts, w, EndAppend(0));
  }

  lemma Onward(acts: seq<WriterAction>, w: WriterState, a: WriterAction)
    returns (more: seq<WriterAction>, w': WriterState)
    requires WriterRun(InitWriter(), acts) == Some(w) && WriterEnabled(w, a)
    ensures more == acts + [a] && w' == WriterApply(w, a) && WriterRun(InitWriter(), more) == Some(w')
  {
    RunGoesOn(InitWriter(), acts, w, a);
    more, w' := acts + [a], WriterApply(w, a);
  }

  // ----- the new queues -----

  ghost predicate HasConfigs(pool: Pool, configs: seq<Option<Config>>) {
    |pool| == |configs| && forall k :: 0 <= k < |pool| ==> configs[k] == Some(pool[k].cfg)
  }

  ghost predicate Building(w: WriterState, n: nat, configs: seq<Option<Config>>) {
    && |w.epochs| >= n
    && if |w.epochs| == n then
         w.pc.StoppingQueue? && |w.pc.configs| == |configs|
         && forall k :: 0 <= k < |configs| ==> configs[k] == Some(w.pc.configs[k])
       else HasConfigs(w.epochs[n], configs)
  }

  lemma ActKeepsConfigs(w: WriterState, e: nat, i: nat, act: Action, n: nat)
    requires CanAct(w, e, i, act) && n < |w.epochs|
    ensures var w' := Act(w, e, i, act);
            && |w'.epochs| == |w.epochs| && |w'.epochs[n]| == |w.epochs[n]|
            && forall k :: 0 <= k < |w.epochs[n]| ==> w'.epochs[n][k].cfg == w.epochs[n][k].cfg
  {
    hide Enabled, Apply;
  }

  lemma StepKeepsBuilding(w: WriterState, a: WriterAction, n: nat, configs: seq<Option<Config>>)
    requires WriterEnabled(w, a) && Building(w, n, configs)
    ensures Building(WriterApply(w, a), n, configs)
  {
    hide Enabled, Apply;
    if n < |w.epochs| {
      match a
      case QueueMoves(e, i, act) => ActKeepsConfigs(w, e, i, act, n);
      case AppendNext(k, meets) =>
        ActKeepsConfigs(w, |w.epochs| - 1, w.inFlight[k].next, Append(w.inFlight[k].sample, meets), n);
      case StopNext => ActKeepsConfigs(w, |w.epochs| - 1, w.pc.i, CallStop, n);
      case StartNext => ActKeepsConfigs(w, |w.epochs| - 1, w.pc.i, CallStart, n);
      case _ =>
    }
  }

  lemma {:induction false} RunKeepsBuilding(w: WriterState, acts: seq<WriterAction>, n: nat,
                                            configs: seq<Option<Config>>)
    requires Building(w, n, configs) && WriterRun(w, acts).Some?
    ensures Building(WriterRun(w, acts).value, n, configs)
    decreases |acts|
  {
    hide Building, WriterEnabled, WriterApply;
    if acts != [] {
      StepKeepsBuilding(w, acts[0], n, configs);
      RunKeepsBuilding(WriterApply(w, acts[0]), acts[1..], n, configs);
    }
  }

  /** However the run goes on after ApplyConfig began: the pool that comes next, if it has come, has
      one queue for each configuration it was given, in that order. */
  lemma NewQueuesHaveTheirConfigs(w: WriterState, configs: seq<Option<Config>>, more: seq<WriterAction>)
    requires AllBuilt(configs) && WriterEnabled(w, ApplyConfig(configs))
    requires WriterRun(WriterApply(w, ApplyConfig(configs)), more).Some?
    ensures var t := WriterRun(WriterApply(w, ApplyConfig(configs)), more).value;
            |t.epochs| > |w.epochs| ==>
              var pool := t.epochs[|w.epochs|];
              |pool| == |configs| && forall k :: 0 <= k < |configs| ==> configs[k] == Some(pool[k].cfg)
  {
    RunKeepsBuilding(WriterApply(w, ApplyConfig(configs)), more, |w.epochs|, configs);
  }

  // ----- when no queue panics -----

  /** Counts are handed over only under positive demand. */
  predicate Positive(w: WriterState, a: WriterAction) {
    a.QueueMoves? && HandsOver(a.act) && InPool(w, a.epoch, a.queue)
    ==> DemandIsPositive(w.epochs[a.epoch][a.queue].state.meters)
  }

  predicate AllPositive(w: WriterState, acts: seq<WriterAction>)
    requires WriterRun(w, acts).Some?
    decreases |acts|
  {
    acts == [] || (Positive(w, acts[0]) && AllPositive(WriterApply(w, acts[0]), acts[1..]))
  }

  /** No queue has panicked, and every queue has a shard and none but positive counts on its way. */
  ghost predicate AllManned(w: WriterState) {
    forall e: nat, i: nat :: InPool(w, e, i) ==> !w.epochs[e][i].state.crashed && Manned(w.epochs[e][i].state)
  }

  lemma ActStaysManned(w: WriterState, i: nat, act: Action)
    requires w.epochs != [] && CanAct(w, |w.epochs| - 1, i, act)
    requires PoliteStep(Current(w)[i].state, act)
    requires WriterInv(w) && AllManned(w)
    ensures AllManned(Act(w, |w.epochs| - 1, i, act))
  {
    var m := Current(w)[i];
    hide Enabled, Apply, PoliteStep, Manned;
    assert InPool(w, |w.epochs| - 1, i);
    assert ManagerOk(m, Expected(w.pc, i));
    PoliteStepIsSafe(m.cfg, m.state, act);
    StepStaysManned(m.cfg, m.state, act);
    ActPools(w, i, act);
  }

  lemma QueueStaysManned(w: WriterState, e: nat, i: nat, act: Action)
    requires WriterInv(w) && AllManned(w)
    requires WriterEnabled(w, QueueMoves(e, i, act)) && Positive(w, QueueMoves(e, i, act))
    ensures AllManned(WriterApply(w, QueueMoves(e, i, act)))
  {
    QueueMovesKeepsInv(w, e, i, act);
    ActStaysManned(w, i, act);
  }

  /** The lock keeps appends away from queues that have been told to stop. */
  lemma AppendStaysManned(w: WriterState, k: nat, meets: bool)
    requires WriterInv(w) && AllManned(w) && WriterEnabled(w, AppendNext(k, meets))
    ensures AllManned(WriterApply(w, AppendNext(k, meets)))
  {
    hide Enabled, Apply, Manned, Core, WireOrdered, WireComplete;
    var (i, x) := (w.inFlight[k].next, w.inFlight[k].sample);
    assert InPool(w, |w.epochs| - 1, i);
    assert ManagerOk(Current(w)[i], Running);
    ActStaysManned(w, i, Append(x, meets));
    var w' := Act(w, |w.epochs| - 1, i, Append(x, meets));
    SameManned(w', WriterApply(w, AppendNext(k, meets)));
  }

  lemma SameManned(w: WriterState, w': WriterState)
    requires AllManned(w) && w'.epochs == w.epochs
    ensures AllManned(w')
  {
    assert forall e: nat, i: nat :: InPool(w', e, i) <==> InPool(w, e, i);
  }

  /** No queue is told to stop twice. */
  lemma CallStaysManned(w: WriterState, a: WriterAction)
    requires WriterInv(w) && AllManned(w) && WriterEnabled(w, a) && (a.StopNext? || a.StartNext?)
    ensures AllManned(WriterApply(w, a))
  {
    hide Enabled, Apply, Manned, Core, WireOrdered, WireComplete;
    assert InPool(w, |w.epochs| - 1, w.pc.i);
    assert ManagerOk(Current(w)[w.pc.i], Expected(w.pc, w.pc.i));
    ActStaysManned(w, w.pc.i, if a.StopNext? then CallStop else CallStart);
  }

  lemma ReplaceStaysManned(w: WriterState)
    requires AllManned(w) && WriterEnabled(w, ReplaceQueues)
    ensures AllManned(WriterApply(w, ReplaceQueues))
  {
    var w' := WriterApply(w, ReplaceQueues);
    forall e: nat, i: nat | InPool(w', e, i)
      ensures !w'.epochs[e][i].state.crashed && Manned(w'.epochs[e][i].state)
    {
      if e < |w.epochs| {
        assert InPool(w, e, i);
      } else {
        assert w'.epochs[e][i].state == Init();
      }
    }
  }

  lemma WriterStepStaysManned(w: WriterState, a: WriterAction)
    requires WriterInv(w) && AllManned(w) && WriterEnabled(w, a) && Positive(w, a)
    ensures AllManned(WriterApply(w, a))
  {
    hide WriterInv, Enabled, Apply;
    match a
    case QueueMoves(e, i, act) => QueueStaysManned(w, e, i, act);
    case AppendNext(k, meets) => AppendStaysManned(w, k, meets);
    case StopNext => CallStaysManned(w, a);
    case StartNext => CallStaysManned(w, a);
    case ReplaceQueues => ReplaceStaysManned(w);
    case _ => SameManned(w, WriterApply(w, a));
  }

  lemma {:induction false} WriterRunStaysManned(w: WriterState, acts: seq<WriterAction>)
    requires WriterInv(w) && AllManned(w) && WriterRun(w, acts).Some? && AllPositive(w, acts)
    ensures AllManned(WriterRun(w, acts).value)
    decreases |acts|
  {
    if acts != [] {
      WriterStepKeepsInv(w, acts[0]);
      WriterStepStaysManned(w, acts[0]);
      WriterRunStaysManned(WriterApply(w, acts[0]), acts[1..]);
    }
  }

  /** Over any reconfigurations and appends in which counts are handed over only under positive
      demand, no queue panics: while the writer's lock is respected no sample is ever sent on
      a closed channel and no queue is stopped twice. */
  lemma NoQueuePanics(acts: seq<WriterAction>, e: nat, i: nat)
    requires WriterRun(InitWriter(), acts).Some? && AllPositive(InitWriter(), acts)
    requires InPool(WriterRun(InitWriter(), acts).value, e, i)
    ensures var s := WriterRun(InitWriter(), acts).value.epochs[e][i].state;
            !s.crashed && |s.live| >= 1
  {
    WriterRunStaysManned(InitWriter(), acts);
  }
}
