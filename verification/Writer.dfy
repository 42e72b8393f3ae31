/** The writer's and the queue manager's own code: the loops of ApplyConfig and the body of
    Append. */
module Writer {
  import opened Model
  import opened ShardMachine
  import opened QueueProtocol
  import Protocol = WriterProtocol

  // ----- Append -----

  class QueueManager {
    const cfg: Config
    var state: State

    constructor (cfg: Config)
      ensures this.cfg == cfg && state == Init()
    {
      this.cfg := cfg;
      state := Init();
    }

    /** The loop over the external labels never overrides a label the sample has. */
    method WithExternalLabels(metric: Metric) returns (snew: LabelSet)
      ensures snew == AddExternal(cfg.externalLabels, metric)
    {
      snew := metric;
      var todo := cfg.externalLabels.Keys;
      while todo != {}
        invariant todo <= cfg.externalLabels.Keys
        invariant snew == AddExternal(cfg.externalLabels - todo, metric)
        decreases |todo|
      {
        var ln :| ln in todo;
        if ln !in metric {
          snew := snew[ln := cfg.externalLabels[ln]];
        }
        todo := todo - {ln};
        assert snew.Keys == AddExternal(cfg.externalLabels - todo, metric).Keys;
      }
      assert cfg.externalLabels - todo == cfg.externalLabels;
    }

    /** The critical section of Append is one step of the protocol; it reports whether the
        sample was put on its channel, which fails only when that channel has no room and no
        goroutine waiting at it. `meets` says one is waiting at an unbuffered channel. A queue without
        shards and a closed channel panic. */
    method Append(s: Sample, meets: bool) returns (enqueued: bool)
      requires ValidConfig(cfg) && Enabled(cfg, state, QueueProtocol.Append(s, meets))
      modifies this
      ensures state == Apply(cfg, old(state), QueueProtocol.Append(s, meets))
      ensures enqueued <==> |state.accepted| == |old(state).accepted| + 1
      ensures !enqueued && Relabelled(cfg, s).Some? && !state.crashed ==>
                var y := Relabelled(cfg, s).value;
                && !meets && old(state).live != []
                && |old(state).live[Fp(cfg, y) % |old(state).live|].queue| >= cfg.queueCapacity
      ensures enqueued ==>
                var (y, before) := (Relabelled(cfg, s).value, old(state));
                var k := cfg.fingerprint(y.metric) % |before.live|;
                && state.accepted == before.accepted + [y] && |state.live| == |before.live|
                && (forall j :: 0 <= j < |state.live| && j != k ==> state.live[j] == before.live[j])
                && if meets then state.live[k].pending == before.live[k].pending + [y]
                   else state.live[k].queue == before.live[k].queue + [y]
      ensures state.crashed <==>
                && Relabelled(cfg, s).Some?
                && (old(state).live != [] ==>
                      old(state).live[Fp(cfg, Relabelled(cfg, s).value) % |old(state).live|].closed)
    {
      var labels := WithExternalLabels(s.metric);
      var metric := cfg.relabel(labels);
      state := state.(appended := state.appended + [s]);
      if metric.None? {
        state := state.(relabelDropped := state.relabelDropped + 1);
        return false;
      }
      var snew := s.(metric := metric.value);
      if |state.live| == 0 {
        state := Crash(state);
        return false;
      }
      var shard := cfg.fingerprint(snew.metric) % |state.live|;
      var sh := state.live[shard];
      if sh.closed {
        state := Crash(state);
        return false;
      }
      state := state.(meters := CountIn(state.meters));
      if meets {
        var pending := sh.pending + [snew];
        sh := sh.(pending := pending, phase := SendIfFull(cfg, pending));
      } else if |sh.queue| < cfg.queueCapacity {
        sh := sh.(queue := sh.queue + [snew]);
      } else {
        state := state.(overflowed := state.overflowed + [snew]);
        return false;
      }
      state := state.(live := state.live[shard := sh], accepted := state.accepted + [snew]);
      return true;
    }
  }

  // ----- ApplyConfig -----

  datatype Life = New | Started | Stopped

  /** A queue manager as the writer sees it. */
  class Handle {
    const cfg: Config
    var life: Life

    constructor (cfg: Config)
      ensures this.cfg == cfg && life == New
    {
      this.cfg := cfg;
      life := New;
    }

    method Start()
      requires life == New
      modifies this
      ensures life == Started
    {
      life := Started;
    }

    method Stop()
      requires life == Started
      modifies this
      ensures life == Life.Stopped
    {
      life := Life.Stopped;
    }
  }

  datatype Event = Stops(h: Handle) | Starts(h: Handle)

  predicate Distinct(hs: seq<Handle>) {
    forall i, j :: 0 <= i < j < |hs| ==> hs[i] != hs[j]
  }

  predicate AllAre(hs: seq<Handle>, life: Life)
    reads hs
  {
    forall k :: 0 <= k < |hs| ==> hs[k].life == life
  }

  class Writer {
    var queues: seq<Handle>

    predicate Valid()
      reads this, queues
    {
      Distinct(queues) && AllAre(queues, Started)
    }

    constructor ()
      ensures Valid() && queues == []
    {
      queues := [];
    }

    /** None stands for a remote whose client cannot be built. If there is one, nothing at all
        changes; otherwise every old queue is stopped, then every new one started, in order. These
        are the writer's actions in the protocol, in its order. */
    method ApplyConfig(confs: seq<Option<Config>>)
      returns (ok: bool, ghost events: seq<Event>, ghost trace: seq<Protocol.WriterAction>)
      requires Valid()
      modifies this, queues
      ensures Valid()
      ensures ok <==> forall k :: 0 <= k < |confs| ==> confs[k].Some?
      ensures !ok ==> queues == old(queues) && events == []
      ensures ok ==> |queues| == |confs| && forall k :: 0 <= k < |confs| ==>
                       fresh(queues[k]) && confs[k] == Some(queues[k].cfg)
      ensures ok ==> AllAre(old(queues), Life.Stopped)
      ensures ok ==> |events| == |old(queues)| + |queues|
      ensures ok ==> forall k :: 0 <= k < |old(queues)| ==> events[k] == Stops(old(queues)[k])
      ensures ok ==> forall k :: 0 <= k < |queues| ==> events[|old(queues)| + k] == Starts(queues[k])
      ensures trace == [Protocol.ApplyConfig(confs)]
                       + if ok then Protocol.ApplyTrace(|old(queues)|, |queues|) else []
    {
      hide Protocol.Stops, Protocol.Starts, Protocol.ApplyTrace;
      events := [];
      ghost var begin := [Protocol.ApplyConfig(confs)];
      trace := begin;
      Protocol.NothingYet(begin);
      var newQueues := BuildQueues(confs);
      if newQueues.None? {
        assert trace == begin + [];
        return false, events, trace;
      }
      ghost var before := queues;
      for i := 0 to |queues|
        invariant queues == before && |events| == i && trace == begin + Protocol.Stops(i)
        invariant forall k :: 0 <= k < |before| ==> before[k].life == if k < i then Life.Stopped else Started
        invariant AllAre(newQueues.value, New)
        invariant forall k :: 0 <= k < i ==> events[k] == Stops(before[k])
      {
        queues[i].Stop();
        events := events + [Stops(queues[i])];
        trace := trace + [Protocol.StopNext, Protocol.StopReturned];
        Protocol.NextStop(begin, i);
      }
      queues := newQueues.value;
      ghost var replaced := trace + [Protocol.ReplaceQueues];
      trace := replaced;
      Protocol.NothingYet(replaced);
      for i := 0 to |queues|
        invariant queues == newQueues.value && |events| == |before| + i && trace == replaced + Protocol.Starts(i)
        invariant forall k :: 0 <= k < |queues| ==> queues[k].life == if k < i then Started else New
        invariant AllAre(before, Life.Stopped)
        invariant forall k :: 0 <= k < |before| ==> events[k] == Stops(before[k])
        invariant forall k :: 0 <= k < i ==> events[|before| + k] == Starts(queues[k])
      {
        queues[i].Start();
        events := events + [Starts(queues[i])];
        trace := trace + [Protocol.StartNext];
        Protocol.NextStart(replaced, i);
      }
      trace := trace + [Protocol.ApplyReturns];
      Protocol.TraceParts(begin, |before|, |queues|);
      return true, events, trace;
    }

    /** The building loop stops at the first client that fails. */
    method BuildQueues(confs: seq<Option<Config>>) returns (built: Option<seq<Handle>>)
      ensures built.Some? <==> forall k :: 0 <= k < |confs| ==> confs[k].Some?
      ensures built.Some? ==>
                && |built.value| == |confs| && Distinct(built.value)
                && forall k :: 0 <= k < |confs| ==>
                     fresh(built.value[k]) && built.value[k].life == New && confs[k] == Some(built.value[k].cfg)
    {
      var newQueues: seq<Handle> := [];
      for i := 0 to |confs|
        invariant |newQueues| == i && Distinct(newQueues)
        invariant forall k :: 0 <= k < i ==>
                    fresh(newQueues[k]) && newQueues[k].life == New && confs[k] == Some(newQueues[k].cfg)
      {
        if confs[i].None? {
          return None;
        }
        var h := new Handle(confs[i].value);
        newQueues := newQueues + [h];
      }
      return Some(newQueues);
    }
  }
}
