/** How runShard cuts what it receives into batches, as a function of what its select sees. */
module Batching {
  import opened Model

  /** What one iteration of the select in runShard can see before the channel is closed. */
  datatype Event = Arrives(sample: Sample) | DeadlineFires

  function Arrivals(events: seq<Event>): seq<Sample> {
    if events == [] then []
    else (if events[0].Arrives? then [events[0].sample] else []) + Arrivals(events[1..])
  }

  function Join(batches: seq<seq<Sample>>): seq<Sample> {
    if batches == [] then [] else batches[0] + Join(batches[1..])
  }

  /** The batches cut from `events` by a shard with `pending` samples in hand whose channel is
      closed after the last event. */
  function Chunks(max: nat, pending: seq<Sample>, events: seq<Event>): seq<seq<Sample>>
    requires max >= 1
    decreases |events|
  {
    if events == [] then
      if pending == [] then [] else [pending]
    else match events[0]
      case Arrives(x) =>
        var p := pending + [x];
        if |p| >= max then [p[..max]] + Chunks(max, p[max..], events[1..])
        else Chunks(max, p, events[1..])
      case DeadlineFires =>
        if pending == [] then Chunks(max, [], events[1..])
        else [pending] + Chunks(max, [], events[1..])
  }

  lemma JoinCons(b: seq<Sample>, rest: seq<seq<Sample>>)
    ensures Join([b] + rest) == b + Join(rest)
  {
    assert ([b] + rest)[1..] == rest;
  }

  lemma SplitAt(p: seq<Sample>, n: nat, rest: seq<Sample>)
    requires n <= |p|
    ensures p[..n] + (p[n..] + rest) == p + rest
  {
    assert p == p[..n] + p[n..];
  }

  /** Nothing is lost, repeated or reordered by batching. */
  lemma {:induction false} ChunksKeepEverything(max: nat, pending: seq<Sample>, events: seq<Event>)
    requires max >= 1
    ensures Join(Chunks(max, pending, events)) == pending + Arrivals(events)
    decreases |events|
  {
    if events == [] {
      if pending != [] { JoinCons(pending, []); }
    } else {
      var rest := events[1..];
      match events[0]
      case Arrives(x) =>
        var p := pending + [x];
        if |p| >= max {
          ChunksKeepEverything(max, p[max..], rest);
          JoinCons(p[..max], Chunks(max, p[max..], rest));
          SplitAt(p, max, Arrivals(rest));
        } else {
          ChunksKeepEverything(max, p, rest);
        }
        Regroup(pending, [x], Arrivals(rest));
      case DeadlineFires =>
        ChunksKeepEverything(max, [], rest);
        if pending != [] { JoinCons(pending, Chunks(max, [], rest)); }
        assert Arrivals(events) == Arrivals(rest);
    }
  }

  /** No batch is empty or larger than MaxSamplesPerSend. */
  lemma {:induction false} ChunkSizes(max: nat, pending: seq<Sample>, events: seq<Event>)
    requires max >= 1 && |pending| < max
    ensures forall b :: b in Chunks(max, pending, events) ==> 1 <= |b| <= max
    decreases |events|
  {
    if events != [] {
      match events[0]
      case Arrives(x) =>
        var p := pending + [x];
        ChunkSizes(max, if |p| >= max then p[max..] else p, events[1..]);
      case DeadlineFires =>
        ChunkSizes(max, [], events[1..]);
    }
  }

  predicate AllButLastFull(max: nat, batches: seq<seq<Sample>>) {
    forall i :: 0 <= i < |batches| - 1 ==> |batches[i]| == max
  }

  /** Without deadline flushes every batch but the last is full. */
  lemma {:induction false} ChunksFull(max: nat, pending: seq<Sample>, events: seq<Event>)
    requires max >= 1 && |pending| < max
    requires forall e :: e in events ==> e.Arrives?
    ensures AllButLastFull(max, Chunks(max, pending, events))
    decreases |events|
  {
    if events != [] {
      assert events[0] in events;
      var p := pending + [events[0].sample];
      ChunksFull(max, if |p| >= max then p[max..] else p, events[1..]);
    }
  }

  /** A deadline cuts the stream: the batches before it are those of a channel closed there,
      and the batches after it do not depend on what came before. */
  lemma {:induction false} DeadlineCuts(max: nat, pending: seq<Sample>, before: seq<Event>, after: seq<Event>)
    requires max >= 1
    ensures Chunks(max, pending, before + [DeadlineFires] + after)
            == Chunks(max, pending, before) + Chunks(max, [], after)
    decreases |before|
  {
    var all := before + [DeadlineFires] + after;
    if before == [] {
      assert all[1..] == after;
    } else {
      var tail := before[1..];
      assert all[0] == before[0] && all[1..] == tail + [DeadlineFires] + after;
      match before[0]
      case Arrives(x) =>
        var p := pending + [x];
        var rest := if |p| >= max then p[max..] else p;
        DeadlineCuts(max, rest, tail, after);
      case DeadlineFires =>
        DeadlineCuts(max, [], tail, after);
    }
  }
}
