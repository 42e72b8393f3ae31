/** The code one shard goroutine runs: runShard, sendSamples and sendSamplesWithBackoff, with
    their loops, proved against the batching function and against the shard's state machine. */
module ShardWorker {
  import opened Model
  import opened ShardMachine
  import opened Batching
  import opened ShardRuns

  // ----- backoff -----

  function Pow2(k: nat): nat {
    if k == 0 then 1 else 2 * Pow2(k - 1)
  }

  /** The sleep after the k-th recoverable error. The cap is only applied after doubling, so
      the first sleep is MinBackoff even when that exceeds MaxBackoff. */
  function BackoffAt(min: nat, max: nat, k: nat): nat {
    if k > 0 && min * Pow2(k) > max then max else min * Pow2(k)
  }

  lemma BackoffDoubles(min: nat, max: nat, k: nat)
    ensures BackoffAt(min, max, k + 1) ==
            if BackoffAt(min, max, k) * 2 > max then max else BackoffAt(min, max, k) * 2
  {
    assert min * Pow2(k + 1) == (min * Pow2(k)) * 2;
  }

  function Sleeps(min: nat, max: nat, k: nat): (r: seq<nat>)
    ensures |r| == k
    ensures forall i :: 0 <= i < k ==> r[i] == BackoffAt(min, max, i)
  {
    seq(k, i requires 0 <= i < k => BackoffAt(min, max, i))
  }

  function Capped(min: nat, max: nat, i: nat): nat {
    if min * Pow2(i) > max then max else min * Pow2(i)
  }

  /** All sleeps of a batch but the first are at most MaxBackoff. */
  lemma {:induction false} LaterSleeps(min: nat, max: nat, k: nat)
    ensures k > 0 ==> Sum(Sleeps(min, max, k)) <= min + (k - 1) * max
    ensures k > 0 && min > max ==> Sum(Sleeps(min, max, k)) == min + (k - 1) * max
  {
    if k > 0 {
      LaterSleeps(min, max, k - 1);
      assert Sleeps(min, max, k)[..k - 1] == Sleeps(min, max, k - 1);
      if k > 1 {
        assert (k - 1) * max == (k - 2) * max + max;
        PowGrows(min, k - 1);
      }
    }
  }

  lemma PowGrows(min: nat, k: nat)
    ensures min * Pow2(k) >= min
  {
    if k > 0 {
      PowGrows(min, k - 1);
      assert min * Pow2(k) == 2 * (min * Pow2(k - 1));
    }
  }

  /** Every sleep is the capped power, and the total is at most MaxBackoff for each error,
      exactly if there was no error or MinBackoff is at most MaxBackoff: a larger MinBackoff is
      slept once before the cap applies. */
  lemma {:induction false} TotalSleep(min: nat, max: nat, k: nat)
    ensures (forall i :: 0 <= i < k ==> Sleeps(min, max, k)[i] == Capped(min, max, i)) <==> k == 0 || min <= max
    ensures Sum(Sleeps(min, max, k)) <= k * max <==> k == 0 || min <= max
    ensures k > 0 ==> Sum(Sleeps(min, max, k)) <= min + (k - 1) * max
  {
    LaterSleeps(min, max, k);
    if k > 0 {
      assert k * max == (k - 1) * max + max;
      assert Sleeps(min, max, k)[0] == min * Pow2(0) == min;
      assert Capped(min, max, 0) == if min > max then max else min;
    }
  }

  // ----- the goroutine -----

  /** What a call to the remote end comes to: the request could not be built, there was no
      response, or there was one with this status. */
  datatype Reply = Unsendable | NoResponse | Status(code: int)

  function OutcomeOf(reply: Reply): Outcome {
    match reply
    case Unsendable => StoreFatal
    case NoResponse => StoreRecoverable
    case Status(code) =>
      if code / 100 == 5 then StoreRecoverable
      else if code / 100 != 2 then StoreFatal
      else StoreOk
  }

  /** The remote end: an arbitrary reply to each call, and a record of the calls. */
  class StorageClient {
    const replies: nat -> Reply
    const answers: nat -> Outcome := (i: nat) => OutcomeOf(replies(i))
    var calls: seq<seq<Sample>>

    constructor (replies: nat -> Reply)
      ensures this.replies == replies && calls == []
    {
      this.replies := replies;
      calls := [];
    }

    /** Only a status from 200 to 299 is a success; no response and a status from 500 to 599
        can be retried; everything else is final. */
    method Store(samples: seq<Sample>) returns (outcome: Outcome)
      modifies this
      ensures calls == old(calls) + [samples]
      ensures outcome == answers(|old(calls)|)
      ensures var reply := replies(|old(calls)|);
              && (outcome.StoreOk? <==> reply.Status? && 200 <= reply.code <= 299)
              && (outcome.StoreRecoverable? <==> reply.NoResponse? || (reply.Status? && 500 <= reply.code <= 599))
    {
      outcome := OutcomeOf(replies(|calls|));
      calls := calls + [samples];
    }
  }

  /** The time the first n sends take. */
  function Elapsed(durations: nat -> nat, n: nat): nat {
    if n == 0 then 0 else Elapsed(durations, n - 1) + durations(n - 1)
  }

  function Repeat<T>(x: T, n: nat): (r: seq<T>)
    ensures |r| == n
  {
    seq(n, i => x)
  }

  /** The calls of a client that is sent each batch some number of times in a row. */
  function Resent(batches: seq<seq<Sample>>, attempts: seq<nat>): seq<seq<Sample>>
    requires |batches| == |attempts|
  {
    if batches == [] then []
    else
      var n := |batches| - 1;
      Resent(batches[..n], attempts[..n]) + Repeat(batches[n], attempts[n])
  }

  lemma BatchFinished(finished: seq<Sent>, batch: seq<Sample>, ok: bool)
    ensures WithOutcome(finished + MarkAll(batch, ok), ok) == WithOutcome(finished, ok) + batch
    ensures WithOutcome(finished + MarkAll(batch, ok), !ok) == WithOutcome(finished, !ok)
  {
    var news := MarkAll(batch, ok);
    OutcomeOfAll(news, ok);
    OutcomeConcat(finished, news, ok);
    OutcomeConcat(finished, news, !ok);
  }

  lemma ResentIf(batches: seq<seq<Sample>>, attempts: seq<nat>, b: seq<Sample>, n: nat)
    ensures |batches| == |attempts| ==>
              Resent(batches + [b], attempts + [n]) == Resent(batches, attempts) + Repeat(b, n)
  {
    if |batches| == |attempts| {
      ResentSnoc(batches, attempts, b, n);
    }
  }

  lemma ResentSnoc(batches: seq<seq<Sample>>, attempts: seq<nat>, b: seq<Sample>, n: nat)
    requires |batches| == |attempts|
    ensures Resent(batches + [b], attempts + [n]) == Resent(batches, attempts) + Repeat(b, n)
  {
    assert (batches + [b])[..|batches|] == batches && (attempts + [n])[..|attempts|] == attempts;
  }

  class Worker {
    const cfg: Config
    const minBackoff: nat
    const maxBackoff: nat
    const client: StorageClient
    const durations: nat -> nat   // how long each send takes
    var succeeded: nat
    var failed: nat
    var samplesOut: nat
    var samplesOutDuration: nat
    var slept: seq<nat>
    var batches: seq<seq<Sample>>
    ghost var finished: seq<Sent>
    ghost var attempts: seq<nat>  // calls made for each batch

    constructor (cfg: Config, minBackoff: nat, maxBackoff: nat, client: StorageClient, durations: nat -> nat)
      ensures this.cfg == cfg && this.client == client && this.durations == durations
      ensures this.minBackoff == minBackoff && this.maxBackoff == maxBackoff
      ensures succeeded == failed == samplesOut == samplesOutDuration == 0
      ensures slept == [] && batches == [] && finished == []
      ensures client.calls == [] ==> Consistent()
    {
      this.cfg, this.client, this.durations := cfg, client, durations;
      this.minBackoff, this.maxBackoff := minBackoff, maxBackoff;
      succeeded, failed, samplesOut, samplesOutDuration := 0, 0, 0, 0;
      slept, batches, finished, attempts := [], [], [], [];
    }

    /** Every sample counted for the controller has succeeded or failed, the time of every send
        is counted, and the remote end has seen the batches in order, each repeated at most
        MaxRetries times. */
    ghost predicate Consistent()
      reads this, client
    {
      && samplesOut == succeeded + failed
      && succeeded == |WithOutcome(finished, true)| && failed == |WithOutcome(finished, false)|
      && samplesOutDuration == Elapsed(durations, |batches|)
      && |attempts| == |batches|
      && client.calls == Resent(batches, attempts)
      && forall k :: 0 <= k < |attempts| ==> attempts[k] <= Budget(cfg)
    }

    /** At most MaxRetries calls, all with this batch; each recoverable error is followed by
        the next backoff; exactly one of the two counters grows, by the size of the batch. */
    method SendSamplesWithBackoff(samples: seq<Sample>) returns (n: nat)
      modifies this`succeeded, this`failed, this`slept, client
      ensures n <= Budget(cfg)
      ensures client.calls == old(client.calls) + Repeat(samples, n)
      ensures Ends(client.answers, |old(client.calls)|, n, cfg.maxRetries)
      ensures var base := |old(client.calls)|;
              && (n == 0 || n <= cfg.maxRetries)
              && (n < cfg.maxRetries ==> n > 0 && !client.answers(base + n - 1).StoreRecoverable?)
              && forall i :: base <= i < base + n - 1 ==> client.answers(i).StoreRecoverable?
      ensures var ok := Delivered(client.answers, |old(client.calls)|, n);
              && succeeded == old(succeeded) + (if ok then |samples| else 0)
              && failed == old(failed) + (if ok then 0 else |samples|)
      ensures var base := |old(client.calls)|;
              var errors := if n > 0 && !client.answers(base + n - 1).StoreRecoverable? then n - 1 else n;
              slept == old(slept) + Sleeps(minBackoff, maxBackoff, errors)
    {
      var backoff := minBackoff;
      var retries := cfg.maxRetries;
      ghost var base := |client.calls|;
      n := 0;
      while retries > 0
        invariant n <= Budget(cfg)
        invariant retries == cfg.maxRetries - n
        invariant client.calls == old(client.calls) + Repeat(samples, n)
        invariant forall i :: base <= i < base + n ==> client.answers(i).StoreRecoverable?
        invariant backoff == BackoffAt(minBackoff, maxBackoff, n)
        invariant slept == old(slept) + Sleeps(minBackoff, maxBackoff, n)
        invariant succeeded == old(succeeded) && failed == old(failed)
        decreases retries
      {
        var outcome := client.Store(samples);
        n := n + 1;
        assert Repeat(samples, n) == Repeat(samples, n - 1) + [samples];
        if outcome.StoreOk? {
          succeeded := succeeded + |samples|;
          return;
        }
        if !outcome.StoreRecoverable? {
          break;
        }
        slept := slept + [backoff];
        assert Sleeps(minBackoff, maxBackoff, n) == Sleeps(minBackoff, maxBackoff, n - 1) + [backoff];
        BackoffDoubles(minBackoff, maxBackoff, n - 1);
        backoff := backoff * 2;
        if backoff > maxBackoff {
          backoff := maxBackoff;
        }
        retries := retries - 1;
      }
      failed := failed + |samples|;
    }

    /** Sends one batch; the controller's two counters grow whatever the outcome. */
    method SendSamples(samples: seq<Sample>) returns (ghost n: nat)
      modifies this, client
      ensures samplesOut == old(samplesOut) + |samples|
      ensures samplesOutDuration == old(samplesOutDuration) + durations(|old(batches)|)
      ensures batches == old(batches) + [samples]
      ensures old(Consistent()) ==> Consistent()
      ensures client.calls == old(client.calls) + Repeat(samples, n)
      ensures Ends(client.answers, |old(client.calls)|, n, cfg.maxRetries)
      ensures finished == old(finished) + MarkAll(samples, Delivered(client.answers, |old(client.calls)|, n))
    {
      hide MarkAll, WithOutcome, Ends, Resent, Repeat;
      n := SendSamplesWithBackoff(samples);
      BatchFinished(finished, samples, Delivered(client.answers, |old(client.calls)|, n));
      ResentIf(batches, attempts, samples, n);
      attempts := attempts + [n];
      samplesOut := samplesOut + |samples|;
      samplesOutDuration := samplesOutDuration + durations(|batches|);
      batches := batches + [samples];
      finished := finished + MarkAll(samples, Delivered(client.answers, |old(client.calls)|, n));
    }

    /** The inner loop of runShard: send full batches until fewer than MaxSamplesPerSend
        samples are pending. The ghost parameters say which run of the shard this continues. */
    method SendFullBatches(pending: seq<Sample>, ghost events: seq<Event>, ghost trace: seq<Turn>,
                           ghost sent: seq<Sent>)
      returns (left: seq<Sample>, ghost t: seq<Turn>, ghost more: seq<Sent>)
      requires ValidConfig(cfg) && |pending| <= cfg.maxSamplesPerSend
      requires Tracks(cfg, trace, Open(pending, SendIfFull(cfg, pending)), sent)
      modifies this, client
      ensures |left| < cfg.maxSamplesPerSend
      ensures batches + Chunks(cfg.maxSamplesPerSend, left, events)
              == old(batches) + CutThen(cfg.maxSamplesPerSend, pending, events)
      ensures samplesOut + |left| == old(samplesOut) + |pending|
      ensures old(Consistent()) ==> Consistent()
      ensures finished == old(finished) + more
      ensures Tracks(cfg, t, Open(left, Selecting), sent + more)
    {
      hide Tracks, Consistent, Chunks;
      var max := cfg.maxSamplesPerSend;
      left, t, more := pending, trace, [];
      assert sent + [] == sent;
      while |left| >= max
        invariant |left| <= max
        invariant batches + CutThen(max, left, events) == old(batches) + CutThen(max, pending, events)
        invariant samplesOut + |left| == old(samplesOut) + |pending|
        invariant old(Consistent()) ==> Consistent()
        invariant finished == old(finished) + more
        invariant Tracks(cfg, t, Open(left, SendIfFull(cfg, left)), sent + more)
        decreases |left|
      {
        ghost var base, took := |client.calls|, durations(|batches|);
        ghost var n := SendSamples(left[..max]);
        ghost var batch := MarkAll(left[..max], Delivered(client.answers, base, n));
        t := ThenSendFull(cfg, t, left, sent + more, client.answers, base, n, took);
        assert sent + more + batch == sent + (more + batch);
        more := more + batch;
        left := left[max..];
      }
    }

    /** Send whatever is pending, on a deadline or because the channel is closed. */
    method Flush(pending: seq<Sample>, ghost closed: bool, ghost trace: seq<Turn>, ghost sent: seq<Sent>)
      returns (ghost t: seq<Turn>, ghost more: seq<Sent>)
      requires ValidConfig(cfg) && pending != []
      requires Tracks(cfg, trace, Shard([], closed, pending, Selecting), sent)
      modifies this, client
      ensures batches == old(batches) + [pending]
      ensures samplesOut == old(samplesOut) + |pending|
      ensures old(Consistent()) ==> Consistent()
      ensures finished == old(finished) + more
      ensures Tracks(cfg, t, Shard([], closed, [], if closed then Exited else Selecting), sent + more)
    {
      ghost var base, took := |client.calls|, durations(|batches|);
      ghost var n := SendSamples(pending);
      t := ThenFlush(cfg, closed, trace, pending, sent, client.answers, base, n, took);
      more := MarkAll(pending, Delivered(client.answers, base, n));
    }

    /** A sample arrives at the select. */
    method OnArrival(pending: seq<Sample>, x: Sample, ghost rest: seq<Event>, ghost trace: seq<Turn>,
                     ghost sent: seq<Sent>)
      returns (left: seq<Sample>, ghost t: seq<Turn>, ghost more: seq<Sent>)
      requires ValidConfig(cfg) && |pending| < cfg.maxSamplesPerSend
      requires Tracks(cfg, trace, Open(pending, Selecting), sent)
      modifies this, client
      ensures |left| < cfg.maxSamplesPerSend
      ensures batches + Chunks(cfg.maxSamplesPerSend, left, rest)
              == old(batches) + CutThen(cfg.maxSamplesPerSend, pending + [x], rest)
      ensures samplesOut + |left| == old(samplesOut) + |pending| + 1
      ensures old(Consistent()) ==> Consistent()
      ensures finished == old(finished) + more
      ensures Tracks(cfg, t, Open(left, Selecting), sent + more)
    {
      t := ThenReceive(cfg, trace, pending, x, sent);
      left, t, more := SendFullBatches(pending + [x], rest, t, sent);
    }

    /** The deadline fires at the select. */
    method OnDeadline(pending: seq<Sample>, ghost trace: seq<Turn>, ghost sent: seq<Sent>)
      returns (ghost t: seq<Turn>, ghost more: seq<Sent>)
      requires ValidConfig(cfg) && Tracks(cfg, trace, Open(pending, Selecting), sent)
      modifies this, client
      ensures batches == old(batches) + if pending == [] then [] else [pending]
      ensures samplesOut == old(samplesOut) + |pending|
      ensures old(Consistent()) ==> Consistent()
      ensures finished == old(finished) + more
      ensures Tracks(cfg, t, Open([], Selecting), sent + more)
    {
      t, more := trace, [];
      assert sent + [] == sent;
      if |pending| > 0 {
        t, more := Flush(pending, false, trace, sent);
      }
    }

    /** The channel is closed: flush and return. */
    method OnClose(pending: seq<Sample>, ghost trace: seq<Turn>, ghost sent: seq<Sent>)
      returns (ghost t: seq<Turn>, ghost more: seq<Sent>)
      requires ValidConfig(cfg) && Tracks(cfg, trace, Open(pending, Selecting), sent)
      modifies this, client
      ensures batches == old(batches) + if pending == [] then [] else [pending]
      ensures samplesOut == old(samplesOut) + |pending|
      ensures old(Consistent()) ==> Consistent()
      ensures finished == old(finished) + more
      ensures Tracks(cfg, t, Shard([], true, [], Exited), sent + more)
    {
      ThenTurn(cfg, trace, Open(pending, Selecting), sent, Closes);
      t := trace + [Closes];
      assert sent + [] == sent;
      if |pending| > 0 {
        t, more := Flush(pending, true, t, sent);
      } else {
        ThenTurn(cfg, t, Shard([], true, [], Selecting), sent, Moves(SeeClosed));
        t, more := t + [Moves(SeeClosed)], [];
      }
    }

    /** The whole life of the goroutine, from its first select to the closed channel: it cuts
        exactly the batches of Chunks, counts every sample once, and its steps, with an append
        before each arrival and the closing at the end, are a run of the shard's state machine
        from an empty open channel, within its capacity, that ends with nothing queued, nothing
        pending and the same samples finished with the same outcomes. */
    method RunShard(events: seq<Event>) returns (ghost trace: seq<Turn>, ghost sent: seq<Sent>)
      requires ValidConfig(cfg)
      modifies this, client
      ensures batches == old(batches) + Chunks(cfg.maxSamplesPerSend, [], events)
      ensures samplesOut == old(samplesOut) + |Arrivals(events)|
      ensures old(Consistent()) ==> Consistent()
      ensures finished == old(finished) + sent
      ensures Tracks(cfg, trace, Shard([], true, [], Exited), sent)
    {
      var max := cfg.maxSamplesPerSend;
      var pending: seq<Sample> := [];
      ghost var more: seq<Sent>;
      trace, sent := [], [];
      TracksFromStart(cfg);
      hide Consistent, Tracks;
      assert events[0..] == events;
      for i := 0 to |events|
        invariant |pending| < max
        invariant batches + Chunks(max, pending, events[i..]) == old(batches) + Chunks(max, [], events)
        invariant samplesOut + |pending| + |Arrivals(events[i..])| == old(samplesOut) + |Arrivals(events)|
        invariant old(Consistent()) ==> Consistent()
        invariant finished == old(finished) + sent
        invariant Tracks(cfg, trace, Open(pending, Selecting), sent)
      {
        assert events[i..][1..] == events[i + 1..];
        match events[i]
        case Arrives(x) =>
          pending, trace, more := OnArrival(pending, x, events[i + 1..], trace, sent);
          sent := sent + more;
        case DeadlineFires =>
          trace, more := OnDeadline(pending, trace, sent);
          pending, sent := [], sent + more;
      }
      assert events[|events|..] == [];
      trace, more := OnClose(pending, trace, sent);
      sent := sent + more;
    }
  }

  /** A shard with an open and empty channel. */
  function Open(pending: seq<Sample>, phase: Phase): Shard {
    Shard([], false, pending, phase)
  }

  /** The trace leads from a shard just started to `sh`, having finished `sent`. */
  predicate Tracks(c: Config, trace: seq<Turn>, sh: Shard, sent: seq<Sent>)
    requires ValidConfig(c)
  {
    ShardRun(c, Open([], Selecting), trace) == Some(ShardStep(sh, sent))
  }

  lemma TracksFromStart(c: Config)
    requires ValidConfig(c)
    ensures Tracks(c, [], Open([], Selecting), [])
  {
  }

  /** The inner loop of runShard: cut a full batch if there is one, then go on. */
  function CutThen(max: nat, p: seq<Sample>, events: seq<Event>): seq<seq<Sample>>
    requires max >= 1
  {
    if |p| >= max then [p[..max]] + Chunks(max, p[max..], events) else Chunks(max, p, events)
  }

  lemma ThenTurn(c: Config, trace: seq<Turn>, sh: Shard, sent: seq<Sent>, t: Turn)
    requires ValidConfig(c) && Tracks(c, trace, sh, sent) && TurnEnabled(c, sh, t)
    ensures var step := TurnApply(c, sh, t);
            Tracks(c, trace + [t], step.next, sent + step.sent)
  {
    var step := TurnApply(c, sh, t);
    assert [t][1..] == [];
    assert step.sent + [] == step.sent;
    ShardRunConcat(c, Open([], Selecting), trace, ShardStep(sh, sent), [t], step);
  }

  lemma ThenSend(c: Config, trace: seq<Turn>, sh: Shard, sent: seq<Sent>,
                 answers: nat -> Outcome, base: nat, n: nat, took: nat)
    requires ValidConfig(c) && Tracks(c, trace, sh, sent)
    requires sh.phase.Sending? && sh.phase.batch <= |sh.pending| && Ends(answers, base, n, sh.phase.retries)
    ensures var end := AfterSend(c, sh, Delivered(answers, base, n));
            Tracks(c, trace + SendTrace(answers, base, n, took), end.next, sent + end.sent)
  {
    SendTraceRuns(c, sh, answers, base, n, took);
    ShardRunConcat(c, Open([], Selecting), trace, ShardStep(sh, sent), SendTrace(answers, base, n, took),
                   AfterSend(c, sh, Delivered(answers, base, n)));
  }

  ghost method ThenReceive(c: Config, trace: seq<Turn>, pending: seq<Sample>, x: Sample, sent: seq<Sent>)
    returns (t: seq<Turn>)
    requires ValidConfig(c) && Tracks(c, trace, Open(pending, Selecting), sent)
    ensures Tracks(c, t, Open(pending + [x], SendIfFull(c, pending + [x])), sent)
  {
    var open := Open(pending, Selecting);
    assert sent + [] == sent && [] + [x] == [x] && [x][1..] == [];
    if c.queueCapacity == 0 {
      ThenTurn(c, trace, open, sent, Offers(x, true));
      t := trace + [Offers(x, true)];
    } else {
      ThenTurn(c, trace, open, sent, Offers(x, false));
      t := trace + [Offers(x, false)];
      ThenTurn(c, t, open.(queue := [x]), sent, Moves(Receive));
      t := t + [Moves(Receive)];
    }
  }

  ghost method ThenSendFull(c: Config, trace: seq<Turn>, pending: seq<Sample>, sent: seq<Sent>,
                            answers: nat -> Outcome, base: nat, n: nat, took: nat)
    returns (t: seq<Turn>)
    requires ValidConfig(c) && |pending| >= c.maxSamplesPerSend && Ends(answers, base, n, c.maxRetries)
    requires Tracks(c, trace, Open(pending, SendIfFull(c, pending)), sent)
    ensures var left := pending[c.maxSamplesPerSend..];
            Tracks(c, t, Open(left, SendIfFull(c, left)),
                   sent + MarkAll(pending[..c.maxSamplesPerSend], Delivered(answers, base, n)))
  {
    ThenSend(c, trace, Open(pending, SendIfFull(c, pending)), sent, answers, base, n, took);
    t := trace + SendTrace(answers, base, n, took);
  }

  ghost method ThenFlush(c: Config, closed: bool, trace: seq<Turn>, pending: seq<Sample>, sent: seq<Sent>,
                         answers: nat -> Outcome, base: nat, n: nat, took: nat)
    returns (t: seq<Turn>)
    requires ValidConfig(c) && pending != [] && Ends(answers, base, n, c.maxRetries)
    requires Tracks(c, trace, Shard([], closed, pending, Selecting), sent)
    ensures Tracks(c, t, Shard([], closed, [], if closed then Exited else Selecting),
                   sent + MarkAll(pending, Delivered(answers, base, n)))
  {
    var sh := Shard([], closed, pending, Selecting);
    var a := Moves(if closed then SeeClosed else DeadlineFlush);
    ThenTurn(c, trace, sh, sent, a);
    var sending := TurnApply(c, sh, a).next;
    assert sent + [] == sent;
    ThenSend(c, trace + [a], sending, sent, answers, base, n, took);
    assert pending[..|pending|] == pending && pending[|pending|..] == [];
    t := trace + [a] + SendTrace(answers, base, n, took);
  }
}
