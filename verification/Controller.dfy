/** The code of calculateDesiredShards: three averages, an integral term and a decision. */
module Controller {
  import opened Model
  import opened Ewma
  import opened ReshardDecision

  /** What other goroutines count while one of the counters ticks, after its load. */
  datatype Window = Window(ins: seq<int>, outs: seq<int>, durations: seq<int>)

  const Quiet := Window([], [], [])

  class ShardController {
    const maxShards: int
    const samplesIn: EwmaRate
    const samplesOut: EwmaRate
    const samplesOutDuration: EwmaRate
    var integralAccumulator: real
    var numShards: int

    ghost predicate Valid()
      reads this, samplesIn, samplesOut, samplesOutDuration
    {
      && samplesIn.Valid() && samplesOut.Valid() && samplesOutDuration.Valid()
      && samplesIn != samplesOut && samplesIn != samplesOutDuration && samplesOut != samplesOutDuration
    }

    constructor (maxShards: int, alpha: real, interval: real)
      requires interval > 0.0
      ensures Valid() && fresh(samplesIn) && fresh(samplesOut) && fresh(samplesOutDuration)
      ensures this.maxShards == maxShards && numShards == 1 && integralAccumulator == 0.0
      ensures samplesIn.interval == samplesOut.interval == samplesOutDuration.interval == interval
      ensures samplesIn.alpha == samplesOut.alpha == samplesOutDuration.alpha == alpha
      ensures samplesIn.ticked == samplesOut.ticked == samplesOutDuration.ticked == []
      ensures samplesIn.newEvents == samplesOut.newEvents == samplesOutDuration.newEvents == 0
    {
      this.maxShards, numShards, integralAccumulator := maxShards, 1, 0.0;
      samplesIn := new EwmaRate(alpha, interval);
      samplesOut := new EwmaRate(alpha, interval);
      samplesOutDuration := new EwmaRate(alpha, interval);
    }

    ghost function InRate(): real
      requires samplesIn.interval > 0.0
      reads this, samplesIn
    {
      RateOf(samplesIn.alpha, samplesIn.interval, samplesIn.ticked)
    }

    ghost function OutRate(): real
      requires samplesOut.interval > 0.0
      reads this, samplesOut
    {
      RateOf(samplesOut.alpha, samplesOut.interval, samplesOut.ticked)
    }

    ghost function DurationRate(): real
      requires samplesOutDuration.interval > 0.0
      reads this, samplesOutDuration
    {
      RateOf(samplesOutDuration.alpha, samplesOutDuration.interval, samplesOutDuration.ticked)
    }

    /** The rates after ticks that find these counts, once every counter has ticked before. */
    lemma ExpectRates(newIn: int, newOut: int, newDuration: int)
      requires Valid()
      requires samplesIn.alpha == samplesOut.alpha == samplesOutDuration.alpha == EWMA_WEIGHT
      requires samplesIn.interval == samplesOut.interval == samplesOutDuration.interval == UPDATE_INTERVAL
      requires samplesIn.ticked != [] && samplesOut.ticked != [] && samplesOutDuration.ticked != []
      ensures RateOf(EWMA_WEIGHT, UPDATE_INTERVAL, samplesIn.ticked + [newIn])
              == InRate() + 0.2 * (newIn as real / 10.0 - InRate())
      ensures RateOf(EWMA_WEIGHT, UPDATE_INTERVAL, samplesOut.ticked + [newOut])
              == OutRate() + 0.2 * (newOut as real / 10.0 - OutRate())
      ensures RateOf(EWMA_WEIGHT, UPDATE_INTERVAL, samplesOutDuration.ticked + [newDuration])
              == DurationRate() + 0.2 * (newDuration as real / 10.0 - DurationRate())
    {
      RateSnoc(EWMA_WEIGHT, UPDATE_INTERVAL, samplesIn.ticked, newIn);
      RateSnoc(EWMA_WEIGHT, UPDATE_INTERVAL, samplesOut.ticked, newOut);
      RateSnoc(EWMA_WEIGHT, UPDATE_INTERVAL, samplesOutDuration.ticked, newDuration);
    }

    /** The decision for given rates, and the hand-over of its count. */
    method Propose(inRate: real, outRate: real, duration: real, ready: bool) returns (sent: Option<int>)
      modifies this`integralAccumulator, this`numShards
      ensures integralAccumulator == old(integralAccumulator) + (inRate - outRate) * 0.1
      ensures numShards == if sent.Some? then sent.value else old(numShards)
      ensures sent == if ready then Proposal(inRate, outRate, duration, integralAccumulator, old(numShards), maxShards)
                      else None
    {
      sent := None;
      var pending := inRate - outRate;
      integralAccumulator := integralAccumulator + pending * 0.1;
      if outRate <= 0.0 {
        return;
      }
      var timePerSample := duration / outRate;
      var desired := timePerSample * (inRate + pending + integralAccumulator) / 1000000000.0;
      assert desired == Desired(inRate, outRate, duration, integralAccumulator);
      var lowerBound := numShards as real * (1.0 - TOLERANCE);
      var upperBound := numShards as real * (1.0 + TOLERANCE);
      if lowerBound <= desired && desired <= upperBound {
        return;
      }
      var count := Ceil(desired);
      if count > maxShards {
        count := maxShards;
      }
      if count == numShards {
        return;
      }
      if ready {
        sent := Some(count);
        numShards := count;
      }
    }

    /** The three counters tick one after the other. */
    method TickAll(first: Window, second: Window, third: Window)
      requires Valid()
      modifies samplesIn, samplesOut, samplesOutDuration
      ensures Valid()
      ensures samplesIn.ticked == old(samplesIn.ticked) + [old(samplesIn.newEvents)]
      ensures samplesOut.ticked == old(samplesOut.ticked) + [old(samplesOut.newEvents) + Sum(first.outs)]
      ensures samplesOutDuration.ticked == old(samplesOutDuration.ticked)
                + [old(samplesOutDuration.newEvents) + Sum(first.durations) + Sum(second.durations)]
      ensures samplesIn.newEvents == Sum(first.ins) + Sum(second.ins) + Sum(third.ins)
      ensures samplesOut.newEvents == Sum(second.outs) + Sum(third.outs)
      ensures samplesOutDuration.newEvents == Sum(third.durations)
    {
      hide RateOf;
      samplesIn.Tick(first.ins);
      samplesOut.IncrAll(first.outs);
      samplesOutDuration.IncrAll(first.durations);
      samplesOut.Tick(second.outs);
      samplesIn.IncrAll(second.ins);
      samplesOutDuration.IncrAll(second.durations);
      samplesOutDuration.Tick(third.durations);
      samplesIn.IncrAll(third.ins);
      samplesOut.IncrAll(third.outs);
    }

    /** One pass of the update loop. `ready` says the resharding loop is waiting to receive; the
        windows are what is counted while the first, the second and the third counter tick.
        Every event counted before a counter's own tick enters its average once, and later ones
        stay counted; a count is sent only to a waiting loop, and it is the one Proposal names;
        then and only then the controller's own count changes. */
    method CalculateDesiredShards(ready: bool, first: Window, second: Window, third: Window)
      returns (sent: Option<int>)
      requires Valid()
      modifies this, samplesIn, samplesOut, samplesOutDuration
      ensures Valid()
      ensures samplesIn.ticked == old(samplesIn.ticked) + [old(samplesIn.newEvents)]
      ensures samplesOut.ticked == old(samplesOut.ticked) + [old(samplesOut.newEvents) + Sum(first.outs)]
      ensures samplesOutDuration.ticked == old(samplesOutDuration.ticked)
                + [old(samplesOutDuration.newEvents) + Sum(first.durations) + Sum(second.durations)]
      ensures samplesIn.newEvents == Sum(first.ins) + Sum(second.ins) + Sum(third.ins)
      ensures samplesOut.newEvents == Sum(second.outs) + Sum(third.outs)
      ensures samplesOutDuration.newEvents == Sum(third.durations)
      ensures integralAccumulator == old(integralAccumulator) + (InRate() - OutRate()) * 0.1
      ensures numShards == if sent.Some? then sent.value else old(numShards)
      ensures sent == if ready then Proposal(InRate(), OutRate(), DurationRate(), integralAccumulator,
                                             old(numShards), maxShards)
                      else None
    {
      hide RateOf, Proposal, Sum;
      TickAll(first, second, third);
      var inRate := samplesIn.Rate();
      var outRate := samplesOut.Rate();
      var duration := samplesOutDuration.Rate();
      sent := Propose(inRate, outRate, duration, ready);
    }
  }

  /** A count below one is really sent: samples come in and are still being sent a minute
      later; when they have gone out, the incoming rate has decayed more than the backlog term
      makes up for. */
  method DrainAsksForNoShards() returns (sent: Option<int>)
    ensures sent == Some(0)
  {
    hide Proposal, Smoothed;
    NothingOut();
    var c := new ShardController(1000, EWMA_WEIGHT, UPDATE_INTERVAL);
    RateSnoc(EWMA_WEIGHT, UPDATE_INTERVAL, [], 0);
    sent := c.CalculateDesiredShards(true, Window([100], [], []), Quiet, Quiet);
    assert [100][..0] == [] && Sum([100]) == 100;
    ghost var rates := [2.0, 1.6, 1.28, 1.024, 0.8192];
    ghost var backlogs := [0.0, 0.2, 0.36, 0.488, 0.5904, 0.67232];
    for i := 0 to 5
      invariant c.Valid() && c.numShards == 1
      invariant fresh(c.samplesIn) && fresh(c.samplesOut) && fresh(c.samplesOutDuration)
      invariant c.samplesIn.newEvents == (if i == 0 then 100 else 0) && c.samplesOut.newEvents == 0
      invariant c.samplesOutDuration.newEvents == 0
      invariant c.samplesIn.ticked != [] && c.samplesOut.ticked != [] && c.samplesOutDuration.ticked != []
      invariant c.InRate() == (if i == 0 then 0.0 else rates[i - 1])
      invariant c.OutRate() == c.DurationRate() == 0.0
      invariant c.integralAccumulator == backlogs[i]
    {
      c.ExpectRates(c.samplesIn.newEvents, 0, 0);
      sent := c.CalculateDesiredShards(true, Quiet, Quiet, Quiet);
    }
    c.samplesOut.Incr(100);
    c.samplesOutDuration.Incr(50000000000);
    c.ExpectRates(0, 100, 50000000000);
    sent := c.CalculateDesiredShards(true, Quiet, Quiet, Quiet);
    DrainProposal();
  }

  /** A pass that falls between the two counters of a send: one sample has come in, its send ends
      while samplesIn ticks, and the time it took is only counted after the last tick. */
  method PassBetweenCountersAsksForNoShards() returns (sent: Option<int>)
    ensures sent == Some(0)
  {
    hide Proposal, Smoothed;
    var c := new ShardController(1000, EWMA_WEIGHT, UPDATE_INTERVAL);
    c.samplesIn.Incr(1);
    RateSnoc(EWMA_WEIGHT, UPDATE_INTERVAL, [], 1);
    RateSnoc(EWMA_WEIGHT, UPDATE_INTERVAL, [], 0);
    assert Sum([1]) == 1 by { assert [1][..0] == []; }
    sent := c.CalculateDesiredShards(true, Window([], [1], []), Quiet, Window([], [], [1000000000]));
    ProposalWithoutTime(0.1, 0.1, 0.0, 1000);
  }

  /** As long as nothing has gone out, nothing is proposed. */
  lemma NothingOut()
    ensures forall i: real, d: real, integral: real, n: int, max: int :: Proposal(i, 0.0, d, integral, n, max) == None
  {
  }

  lemma DrainProposal()
    ensures Proposal(0.65536, 2.0, 1000000000.0, 0.537856, 1, 1000) == Some(0)
  {
    var desired := Desired(0.65536, 2.0, 1000000000.0, 0.537856);
    assert desired == -0.075712;
    CountPositiveIff(desired, 1000);
  }
}
