/** The last part of one controller tick: from a desired number of shards to the count that
    is offered to the resharding loop, if any. Rates are reals, so rounding is exact. */
module ReshardDecision {
  import opened Model

  const EWMA_WEIGHT := 0.2
  const UPDATE_INTERVAL := 10.0    // seconds
  const TOLERANCE := 0.3

  function Ceil(r: real): int {
    -((-r).Floor)
  }

  predicate InTolerance(desired: real, n: int) {
    n as real * (1.0 - TOLERANCE) <= desired <= n as real * (1.0 + TOLERANCE)
  }

  function Capped(desired: real, maxShards: int): int {
    if Ceil(desired) > maxShards then maxShards else Ceil(desired)
  }

  function Decide(desired: real, n: int, maxShards: int): Option<int> {
    if InTolerance(desired, n) then None
    else if Capped(desired, maxShards) == n then None
    else Some(Capped(desired, maxShards))
  }

  /** The desired number of shards, for a positive outgoing rate: the time one sample takes
      times the samples expected next, including a share of the backlog. Durations are counted
      in nanoseconds. */
  function Desired(samplesIn: real, samplesOut: real, outDuration: real, integral: real): real
    requires samplesOut > 0.0
  {
    outDuration / samplesOut * (samplesIn + (samplesIn - samplesOut) + integral) / 1000000000.0
  }

  /** The count that one pass offers to the resharding loop, if any. */
  function Proposal(samplesIn: real, samplesOut: real, outDuration: real, integral: real,
                    n: int, maxShards: int): Option<int> {
    if samplesOut <= 0.0 then None
    else Decide(Desired(samplesIn, samplesOut, outDuration, integral), n, maxShards)
  }

  /** The work to be expected is positive and takes time, or is negative and takes negative time. */
  predicate PositiveDemand(samplesIn: real, samplesOut: real, outDuration: real, integral: real) {
    if outDuration >= 0.0 then outDuration > 0.0 && 2.0 * samplesIn + integral > samplesOut
    else 2.0 * samplesIn + integral < samplesOut
  }

  /** Ceil is the rounding up it is named for. */
  lemma CeilBounds(r: real)
    ensures Ceil(r) as real - 1.0 < r <= Ceil(r) as real
  {
    var f := (-r).Floor;
    assert f as real <= -r < f as real + 1.0;
    assert Ceil(r) as real == -(f as real);
  }

  /** The count is clamped from above only: it names at least one shard exactly when the
      desired number is positive. */
  lemma CountPositiveIff(desired: real, maxShards: int)
    requires maxShards >= 1
    ensures Capped(desired, maxShards) <= maxShards
    ensures Capped(desired, maxShards) >= 1 <==> desired > 0.0
    ensures Capped(desired, maxShards) < 0 <==> desired <= -1.0
  {
    CeilBounds(desired);
    var m := Ceil(desired);
    if desired > 0.0 {
      assert m as real > 0.0;
    } else {
      assert m as real < 1.0;
    }
  }

  /** Once the desired number has been acted on, asking again changes nothing, and the
      controller is at rest exactly when it is in tolerance or already at the capped count. */
  lemma DecisionSettles(desired: real, n: int, maxShards: int)
    ensures Decide(desired, n, maxShards).Some? ==>
              Decide(desired, Decide(desired, n, maxShards).value, maxShards) == None
    ensures Decide(desired, n, maxShards) == None <==>
              InTolerance(desired, n) || n == Capped(desired, maxShards)
  {
  }

  /** Growing is asked for only above the band and shrinking only below it, except at the cap. */
  lemma DecisionDirection(desired: real, n: int, maxShards: int)
    requires Decide(desired, n, maxShards).Some?
    requires 0 <= n <= maxShards
    ensures var m := Decide(desired, n, maxShards).value;
            (m > n <==> desired > n as real * (1.0 + TOLERANCE))
            && (m < n <==> desired < n as real * (1.0 - TOLERANCE))
  {
    CeilBounds(desired);
    var m := Capped(desired, maxShards);
    var up := n as real * (1.0 + TOLERANCE);
    var down := n as real * (1.0 - TOLERANCE);
    assert down <= n as real <= up;
    if desired > up {
      assert Ceil(desired) as real > n as real;
      assert m > n;
    } else {
      assert desired < down;
      assert Ceil(desired) as real - 1.0 < n as real;
      assert m <= n;
    }
  }

  lemma QuotientSign(x: real, y: real)
    requires y > 0.0
    ensures x / y > 0.0 <==> x > 0.0
    ensures x / y < 0.0 <==> x < 0.0
  {
  }

  lemma ProductSign(t: real, w: real)
    ensures t * w > 0.0 <==> (t > 0.0 && w > 0.0) || (t < 0.0 && w < 0.0)
  {
    if t > 0.0 && w <= 0.0 {
      assert t * w <= 0.0;
    } else if t < 0.0 && w >= 0.0 {
      assert t * w <= 0.0;
    }
  }

  /** The desired number of shards is positive exactly under PositiveDemand: with no sample
      coming in it is negative until the integral makes up for it. */
  lemma DesiredPositiveIff(samplesIn: real, samplesOut: real, outDuration: real, integral: real)
    requires samplesOut > 0.0
    ensures Desired(samplesIn, samplesOut, outDuration, integral) > 0.0
            <==> PositiveDemand(samplesIn, samplesOut, outDuration, integral)
  {
    var t := outDuration / samplesOut;
    var w := samplesIn + (samplesIn - samplesOut) + integral;
    QuotientSign(outDuration, samplesOut);
    ProductSign(t, w);
    QuotientSign(t * w, 1000000000.0);
  }

  /** An offered count is at least one exactly under PositiveDemand. */
  lemma OfferedSign(samplesIn: real, samplesOut: real, outDuration: real, integral: real, n: int, maxShards: int)
    requires maxShards >= 1
    ensures var count := Proposal(samplesIn, samplesOut, outDuration, integral, n, maxShards);
            count.Some? ==>
              && count.value <= maxShards
              && (count.value >= 1 <==> PositiveDemand(samplesIn, samplesOut, outDuration, integral))
  {
    if samplesOut > 0.0 {
      DesiredPositiveIff(samplesIn, samplesOut, outDuration, integral);
      CountPositiveIff(Desired(samplesIn, samplesOut, outDuration, integral), maxShards);
    }
  }

  /** A count below one is offered exactly when samples have gone out, the demand is not
      positive, and, when there is no shard any more, the count is not again zero. */
  lemma BelowOneIff(samplesIn: real, samplesOut: real, outDuration: real, integral: real, n: nat, maxShards: int)
    requires maxShards >= 1
    ensures var count := Proposal(samplesIn, samplesOut, outDuration, integral, n, maxShards);
            (count.Some? && count.value < 1)
            <==> samplesOut > 0.0 && !PositiveDemand(samplesIn, samplesOut, outDuration, integral)
                 && (n >= 1 || Desired(samplesIn, samplesOut, outDuration, integral) <= -1.0)
  {
    if samplesOut > 0.0 {
      var desired := Desired(samplesIn, samplesOut, outDuration, integral);
      DesiredPositiveIff(samplesIn, samplesOut, outDuration, integral);
      CountPositiveIff(desired, maxShards);
      if n >= 1 && desired <= 0.0 {
        assert !InTolerance(desired, n);
      }
    }
  }

  lemma NothingDesired(samplesIn: real, samplesOut: real, integral: real)
    requires samplesOut > 0.0
    ensures Desired(samplesIn, samplesOut, 0.0, integral) == 0.0
  {
    var w := samplesIn + (samplesIn - samplesOut) + integral;
    assert 0.0 / samplesOut == 0.0;
    assert 0.0 * w == 0.0;
  }

  /** Samples that went out in no time have the only shard taken away. */
  lemma ProposalWithoutTime(samplesIn: real, samplesOut: real, integral: real, maxShards: int)
    requires samplesOut > 0.0 && maxShards >= 1
    ensures Proposal(samplesIn, samplesOut, 0.0, integral, 1, maxShards) == Some(0)
  {
    NothingDesired(samplesIn, samplesOut, integral);
    hide Desired, Capped;
    CountPositiveIff(0.0, maxShards);
  }

  // ----- the numbers -----

  /** The desired number in whole terms: times a second of nanoseconds and the outgoing rate, it is
      the outgoing duration times the work to be expected. */
  lemma DesiredMeans(samplesIn: real, samplesOut: real, outDuration: real, integral: real)
    requires samplesOut > 0.0
    ensures Desired(samplesIn, samplesOut, outDuration, integral) * 1000000000.0 * samplesOut
            == outDuration * (2.0 * samplesIn - samplesOut + integral)
  {
    var t := outDuration / samplesOut;
    var w := samplesIn + (samplesIn - samplesOut) + integral;
    var d := t * w / 1000000000.0;
    assert d * 1000000000.0 == t * w;
    assert t * samplesOut == outDuration;
    assert (t * w) * samplesOut == (t * samplesOut) * w;
  }

  /** The count for a desired number: the least integer that is not below it, or the cap if that
      is less. */
  predicate IsCount(m: int, desired: real, maxShards: int) {
    && m <= maxShards
    && m as real - 1.0 < desired
    && (m < maxShards ==> desired <= m as real)
  }

  lemma CappedMeans(desired: real, maxShards: int, m: int)
    ensures m == Capped(desired, maxShards) <==> IsCount(m, desired, maxShards)
  {
    CeilBounds(desired);
    if IsCount(m, desired, maxShards) {
      assert m as real < desired + 1.0;
      if m < maxShards {
        assert (m - Ceil(desired)) as real < 1.0 && (Ceil(desired) - m) as real < 1.0;
      }
    }
  }

  /** The whole decision in numbers: a change is made to the count for the desired number, unless
      that is the present one or the desired number is within 30 percent of it. */
  lemma DecideMeans(desired: real, n: int, maxShards: int, m: int)
    ensures Decide(desired, n, maxShards) == Some(m)
            <==> && !(0.7 * n as real <= desired <= 1.3 * n as real)
                 && m != n && IsCount(m, desired, maxShards)
  {
    CeilBounds(desired);
    CappedMeans(desired, maxShards, m);
  }

  /** Nothing is offered before samples have gone out; after that the offer is the decision. */
  lemma ProposalMeans(samplesIn: real, samplesOut: real, outDuration: real, integral: real,
                      n: int, maxShards: int, m: int, desired: real)
    requires samplesOut > 0.0 ==>
               desired * 1000000000.0 * samplesOut == outDuration * (2.0 * samplesIn - samplesOut + integral)
    ensures Proposal(samplesIn, samplesOut, outDuration, integral, n, maxShards) == Some(m)
            <==> && samplesOut > 0.0
                 && !(0.7 * n as real <= desired <= 1.3 * n as real)
                 && m != n && IsCount(m, desired, maxShards)
  {
    if samplesOut > 0.0 {
      var d := Desired(samplesIn, samplesOut, outDuration, integral);
      DesiredMeans(samplesIn, samplesOut, outDuration, integral);
      SameQuotient(d, desired, samplesOut);
      DecideMeans(desired, n, maxShards, m);
    }
  }

  lemma SameQuotient(x: real, y: real, k: real)
    requires k > 0.0 && x * 1000000000.0 * k == y * 1000000000.0 * k
    ensures x == y
  {
    assert (x - y) * (1000000000.0 * k) == 0.0;
    ProductSign(x - y, 1000000000.0 * k);
    ProductSign(y - x, 1000000000.0 * k);
  }
}
