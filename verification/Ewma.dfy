/** The moving average of a rate: the counter that producers increment while the ticker reads
    it, and the average the ticker keeps. Rates are reals and counters unbounded. */
module Ewma {
  import opened Model

  // ----- the counter under interleaving -----

  /** tick reads the counter, then subtracts what it read; `loaded` is the value in between. */
  datatype Counter = Counter(newEvents: int, loaded: int, subtracting: bool, ticked: seq<int>)

  datatype CounterAction = Incr(n: int) | Load | Subtract

  predicate CounterEnabled(c: Counter, a: CounterAction) {
    match a
    case Incr(_) => true
    case Load => !c.subtracting
    case Subtract => c.subtracting
  }

  function CounterApply(c: Counter, a: CounterAction): Counter
    requires CounterEnabled(c, a)
  {
    match a
    case Incr(n) => c.(newEvents := c.newEvents + n)
    case Load => c.(loaded := c.newEvents, subtracting := true)
    case Subtract => c.(newEvents := c.newEvents - c.loaded, subtracting := false, ticked := c.ticked + [c.loaded])
  }

  predicate CounterRun(c: Counter, acts: seq<CounterAction>, d: Counter)
    decreases |acts|
  {
    if acts == [] then c == d
    else CounterEnabled(c, acts[0]) && CounterRun(CounterApply(c, acts[0]), acts[1..], d)
  }

  function Incremented(acts: seq<CounterAction>): int {
    if acts == [] then 0
    else (if acts[0].Incr? then acts[0].n else 0) + Incremented(acts[1..])
  }

  lemma {:induction false} CounterRunConserves(c: Counter, acts: seq<CounterAction>, d: Counter)
    requires CounterRun(c, acts, d)
    ensures d.newEvents + Sum(d.ticked) == c.newEvents + Sum(c.ticked) + Incremented(acts)
    decreases |acts|
  {
    if acts != [] {
      var next := CounterApply(c, acts[0]);
      CounterRunConserves(next, acts[1..], d);
      if acts[0].Subtract? {
        SumSnoc(c.ticked, c.loaded);
      }
    }
  }

  /** However increments fall between a tick's load and its subtraction, every event is either
      still in the counter or in exactly one tick. */
  lemma NoEventLostOrRepeated(acts: seq<CounterAction>, d: Counter)
    requires CounterRun(Counter(0, 0, false, []), acts, d)
    ensures d.newEvents + Sum(d.ticked) == Incremented(acts)
  {
    CounterRunConserves(Counter(0, 0, false, []), acts, d);
  }

  /** Increments may fall anywhere, also between the load and the subtraction. */
  lemma IncrementBetween(a: int, b: int)
    ensures CounterRun(Counter(0, 0, false, []), [Incr(a), Load, Incr(b), Subtract], Counter(b, a, false, [a]))
  {
    var acts := [Incr(a), Load, Incr(b), Subtract];
    assert acts[1..] == [Load, Incr(b), Subtract];
    assert acts[1..][1..] == [Incr(b), Subtract];
    assert acts[1..][1..][1..] == [Subtract];
    assert acts[1..][1..][1..][1..] == [];
    var one := Counter(a, 0, false, []);
    var three := Counter(a + b, a, true, []);
    assert [] + [a] == [a];
    assert CounterRun(three, [Subtract], Counter(b, a, false, [a]));
    assert CounterRun(one, acts[1..], Counter(b, a, false, [a]));
  }

  // ----- the average -----

  /** Folding a smoothing step over instant rates; the first rate is taken as it is. */
  function Smoothed(step: (real, real) -> real, rates: seq<real>): real {
    if rates == [] then 0.0
    else if |rates| == 1 then rates[0]
    else step(Smoothed(step, rates[..|rates| - 1]), rates[|rates| - 1])
  }

  function Step(alpha: real): (real, real) -> real {
    (last: real, instant: real) => last + alpha * (instant - last)
  }

  /** The rate after a series of instant rates. */
  function Average(alpha: real, rates: seq<real>): real {
    Smoothed(Step(alpha), rates)
  }

  function Power(x: real, k: nat): real {
    if k == 0 then 1.0 else x * Power(x, k - 1)
  }

  /** The weight of the i-th of n instant rates. */
  function Weight(alpha: real, i: nat, n: nat): real
    requires i < n
  {
    if i == 0 then Power(1.0 - alpha, n - 1) else alpha * Power(1.0 - alpha, n - 1 - i)
  }

  function Weights(alpha: real, n: nat): (w: seq<real>)
    ensures |w| == n
    ensures forall i :: 0 <= i < n ==> w[i] == Weight(alpha, i, n)
  {
    seq(n, i requires 0 <= i < n => Weight(alpha, i, n))
  }

  /** The weighted sum of the first k rates. */
  function Weighted(weights: seq<real>, rates: seq<real>, k: nat): real
    requires k <= |rates| && k <= |weights|
  {
    if k == 0 then 0.0 else Weighted(weights, rates, k - 1) + weights[k - 1] * rates[k - 1]
  }

  lemma ScaledTerm(s: real, x: real, w: real, r: real)
    ensures s * x + (s * w) * r == s * (x + w * r)
  {
    assert (s * w) * r == s * (w * r);
  }

  lemma {:induction false} WeightedScales(s: real, weights: seq<real>, scaled: seq<real>, rates: seq<real>,
                                          more: seq<real>, k: nat)
    requires k <= |rates| == |weights| && rates <= more && |weights| <= |scaled|
    requires forall i :: 0 <= i < k ==> scaled[i] == s * weights[i]
    ensures Weighted(scaled, more, k) == s * Weighted(weights, rates, k)
  {
    if k > 0 {
      WeightedScales(s, weights, scaled, rates, more, k - 1);
      ScaledTerm(s, Weighted(weights, rates, k - 1), weights[k - 1], rates[k - 1]);
    }
  }

  /** One more rate scales every earlier weight by 1 - alpha. */
  lemma WeightScales(alpha: real, s: real, i: nat, n: nat)
    requires i < n && s == 1.0 - alpha
    ensures Weight(alpha, i, n + 1) == s * Weight(alpha, i, n)
  {
    var p := Power(s, n - 1 - i);
    assert Power(s, n - i) == s * p;
    assert alpha * (s * p) == s * (alpha * p);
  }

  lemma LastWeight(alpha: real, n: nat)
    requires n > 1
    ensures Weights(alpha, n)[n - 1] == alpha
  {
    assert Power(1.0 - alpha, 0) == 1.0;
  }

  ghost predicate Mixes(step: (real, real) -> real, s: real, alpha: real) {
    forall x: real, y: real :: step(x, y) == s * x + alpha * y
  }

  lemma StepMixes(alpha: real)
    ensures Mixes(Step(alpha), 1.0 - alpha, alpha)
  {
  }

  lemma WeightedLast(ws: seq<real>, rates: seq<real>, alpha: real)
    requires |rates| == |ws| > 0 && ws[|ws| - 1] == alpha
    ensures Weighted(ws, rates, |rates|) == Weighted(ws, rates, |rates| - 1) + alpha * rates[|rates| - 1]
  {
  }

  lemma WeightsScale(alpha: real, s: real, n: nat)
    requires n > 1 && s == 1.0 - alpha
    ensures forall i :: 0 <= i < n - 1 ==> Weights(alpha, n)[i] == s * Weights(alpha, n - 1)[i]
  {
    forall i | 0 <= i < n - 1 ensures Weights(alpha, n)[i] == s * Weights(alpha, n - 1)[i] {
      WeightScales(alpha, s, i, n - 1);
    }
  }

  lemma FirstWeight(alpha: real, rates: seq<real>)
    requires |rates| == 1
    ensures Weighted(Weights(alpha, 1), rates, 1) == rates[0]
  {
    assert Weight(alpha, 0, 1) == 1.0;
    assert Weighted(Weights(alpha, 1), rates, 0) == 0.0;
  }

  lemma {:induction false} SmoothedClosedForm(step: (real, real) -> real, alpha: real, s: real, rates: seq<real>)
    requires rates != [] && s == 1.0 - alpha && Mixes(step, s, alpha)
    ensures Smoothed(step, rates) == Weighted(Weights(alpha, |rates|), rates, |rates|)
  {
    var n := |rates|;
    if n == 1 {
      FirstWeight(alpha, rates);
    } else {
      var before := rates[..n - 1];
      SmoothedClosedForm(step, alpha, s, before);
      WeightsScale(alpha, s, n);
      LastWeight(alpha, n);
      WeightedScales(s, Weights(alpha, n - 1), Weights(alpha, n), before, rates, n - 1);
      WeightedLast(Weights(alpha, n), rates, alpha);
    }
  }

  /** The average is the weighted sum with geometrically decreasing weights. */
  lemma AverageClosedForm(alpha: real, rates: seq<real>)
    requires rates != []
    ensures Average(alpha, rates) == Weighted(Weights(alpha, |rates|), rates, |rates|)
  {
    StepMixes(alpha);
    SmoothedClosedForm(Step(alpha), alpha, 1.0 - alpha, rates);
  }

  predicate Within(x: real, lo: real, hi: real) {
    lo <= x <= hi
  }

  ghost predicate Contracts(step: (real, real) -> real) {
    forall x: real, y: real, lo: real, hi: real ::
      Within(x, lo, hi) && Within(y, lo, hi) ==> Within(step(x, y), lo, hi)
  }

  lemma Fraction(alpha: real, d: real)
    requires 0.0 <= alpha <= 1.0 && d >= 0.0
    ensures 0.0 <= alpha * d <= d
  {
    var rest := (1.0 - alpha) * d;
    assert rest >= 0.0 && rest == d - alpha * d;
  }

  lemma NegativeFraction(alpha: real, d: real)
    requires 0.0 <= alpha <= 1.0 && d <= 0.0
    ensures d <= alpha * d <= 0.0
  {
    var e := -d;
    Fraction(alpha, e);
    assert alpha * e + alpha * d == alpha * (e + d);
  }

  lemma StepWithin(alpha: real, x: real, d: real, lo: real, hi: real)
    requires 0.0 <= alpha <= 1.0 && Within(x, lo, hi) && Within(x + d, lo, hi)
    ensures Within(x + alpha * d, lo, hi)
  {
    if d >= 0.0 {
      Fraction(alpha, d);
    } else {
      NegativeFraction(alpha, d);
    }
  }

  lemma StepContracts(alpha: real)
    requires 0.0 <= alpha <= 1.0
    ensures Contracts(Step(alpha))
  {
    forall x: real, y: real, lo: real, hi: real | Within(x, lo, hi) && Within(y, lo, hi)
      ensures Within(Step(alpha)(x, y), lo, hi)
    {
      StepWithin(alpha, x, y - x, lo, hi);
    }
  }

  lemma {:induction false} SmoothedStaysInRange(step: (real, real) -> real, rates: seq<real>, lo: real, hi: real)
    requires Contracts(step) && rates != []
    requires forall i :: 0 <= i < |rates| ==> Within(rates[i], lo, hi)
    ensures Within(Smoothed(step, rates), lo, hi)
  {
    if |rates| > 1 {
      SmoothedStaysInRange(step, rates[..|rates| - 1], lo, hi);
    }
  }

  /** The average never leaves the range of the instant rates seen. */
  lemma AverageStaysInRange(alpha: real, rates: seq<real>, lo: real, hi: real)
    requires 0.0 <= alpha <= 1.0 && rates != []
    requires forall i :: 0 <= i < |rates| ==> Within(rates[i], lo, hi)
    ensures Within(Average(alpha, rates), lo, hi)
  {
    StepContracts(alpha);
    SmoothedStaysInRange(Step(alpha), rates, lo, hi);
  }

  // ----- event counts and their rate -----

  /** Event counts of successive ticks as events per second. */
  function PerSecond(interval: real, ticked: seq<int>): (r: seq<real>)
    requires interval > 0.0
    ensures |r| == |ticked|
  {
    seq(|ticked|, i requires 0 <= i < |ticked| => ticked[i] as real / interval)
  }

  function RateOf(alpha: real, interval: real, ticked: seq<int>): real
    requires interval > 0.0
  {
    Average(alpha, PerSecond(interval, ticked))
  }

  /** What one more tick does to the rate. */
  lemma RateSnoc(alpha: real, interval: real, ticked: seq<int>, n: int)
    requires interval > 0.0
    ensures RateOf(alpha, interval, ticked + [n])
            == if ticked == [] then n as real / interval
               else var last := RateOf(alpha, interval, ticked); last + alpha * (n as real / interval - last)
  {
    var rates := PerSecond(interval, ticked);
    assert PerSecond(interval, ticked + [n]) == rates + [n as real / interval];
    assert (rates + [n as real / interval])[..|rates|] == rates;
  }

  lemma QuotientNonNegative(x: real, y: real)
    requires x >= 0.0 && y > 0.0
    ensures x / y >= 0.0
  {
  }

  /** Counts that are never negative give a rate that is never negative. */
  lemma {:induction false} RateNonNegative(alpha: real, interval: real, ticked: seq<int>)
    requires 0.0 <= alpha <= 1.0 && interval > 0.0
    requires forall i :: 0 <= i < |ticked| ==> ticked[i] >= 0
    ensures RateOf(alpha, interval, ticked) >= 0.0
  {
    if ticked != [] {
      var before, n := ticked[..|ticked| - 1], ticked[|ticked| - 1];
      assert ticked == before + [n];
      RateNonNegative(alpha, interval, before);
      RateSnoc(alpha, interval, before, n);
      var last, instant := RateOf(alpha, interval, before), n as real / interval;
      QuotientNonNegative(n as real, interval);
      if before != [] {
        assert last + alpha * (instant - last) == (1.0 - alpha) * last + alpha * instant;
        assert (1.0 - alpha) * last >= 0.0 && alpha * instant >= 0.0;
      }
    }
  }

  /** A counter between two ticks and the counts that earlier ticks took from it. */
  datatype Meter = Meter(newEvents: nat, ticked: seq<nat>)

  const EmptyMeter := Meter(0, [])

  function Counted(m: Meter, n: nat): Meter {
    m.(newEvents := m.newEvents + n)
  }

  function Ticked(m: Meter): Meter {
    Meter(0, m.ticked + [m.newEvents])
  }

  function Total(m: Meter): int {
    m.newEvents + Sum(m.ticked)
  }

  lemma TickedKeepsTotal(m: Meter)
    ensures Total(Ticked(m)) == Total(m)
  {
    SumSnoc(m.ticked, m.newEvents);
  }

  // ----- ewmaRate -----

  class EwmaRate {
    const alpha: real
    const interval: real      // seconds
    var newEvents: int
    var lastRate: real
    var init: bool
    ghost var ticked: seq<int>  // the event counts of all ticks so far

    ghost predicate Valid()
      reads this
    {
      interval > 0.0 && (init <==> ticked != []) && lastRate == RateOf(alpha, interval, ticked)
    }

    constructor (alpha: real, interval: real)
      requires interval > 0.0
      ensures Valid() && this.alpha == alpha && this.interval == interval
      ensures newEvents == 0 && ticked == []
    {
      this.alpha, this.interval := alpha, interval;
      newEvents, lastRate, init, ticked := 0, 0.0, false, [];
    }

    method Rate() returns (r: real)
      requires Valid()
      ensures r == RateOf(alpha, interval, ticked)
    {
      r := lastRate;
    }

    method Incr(n: int)
      modifies this`newEvents
      ensures newEvents == old(newEvents) + n
    {
      newEvents := newEvents + n;
    }

    /** The increments of other goroutines while this one is elsewhere. */
    method IncrAll(ns: seq<int>)
      modifies this`newEvents
      ensures newEvents == old(newEvents) + Sum(ns)
    {
      for i := 0 to |ns|
        invariant newEvents == old(newEvents) + Sum(ns[..i])
      {
        SumSnoc(ns[..i], ns[i]);
        assert ns[..i + 1] == ns[..i] + [ns[i]];
        Incr(ns[i]);
      }
      assert ns[..|ns|] == ns;
    }

    /** One tick; `between` are the increments other goroutines make after the load. They stay
        in the counter, and all that was there before becomes one instant rate. */
    method Tick(between: seq<int>)
      requires Valid()
      modifies this
      ensures Valid()
      ensures newEvents == Sum(between)
      ensures ticked == old(ticked) + [old(newEvents)]
    {
      var loaded := newEvents;
      IncrAll(between);
      newEvents := newEvents - loaded;
      var instantRate := loaded as real / interval;
      RateSnoc(alpha, interval, ticked, loaded);
      ticked := ticked + [loaded];
      if init {
        lastRate := lastRate + alpha * (instantRate - lastRate);
      } else {
        init := true;
        lastRate := instantRate;
      }
    }
  }
}
