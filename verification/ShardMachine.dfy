/** One shard: a bounded channel and the goroutine that drains it in batches. */
module ShardMachine {
  import opened Model

  /** What a call to the storage client's Store can return. */
  datatype Outcome = StoreOk | StoreRecoverable | StoreFatal

  /** Where the shard's goroutine is. In Sending, the first `batch` pending samples are in
      flight and `retries` calls to Store are left; in Booking, the samples of a batch that is
      over have been counted and the time it took has not. `last` says the channel was seen
      closed. */
  datatype Phase =
    | NotStarted
    | Selecting
    | Sending(batch: nat, retries: int, last: bool)
    | Booking(last: bool)
    | Exited

  datatype Shard = Shard(queue: seq<Sample>, closed: bool, pending: seq<Sample>, phase: Phase) {
    /** Every sample the shard still owes, oldest first. */
    function Held(): seq<Sample> {
      pending + queue
    }
  }

  /** A sample whose send is over, and whether it succeeded. */
  datatype Sent = Sent(sample: Sample, ok: bool)

  datatype ShardAction =
    | Receive
    | SeeClosed
    | DeadlineFlush
    | StoreReturns(outcome: Outcome)
    | GiveUp
    | Book(took: nat)

  datatype ShardStep = ShardStep(next: Shard, sent: seq<Sent>)

  const EmptyShard := Shard([], false, [], NotStarted)

  function Samples(sent: seq<Sent>): (r: seq<Sample>)
    ensures |r| == |sent|
  {
    seq(|sent|, i requires 0 <= i < |sent| => sent[i].sample)
  }

  function WithOutcome(sent: seq<Sent>, ok: bool): seq<Sample> {
    if sent == [] then []
    else (if sent[0].ok == ok then [sent[0].sample] else []) + WithOutcome(sent[1..], ok)
  }

  function MarkAll(batch: seq<Sample>, ok: bool): (r: seq<Sent>)
    ensures |r| == |batch|
    ensures Samples(r) == batch
    ensures forall i :: 0 <= i < |r| ==> r[i].ok == ok
  {
    seq(|batch|, i requires 0 <= i < |batch| => Sent(batch[i], ok))
  }

  predicate ShardEnabled(sh: Shard, a: ShardAction) {
    match a
    case Receive => sh.phase.Selecting? && sh.queue != []
    case SeeClosed => sh.phase.Selecting? && sh.queue == [] && sh.closed
    case DeadlineFlush => sh.phase.Selecting? && sh.pending != []
    case StoreReturns(_) => sh.phase.Sending? && sh.phase.batch <= |sh.pending| && sh.phase.retries > 0
    case GiveUp => sh.phase.Sending? && sh.phase.batch <= |sh.pending| && sh.phase.retries <= 0
    case Book(_) => sh.phase.Booking?
  }

  /** Whether the goroutine may be waiting at its select to be handed a sample: only then can
      an unbuffered channel take one. */
  predicate CanMeet(c: Config, sh: Shard) {
    c.queueCapacity == 0 && sh.phase.Selecting?
  }

  /** The loop test `len(pendingSamples) >= MaxSamplesPerSend`. */
  function SendIfFull(c: Config, pending: seq<Sample>): Phase
    requires ValidConfig(c)
  {
    if |pending| >= c.maxSamplesPerSend then Sending(c.maxSamplesPerSend, c.maxRetries, false)
    else Selecting
  }

  /** A send on the open channel that does not wait: the sample is queued, or handed over to a
      waiting goroutine of an unbuffered channel; None when there is no room. */
  function Offer(c: Config, sh: Shard, x: Sample, meets: bool): Option<Shard>
    requires ValidConfig(c)
  {
    if meets then
      var pending := sh.pending + [x];
      Some(sh.(pending := pending, phase := SendIfFull(c, pending)))
    else if |sh.queue| < c.queueCapacity then Some(sh.(queue := sh.queue + [x]))
    else None
  }

  function FinishBatch(sh: Shard, ok: bool): ShardStep
    requires sh.phase.Sending? && sh.phase.batch <= |sh.pending|
  {
    var rest := sh.pending[sh.phase.batch..];
    ShardStep(sh.(pending := rest, phase := Booking(sh.phase.last)), MarkAll(sh.pending[..sh.phase.batch], ok))
  }

  function ShardApply(c: Config, sh: Shard, a: ShardAction): ShardStep
    requires ValidConfig(c) && ShardEnabled(sh, a)
  {
    match a
    case Receive =>
      var pending := sh.pending + [sh.queue[0]];
      ShardStep(sh.(queue := sh.queue[1..], pending := pending, phase := SendIfFull(c, pending)), [])
    case SeeClosed =>
      ShardStep(sh.(phase := if sh.pending == [] then Exited
                             else Sending(|sh.pending|, c.maxRetries, true)), [])
    case DeadlineFlush =>
      ShardStep(sh.(phase := Sending(|sh.pending|, c.maxRetries, false)), [])
    case StoreReturns(StoreOk) => FinishBatch(sh, true)
    case StoreReturns(StoreFatal) => FinishBatch(sh, false)
    case StoreReturns(StoreRecoverable) =>
      ShardStep(sh.(phase := sh.phase.(retries := sh.phase.retries - 1)), [])
    case GiveUp => FinishBatch(sh, false)
    case Book(_) =>
      ShardStep(sh.(phase := if sh.phase.last then Exited else SendIfFull(c, sh.pending)), [])
  }

  function Budget(c: Config): nat {
    if c.maxRetries > 0 then c.maxRetries else 0
  }

  /** What is true of a shard between any two of its steps. */
  predicate ShardInv(c: Config, sh: Shard) {
    && |sh.queue| <= c.queueCapacity
    && match sh.phase
       case NotStarted => sh.pending == []
       case Selecting => |sh.pending| < c.maxSamplesPerSend
       case Sending(batch, retries, last) =>
         && 1 <= batch == |sh.pending| <= c.maxSamplesPerSend
         && retries <= Budget(c)
         && (last ==> sh.closed && sh.queue == [])
       case Booking(last) => sh.pending == [] && (last ==> sh.closed && sh.queue == [])
       case Exited => sh.closed && sh.queue == [] && sh.pending == []
  }

  lemma {:induction false} OutcomeOfAll(sent: seq<Sent>, ok: bool)
    requires forall i :: 0 <= i < |sent| ==> sent[i].ok == ok
    ensures WithOutcome(sent, ok) == Samples(sent) && WithOutcome(sent, !ok) == []
  {
    if sent != [] {
      OutcomeOfAll(sent[1..], ok);
      assert Samples(sent) == [sent[0].sample] + Samples(sent[1..]);
    }
  }

  lemma {:induction false} OutcomeConcat(a: seq<Sent>, b: seq<Sent>, ok: bool)
    ensures WithOutcome(a + b, ok) == WithOutcome(a, ok) + WithOutcome(b, ok)
  {
    if a == [] {
      assert a + b == b;
    } else {
      OutcomeConcat(a[1..], b, ok);
      assert (a + b)[0] == a[0] && (a + b)[1..] == a[1..] + b;
      Regroup(if a[0].ok == ok then [a[0].sample] else [], WithOutcome(a[1..], ok), WithOutcome(b, ok));
    }
  }

  /** How a send ends: its whole batch has succeeded after an ok answer, has failed after a fatal
      one or when no retry is left, and is not over after a recoverable error. */
  lemma SendOutcome(c: Config, sh: Shard, a: ShardAction)
    requires ValidConfig(c) && ShardEnabled(sh, a) && sh.phase.Sending?
    ensures var batch, sent := sh.pending[..sh.phase.batch], ShardApply(c, sh, a).sent;
            && (WithOutcome(sent, true) == if a == StoreReturns(StoreOk) then batch else [])
            && (WithOutcome(sent, false) == if a == StoreReturns(StoreFatal) || a == GiveUp then batch else [])
            && (a == GiveUp ==> sh.phase.retries <= 0)
  {
    OutcomeOfAll(ShardApply(c, sh, a).sent, a == StoreReturns(StoreOk));
  }

  /** A send begins with all that is pending, of which there is some, and with MaxRetries calls to
      make; each recoverable answer uses up one. */
  lemma SendBegins(c: Config, sh: Shard, a: ShardAction)
    requires ValidConfig(c) && ShardInv(c, sh) && ShardEnabled(sh, a) && ShardApply(c, sh, a).next.phase.Sending?
    ensures var next := ShardApply(c, sh, a).next;
            && 1 <= |next.pending| == next.phase.batch <= c.maxSamplesPerSend
            && if sh.phase.Sending? then
                 a == StoreReturns(StoreRecoverable) && next.phase.retries == sh.phase.retries - 1
               else next.phase.retries == c.maxRetries
  {
  }

  lemma FinishKeepsOrder(sh: Shard, ok: bool)
    requires sh.phase.Sending? && sh.phase.batch <= |sh.pending|
    ensures var step := FinishBatch(sh, ok);
            Samples(step.sent) + step.next.Held() == sh.Held()
  {
    var n := sh.phase.batch;
    var step := FinishBatch(sh, ok);
    assert Samples(step.sent) == sh.pending[..n];
    assert step.next.Held() == sh.pending[n..] + sh.queue;
    assert sh.pending == sh.pending[..n] + sh.pending[n..];
  }

  /** A shard step loses nothing, adds nothing and keeps the order: what it has sent,
      followed by what it still holds, is what it held before. */
  lemma {:induction false} StepKeepsOrder(c: Config, sh: Shard, a: ShardAction)
    requires ValidConfig(c) && ShardEnabled(sh, a)
    ensures var step := ShardApply(c, sh, a);
            Samples(step.sent) + step.next.Held() == sh.Held()
  {
    var step := ShardApply(c, sh, a);
    match a
    case Receive =>
      assert sh.queue == [sh.queue[0]] + sh.queue[1..];
      assert step.next.Held() == sh.pending + [sh.queue[0]] + sh.queue[1..];
    case StoreReturns(StoreOk) => FinishKeepsOrder(sh, true);
    case StoreReturns(StoreFatal) => FinishKeepsOrder(sh, false);
    case GiveUp => FinishKeepsOrder(sh, false);
    case _ =>
      assert step.next.Held() == sh.Held();
  }

  lemma StepKeepsShardInv(c: Config, sh: Shard, a: ShardAction)
    requires ValidConfig(c) && ShardInv(c, sh) && ShardEnabled(sh, a)
    ensures ShardInv(c, ShardApply(c, sh, a).next)
  {
  }

  /** An accepted sample becomes the newest the shard holds. */
  lemma OfferKeepsShardInv(c: Config, sh: Shard, x: Sample, meets: bool)
    requires ValidConfig(c) && ShardInv(c, sh) && (meets ==> CanMeet(c, sh))
    requires Offer(c, sh, x, meets).Some? && !sh.closed
    ensures var next := Offer(c, sh, x, meets).value;
            && ShardInv(c, next) && !next.closed
            && next.Held() == sh.Held() + [x]
            && (next.phase.NotStarted? <==> sh.phase.NotStarted?)
  {
    if meets {
      assert sh.queue == [];
    }
  }

  /** Upper bound on the steps a shard can still take without new samples; an unclosed
      channel counts one for its closing. */
  function Potential(c: Config, sh: Shard): nat {
    var k := Budget(c) + 3;
    |sh.queue| * (k + 1)
    + (if sh.closed then 0 else 1)
    + match sh.phase
      case NotStarted => 2 + |sh.pending| * k
      case Selecting => 1 + |sh.pending| * k
      case Sending(batch, retries, _) =>
        (if batch <= |sh.pending| then |sh.pending| - batch else 0) * k + (if retries > 0 then retries else 0) + 3
      case Booking(_) => 2 + |sh.pending| * k
      case Exited => 0
  }

  lemma TimesBound(n: nat, k: nat)
    requires n >= 1
    ensures n * k >= k
  {
  }

  /** Draining ends: every shard step lowers the bound. */
  lemma {:induction false} StepLowersPotential(c: Config, sh: Shard, a: ShardAction)
    requires ValidConfig(c) && ShardInv(c, sh) && ShardEnabled(sh, a)
    ensures Potential(c, ShardApply(c, sh, a).next) < Potential(c, sh)
  {
    var k := Budget(c) + 3;
    var next := ShardApply(c, sh, a).next;
    match a
    case Receive =>
      assert |sh.queue| * (k + 1) == |next.queue| * (k + 1) + k + 1;
      assert (|sh.pending| + 1) * k == |sh.pending| * k + k;
    case SeeClosed =>
      if sh.pending != [] { TimesBound(|sh.pending|, k); }
    case DeadlineFlush =>
      TimesBound(|sh.pending|, k);
    case _ =>
  }

  /** A started shard whose channel is closed can always move until it exits. */
  lemma ClosedShardCanMove(c: Config, sh: Shard) returns (a: ShardAction)
    requires ValidConfig(c) && ShardInv(c, sh) && sh.closed
    requires !sh.phase.NotStarted? && !sh.phase.Exited?
    ensures ShardEnabled(sh, a)
  {
    if sh.phase.Selecting? {
      a := if sh.queue != [] then Receive else SeeClosed;
    } else if sh.phase.Booking? {
      a := Book(0);
    } else {
      a := if sh.phase.retries > 0 then StoreReturns(StoreOk) else GiveUp;
    }
  }
}
