/** Runs of one shard among everything that happens to its channel, and the batches they cut. */
module ShardRuns {
  import opened Model
  import opened ShardMachine
  import opened Batching

  /** What can happen to a shard: an append offers a sample, its channel is closed, or its own
      goroutine moves. */
  datatype Turn = Offers(sample: Sample, meets: bool) | Closes | Moves(a: ShardAction)

  predicate TurnEnabled(c: Config, sh: Shard, t: Turn)
    requires ValidConfig(c)
  {
    match t
    case Offers(x, meets) => !sh.closed && (meets ==> CanMeet(c, sh)) && Offer(c, sh, x, meets).Some?
    case Closes => !sh.closed
    case Moves(a) => ShardEnabled(sh, a)
  }

  function TurnApply(c: Config, sh: Shard, t: Turn): ShardStep
    requires ValidConfig(c) && TurnEnabled(c, sh, t)
  {
    match t
    case Offers(x, meets) => ShardStep(Offer(c, sh, x, meets).value, [])
    case Closes => ShardStep(sh.(closed := true), [])
    case Moves(a) => ShardApply(c, sh, a)
  }

  function ShardRun(c: Config, sh: Shard, turns: seq<Turn>): Option<ShardStep>
    requires ValidConfig(c)
    decreases |turns|
  {
    if turns == [] then Some(ShardStep(sh, []))
    else if !TurnEnabled(c, sh, turns[0]) then None
    else
      var first := TurnApply(c, sh, turns[0]);
      match ShardRun(c, first.next, turns[1..])
      case None => None
      case Some(rest) => Some(ShardStep(rest.next, first.sent + rest.sent))
  }

  /** What can happen to an open channel does not wait for the goroutine: a sample may be offered as
      long as there is room, or a goroutine waiting at an unbuffered channel, and the channel may
      be closed; and the goroutine moves whenever it can. */
  lemma ChannelNeverWaits(c: Config, sh: Shard, x: Sample, a: ShardAction)
    requires ValidConfig(c)
    ensures !sh.closed && |sh.queue| < c.queueCapacity ==> TurnEnabled(c, sh, Offers(x, false))
    ensures !sh.closed && c.queueCapacity == 0 && sh.phase.Selecting? ==> TurnEnabled(c, sh, Offers(x, true))
    ensures TurnEnabled(c, sh, Closes) <==> !sh.closed
    ensures TurnEnabled(c, sh, Moves(a)) <==> ShardEnabled(sh, a)
  {
  }

  // ----- every run cuts the batches of Chunks -----

  /** What the goroutine's select sees during a run. */
  function Seen(c: Config, sh: Shard, turns: seq<Turn>): seq<Event>
    requires ValidConfig(c) && ShardRun(c, sh, turns).Some?
    decreases |turns|
  {
    if turns == [] then []
    else
      var event := match turns[0]
                   case Offers(x, true) => [Arrives(x)]
                   case Moves(Receive) => [Arrives(sh.queue[0])]
                   case Moves(DeadlineFlush) => [DeadlineFires]
                   case _ => [];
      event + Seen(c, TurnApply(c, sh, turns[0]).next, turns[1..])
  }

  /** The batches whose sends end during a run. */
  function Cut(c: Config, sh: Shard, turns: seq<Turn>): seq<seq<Sample>>
    requires ValidConfig(c) && ShardRun(c, sh, turns).Some?
    decreases |turns|
  {
    if turns == [] then []
    else
      var step := TurnApply(c, sh, turns[0]);
      (if step.sent == [] then [] else [Samples(step.sent)]) + Cut(c, step.next, turns[1..])
  }

  /** What the shard will cut from these events: a batch in flight is cut already. */
  function Due(c: Config, sh: Shard, events: seq<Event>): seq<seq<Sample>>
    requires ValidConfig(c)
  {
    match sh.phase
    case Sending(_, _, _) => [sh.pending] + Chunks(c.maxSamplesPerSend, [], events)
    case Exited => []
    case _ => Chunks(c.maxSamplesPerSend, sh.pending, events)
  }

  lemma TurnKeepsShardInv(c: Config, sh: Shard, t: Turn)
    requires ValidConfig(c) && ShardInv(c, sh) && TurnEnabled(c, sh, t)
    ensures ShardInv(c, TurnApply(c, sh, t).next)
    ensures TurnApply(c, sh, t).next.phase.NotStarted? <==> sh.phase.NotStarted?
  {
    match t
    case Offers(x, meets) => OfferKeepsShardInv(c, sh, x, meets);
    case Closes =>
    case Moves(a) => StepKeepsShardInv(c, sh, a);
  }

  /** An event the select sees moves what is due on by one. */
  lemma SelectCuts(c: Config, sh: Shard, t: Turn, event: Event, events: seq<Event>)
    requires ValidConfig(c) && ShardInv(c, sh) && sh.phase.Selecting? && TurnEnabled(c, sh, t)
    requires match t
             case Offers(x, meets) => meets && event == Arrives(x)
             case Moves(Receive) => event == Arrives(sh.queue[0])
             case Moves(DeadlineFlush) => event == DeadlineFires
             case _ => false
    ensures TurnApply(c, sh, t).sent == []
    ensures Due(c, sh, [event] + events) == Due(c, TurnApply(c, sh, t).next, events)
  {
    assert ([event] + events)[1..] == events;
    if event.Arrives? {
      var p := sh.pending + [event.sample];
      if |p| >= c.maxSamplesPerSend {
        assert p[..c.maxSamplesPerSend] == p && p[c.maxSamplesPerSend..] == [];
      }
    }
  }

  /** The end of a send takes the batch in flight off what is due. */
  lemma SendCuts(c: Config, sh: Shard, ok: bool, events: seq<Event>)
    requires ValidConfig(c) && ShardInv(c, sh) && sh.phase.Sending?
    ensures var step := FinishBatch(sh, ok);
            && step.sent != []
            && Due(c, sh, events) == [Samples(step.sent)] + Due(c, step.next, events)
  {
    assert sh.pending[..|sh.pending|] == sh.pending && sh.pending[|sh.pending|..] == [];
  }

  predicate HasSeenClosed(sh: Shard) {
    (sh.phase.Sending? || sh.phase.Booking?) && sh.phase.last
  }

  /** After the channel is seen closed, nothing is seen any more. */
  lemma {:induction false} LastSeesNothing(c: Config, sh: Shard, turns: seq<Turn>)
    requires ValidConfig(c) && ShardInv(c, sh) && ShardRun(c, sh, turns).Some?
    requires sh.phase.Exited? || HasSeenClosed(sh)
    ensures Seen(c, sh, turns) == []
    decreases |turns|
  {
    if turns != [] {
      TurnKeepsShardInv(c, sh, turns[0]);
      LastSeesNothing(c, TurnApply(c, sh, turns[0]).next, turns[1..]);
    }
  }

  lemma TurnCuts(c: Config, sh: Shard, t: Turn, events: seq<Event>)
    requires ValidConfig(c) && ShardInv(c, sh) && TurnEnabled(c, sh, t) && !sh.phase.NotStarted?
    requires HasSeenClosed(sh) ==> events == []
    requires !(t.Offers? && t.meets) && t != Moves(Receive) && t != Moves(DeadlineFlush)
    requires t == Moves(SeeClosed) ==> events == []
    ensures var step := TurnApply(c, sh, t);
            Due(c, sh, events)
            == (if step.sent == [] then [] else [Samples(step.sent)]) + Due(c, step.next, events)
  {
    match t
    case Moves(StoreReturns(StoreOk)) => SendCuts(c, sh, true, events);
    case Moves(StoreReturns(StoreFatal)) => SendCuts(c, sh, false, events);
    case Moves(GiveUp) => SendCuts(c, sh, false, events);
    case _ =>
  }

  /** However offers, the closing of the channel and the goroutine's steps interleave: a shard
      that runs until it exits has cut what it had in hand and what its select saw into exactly
      the batches of Chunks. */
  lemma {:induction false} EveryRunCutsChunks(c: Config, sh: Shard, turns: seq<Turn>)
    requires ValidConfig(c) && ShardInv(c, sh) && !sh.phase.NotStarted?
    requires ShardRun(c, sh, turns).Some? && ShardRun(c, sh, turns).value.next.phase.Exited?
    ensures Cut(c, sh, turns) == Due(c, sh, Seen(c, sh, turns))
    decreases |turns|
  {
    if turns != [] {
      var t := turns[0];
      var next := TurnApply(c, sh, t).next;
      var events := Seen(c, next, turns[1..]);
      TurnKeepsShardInv(c, sh, t);
      EveryRunCutsChunks(c, next, turns[1..]);
      if t.Offers? && t.meets {
        SelectCuts(c, sh, t, Arrives(t.sample), events);
      } else if t == Moves(Receive) {
        SelectCuts(c, sh, t, Arrives(sh.queue[0]), events);
      } else if t == Moves(DeadlineFlush) {
        SelectCuts(c, sh, t, DeadlineFires, events);
      } else {
        assert Seen(c, sh, turns) == events;
        if t == Moves(SeeClosed) {
          LastSeesNothing(c, next, turns[1..]);
        }
        if HasSeenClosed(sh) {
          LastSeesNothing(c, sh, turns);
        }
        TurnCuts(c, sh, t, events);
      }
    }
  }

  // ----- putting runs together -----

  lemma ShardRunCons(c: Config, sh: Shard, t: Turn, rest: seq<Turn>, r: ShardStep)
    requires ValidConfig(c) && TurnEnabled(c, sh, t) && ShardRun(c, TurnApply(c, sh, t).next, rest) == Some(r)
    ensures ShardRun(c, sh, [t] + rest) == Some(ShardStep(r.next, TurnApply(c, sh, t).sent + r.sent))
  {
    assert ([t] + rest)[1..] == rest;
  }

  lemma {:induction false} ShardRunConcat(c: Config, sh: Shard, a: seq<Turn>, m: ShardStep, b: seq<Turn>, r: ShardStep)
    requires ValidConfig(c) && ShardRun(c, sh, a) == Some(m) && ShardRun(c, m.next, b) == Some(r)
    ensures ShardRun(c, sh, a + b) == Some(ShardStep(r.next, m.sent + r.sent))
    decreases |a|
  {
    hide TurnApply, TurnEnabled;
    if a == [] {
      assert a + b == b && m.sent + r.sent == r.sent;
    } else {
      var first := TurnApply(c, sh, a[0]);
      var mid := ShardRun(c, first.next, a[1..]).value;
      ShardRunConcat(c, first.next, a[1..], mid, b, r);
      ShardRunCons(c, sh, a[0], a[1..] + b, ShardStep(r.next, mid.sent + r.sent));
      assert [a[0]] + (a[1..] + b) == a + b;
      Regroup(first.sent, mid.sent, r.sent);
    }
  }

  /** The steps of sending one batch: n answers of the store, then giving up if none of them
      ended it; and then the time it took is counted. */
  function CallTrace(answers: nat -> Outcome, base: nat, n: nat): seq<Turn>
    decreases n
  {
    if n == 0 then [Moves(GiveUp)]
    else if answers(base).StoreRecoverable? then
      [Moves(StoreReturns(StoreRecoverable))] + CallTrace(answers, base + 1, n - 1)
    else [Moves(StoreReturns(answers(base)))]
  }

  function SendTrace(answers: nat -> Outcome, base: nat, n: nat, took: nat): seq<Turn> {
    CallTrace(answers, base, n) + [Moves(Book(took))]
  }

  /** The batch is over after n calls: all but the last answer are recoverable errors, and
      either the retries are used up or the last answer ends it. */
  predicate Ends(answers: nat -> Outcome, base: nat, n: nat, retries: int) {
    && (forall i :: base <= i < base + n - 1 ==> answers(i).StoreRecoverable?)
    && (n as int <= retries || n == 0)
    && (n as int >= retries || (n > 0 && !answers(base + n - 1).StoreRecoverable?))
  }

  predicate Delivered(answers: nat -> Outcome, base: nat, n: nat) {
    n > 0 && answers(base + n - 1).StoreOk?
  }

  lemma {:induction false} CallTraceRuns(c: Config, sh: Shard, answers: nat -> Outcome, base: nat, n: nat)
    requires ValidConfig(c) && sh.phase.Sending? && sh.phase.batch <= |sh.pending|
    requires Ends(answers, base, n, sh.phase.retries)
    ensures ShardRun(c, sh, CallTrace(answers, base, n)) == Some(FinishBatch(sh, Delivered(answers, base, n)))
    decreases n
  {
    hide SendIfFull, MarkAll, Offer;
    if n > 0 && answers(base).StoreRecoverable? {
      var next := sh.(phase := sh.phase.(retries := sh.phase.retries - 1));
      CallTraceRuns(c, next, answers, base + 1, n - 1);
      assert CallTrace(answers, base, n)[1..] == CallTrace(answers, base + 1, n - 1);
      assert ShardApply(c, sh, StoreReturns(StoreRecoverable)) == ShardStep(next, []);
      var done := FinishBatch(next, Delivered(answers, base + 1, n - 1));
      assert [] + done.sent == done.sent;
      assert Delivered(answers, base, n) == Delivered(answers, base + 1, n - 1);
      assert FinishBatch(next, Delivered(answers, base, n)) == FinishBatch(sh, Delivered(answers, base, n));
    } else {
      assert n <= 1;
      var done := FinishBatch(sh, Delivered(answers, base, n));
      assert done.sent + [] == done.sent;
      assert CallTrace(answers, base, n)[1..] == [];
    }
  }

  /** A batch that is over and completely counted. */
  function AfterSend(c: Config, sh: Shard, ok: bool): ShardStep
    requires ValidConfig(c) && sh.phase.Sending? && sh.phase.batch <= |sh.pending|
  {
    var rest := sh.pending[sh.phase.batch..];
    ShardStep(
      sh.(pending := rest, phase := if sh.phase.last then Exited else SendIfFull(c, rest)),
      MarkAll(sh.pending[..sh.phase.batch], ok))
  }

  /** The calls made for a batch, and the counting after them, are steps of the shard's machine. */
  lemma {:induction false} SendTraceRuns(c: Config, sh: Shard, answers: nat -> Outcome, base: nat, n: nat, took: nat)
    requires ValidConfig(c) && sh.phase.Sending? && sh.phase.batch <= |sh.pending|
    requires Ends(answers, base, n, sh.phase.retries)
    ensures ShardRun(c, sh, SendTrace(answers, base, n, took))
            == Some(AfterSend(c, sh, Delivered(answers, base, n)))
  {
    CallTraceRuns(c, sh, answers, base, n);
    var over := FinishBatch(sh, Delivered(answers, base, n));
    var book := TurnApply(c, over.next, Moves(Book(took)));
    assert [Moves(Book(took))][1..] == [] && book.sent + [] == book.sent;
    assert ShardRun(c, over.next, [Moves(Book(took))]) == Some(book);
    assert over.sent + [] == over.sent;
    ShardRunConcat(c, sh, CallTrace(answers, base, n), over, [Moves(Book(took))], book);
  }
}
