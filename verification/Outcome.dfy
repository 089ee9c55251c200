/** What can still happen to a bill: which runs can roll over once they have taken a close signal,
    and which bills can still be closed. */
module Outcome {
  import opened Model
  import opened Ledger
  import opened Workflow
  import opened Arbitration
  import opened Progress
  import Accounting
  import Settlement

  /** The first move of a history and what follows it. */
  lemma Prefixed(cfg: Config, d: Discipline, c: Chain, m: Move, c1: Chain, rest: seq<Move>) returns (moves: seq<Move>)
    requires GoesTo(cfg, d, c, m, c1) && History(cfg, d, c1, rest)
    ensures History(cfg, d, c, moves) && Play(cfg, d, c, moves) == Play(cfg, d, c1, rest)
  {
    var first := Reaches(cfg, d, c, [], c, m, c1);
    Concatenate(cfg, d, c, first, rest);
    moves := first + rest;
  }

  /** The same chain with its drain over. */
  ghost predicate Drained(c: Chain, c': Chain) {
    && Sound(c') && c'.ledger.inflight == map[]
    && c'.phase == c.phase && c'.selector == c.selector && c'.rollovers == c.rollovers && c'.now == c.now
    && c'.ledger.bill.count >= c.ledger.bill.count
  }

  function EndOf(s: State, h: nat): Step
    requires h in s.inflight
  {
    if s.inflight[h].committed then AppendAck(h) else AppendGiveUp(h)
  }

  lemma HandlerEnds(d: Discipline, s: State, h: nat)
    requires Live(s) && h in s.inflight
    ensures Enabled(s, EndOf(s, h)) && Obeys(d, s, EndOf(s, h))
    ensures var s' := Apply(s, EndOf(s, h));
      s'.inflight == s.inflight - {h} && s'.bill.count >= s.bill.count
  {
  }

  lemma DrainOne(cfg: Config, d: Discipline, c: Chain, h: nat) returns (m: Move, c1: Chain)
    requires Sound(c) && c.phase.Draining? && !c.selector.Unstarted? && h in c.ledger.inflight
    ensures GoesTo(cfg, d, c, m, c1) && Sound(c1)
    ensures c1.phase == c.phase && c1.selector == c.selector && c1.rollovers == c.rollovers && c1.now == c.now
    ensures c1.ledger.bill.count >= c.ledger.bill.count && c1.ledger.inflight == c.ledger.inflight - {h}
  {
    HandlerEnds(d, c.ledger, h);
    m := Work(EndOf(c.ledger, h));
    c1 := c.(ledger := Apply(c.ledger, EndOf(c.ledger, h)));
    SoundNext(cfg, c, m);
  }

  /** A drain can end: the handlers whose attempt committed are acknowledged, the others give up. */
  lemma {:induction false} Drains(cfg: Config, d: Discipline, c: Chain) returns (moves: seq<Move>)
    requires Sound(c) && c.phase.Draining? && !c.selector.Unstarted?
    ensures History(cfg, d, c, moves) && Drained(c, Play(cfg, d, c, moves))
    decreases |c.ledger.inflight|
  {
    if c.ledger.inflight == map[] {
      moves := [];
    } else {
      var h :| h in c.ledger.inflight;
      var m, c1 := DrainOne(cfg, d, c, h);
      assert c.ledger.inflight == c1.ledger.inflight[h := c.ledger.inflight[h]];
      var rest := Drains(cfg, d, c1);
      moves := Prefixed(cfg, d, c, m, c1, rest);
    }
  }

  ghost predicate RollsOver(cfg: Config, d: Discipline, c: Chain) {
    exists moves :: History(cfg, d, c, moves) && Play(cfg, d, c, moves).rollovers > c.rollovers
  }

  /** The selector took a signal and the wait has not returned without a reason. */
  ghost predicate SignalWon(c: Chain) {
    Backed(c) && c.selector == Fired(Signal) && c.phase != Draining(NoReason)
  }

  lemma SignalWonNext(cfg: Config, c: Chain, m: Move)
    requires InStep(c) && SignalWon(c) && Allowed(cfg, c, m)
    ensures SignalWon(Next(cfg, c, m)) && Next(cfg, c, m).rollovers == c.rollovers
  {
    BackedNext(cfg, c, m);
  }

  /** A signal taken while the run waits is never lost: whatever happens next, the run does not roll
      over and no other reason is captured. */
  lemma {:induction false} SignalWinsWait(cfg: Config, d: Discipline, c: Chain, moves: seq<Move>)
    requires Sound(c) && SignalWon(c) && History(cfg, d, c, moves)
    ensures var c' := Play(cfg, d, c, moves);
      && Sound(c') && SignalWon(c') && c'.rollovers == c.rollovers
      && (!c'.ledger.closing.NotClosing? ==> c'.ledger.closing.input.reason == Signal)
  {
    if moves != [] {
      var init := moves[..|moves| - 1];
      SignalWinsWait(cfg, d, c, init);
      SignalWonNext(cfg, Play(cfg, d, c, init), moves[|moves| - 1]);
    }
    PlaySound(cfg, d, c, moves);
  }

  /** A signal taken after the wait has returned no reason can be lost: the drain ends and the run
      rolls over. */
  lemma DrainRolls(cfg: Config, d: Discipline, c: Chain)
    requires Sound(c) && c.phase == Draining(NoReason) && !c.selector.Unstarted?
    ensures RollsOver(cfg, d, c)
  {
    var moves := Drains(cfg, d, c);
    var c1 := Play(cfg, d, c, moves);
    var order := Enumerable(c1.ledger.seen);
    var c2 := Next(cfg, c1, Rollover(order, 0));
    var moves' := Reaches(cfg, d, c, moves, c1, Rollover(order, 0), c2);
    assert Play(cfg, d, c, moves').rollovers > c.rollovers;
  }

  /** Exactly when a close signal can be lost, in every reachable state, scheduling and kind of
      counter: when the selector takes it after the wait has returned without a reason. */
  lemma SignalIsLostIff(cfg: Config, d: Discipline, input: Input, now: Time, moves: seq<Move>)
    requires input.snapshot.None? && input.seenIds == [] && History(cfg, d, Begin(input, now), moves)
    ensures var c := Play(cfg, d, Begin(input, now), moves);
      Allowed(cfg, c, SelectorTakesSignal) ==>
        (RollsOver(cfg, d, Next(cfg, c, SelectorTakesSignal)) <==> c.phase == Draining(NoReason))
  {
    var c := Play(cfg, d, Begin(input, now), moves);
    BeginSound(input, now);
    PlaySound(cfg, d, Begin(input, now), moves);
    PlayBacked(cfg, d, Begin(input, now), moves);
    if Allowed(cfg, c, SelectorTakesSignal) {
      var c1 := Next(cfg, c, SelectorTakesSignal);
      SoundNext(cfg, c, SelectorTakesSignal);
      BackedNext(cfg, c, SelectorTakesSignal);
      if c.phase == Draining(NoReason) {
        DrainRolls(cfg, d, c1);
      } else {
        forall rest | History(cfg, d, c1, rest) ensures Play(cfg, d, c1, rest).rollovers == c1.rollovers {
          SignalWinsWait(cfg, d, c1, rest);
        }
      }
    }
  }

  /** The close can still be captured. */
  ghost predicate Closable(cfg: Config, d: Discipline, c: Chain) {
    exists moves :: History(cfg, d, c, moves) && !Play(cfg, d, c, moves).ledger.closing.NotClosing?
  }

  ghost predicate CapturedWith(c: Chain, reason: CloseReason, at: Time) {
    !c.ledger.closing.NotClosing? && c.ledger.closing.input.reason == reason && c.ledger.closing.input.closedAt == at
  }

  /** The close can still be captured with this reason and this time. */
  ghost predicate ClosesWith(cfg: Config, d: Discipline, c: Chain, reason: CloseReason, at: Time) {
    exists moves :: History(cfg, d, c, moves) && CapturedWith(Play(cfg, d, c, moves), reason, at)
  }

  lemma ClosesIsClosable(cfg: Config, d: Discipline, c: Chain, reason: CloseReason, at: Time)
    requires ClosesWith(cfg, d, c, reason, at)
    ensures Closable(cfg, d, c)
  {
  }

  lemma ClosesVia(cfg: Config, d: Discipline, c: Chain, m: Move, c1: Chain, reason: CloseReason, at: Time)
    requires GoesTo(cfg, d, c, m, c1) && ClosesWith(cfg, d, c1, reason, at)
    ensures ClosesWith(cfg, d, c, reason, at)
  {
    var rest :| History(cfg, d, c1, rest) && CapturedWith(Play(cfg, d, c1, rest), reason, at);
    var moves := Prefixed(cfg, d, c, m, c1, rest);
  }

  lemma DrainingCloses(cfg: Config, d: Discipline, c: Chain)
    requires Sound(c) && c.phase.Draining? && c.phase.reason != NoReason && !c.selector.Unstarted? && !d.insertsAcked
    ensures ClosesWith(cfg, d, c, c.phase.reason, c.now)
  {
    var moves := Drains(cfg, d, c);
    var c1 := Play(cfg, d, c, moves);
    var c2 := Next(cfg, c1, Closes);
    var moves' := Reaches(cfg, d, c, moves, c1, Closes, c2);
    assert CapturedWith(Play(cfg, d, c, moves'), c.phase.reason, c.now);
  }

  lemma FiredCloses(cfg: Config, d: Discipline, c: Chain)
    requires Sound(c) && c.phase.Waiting? && c.selector.Fired? && c.selector.reason != NoReason && !d.insertsAcked
    ensures ClosesWith(cfg, d, c, c.selector.reason, c.now)
  {
    var c1 := Next(cfg, c, WaitReturns);
    SoundNext(cfg, c, WaitReturns);
    DrainingCloses(cfg, d, c1);
    ClosesVia(cfg, d, c, WaitReturns, c1, c.selector.reason, c.now);
  }

  /** A signal closes the bill at once. */
  lemma ArmedCloses(cfg: Config, d: Discipline, c: Chain)
    requires Sound(c) && c.phase.Waiting? && c.selector.Armed? && !d.insertsAcked
    ensures ClosesWith(cfg, d, c, Signal, c.now)
  {
    var c1 := c.(signals := c.signals + 1, arrived := c.arrived + 1);
    var c2 := Next(cfg, c1, SelectorTakesSignal);
    FiredCloses(cfg, d, c2);
    ClosesVia(cfg, d, c1, SelectorTakesSignal, c2, Signal, c.now);
    ClosesVia(cfg, d, c, SignalArrives, c1, Signal, c.now);
  }

  function Later(a: Time, b: Time): Time {
    if a < b then b else a
  }

  /** The timer closes it when the period ends, or at once if it has ended. */
  lemma ArmedExpires(cfg: Config, d: Discipline, c: Chain)
    requires Sound(c) && c.phase.Waiting? && c.selector.Armed? && c.input.periodEnd.Some? && !d.insertsAcked
    ensures ClosesWith(cfg, d, c, PeriodEnd, Later(c.now, c.input.periodEnd.value))
  {
    var at := Later(c.now, c.input.periodEnd.value);
    var c1 := c.(now := at);
    var c2 := Next(cfg, c1, SelectorTimerFires);
    FiredCloses(cfg, d, c2);
    ClosesVia(cfg, d, c1, SelectorTimerFires, c2, PeriodEnd, at);
    ClosesVia(cfg, d, c, Tick(at), c1, PeriodEnd, at);
  }

  lemma YieldedCloses(cfg: Config, d: Discipline, c: Chain)
    requires Sound(c) && c.phase.Waiting? && c.selector.Unstarted? && c.yielded && !d.insertsAcked
    ensures ClosesWith(cfg, d, c, if PeriodOver(c) then PeriodEnd else Signal, c.now)
  {
    var c1 := c.(selector := SelectorFirst(c));
    if c1.selector.Fired? { FiredCloses(cfg, d, c1); } else { ArmedCloses(cfg, d, c1); }
    ClosesVia(cfg, d, c, SelectorStarts, c1, if PeriodOver(c) then PeriodEnd else Signal, c.now);
  }

  lemma YieldedExpires(cfg: Config, d: Discipline, c: Chain)
    requires Sound(c) && c.phase.Waiting? && c.selector.Unstarted? && c.yielded && !d.insertsAcked
    requires c.input.periodEnd.Some?
    ensures ClosesWith(cfg, d, c, PeriodEnd, Later(c.now, c.input.periodEnd.value))
  {
    var c1 := c.(selector := SelectorFirst(c));
    if c1.selector.Fired? { FiredCloses(cfg, d, c1); } else { ArmedExpires(cfg, d, c1); }
    ClosesVia(cfg, d, c, SelectorStarts, c1, PeriodEnd, Later(c.now, c.input.periodEnd.value));
  }

  /** Nothing but rollovers is left: creation failed, the wait has returned without a reason, or it
      will, before the selector has run. */
  ghost predicate Doomed(c: Chain) {
    || c.phase.Stopped?
    || c.phase == Draining(NoReason)
    || (c.phase.Waiting? && c.selector.Unstarted? && !c.yielded
        && c.ledger.bill.count >= CONTINUE_AS_NEW_THRESHOLD)
  }

  lemma DoomedNext(c: Chain, m: Move)
    requires Sound(c) && Full(c) && Doomed(c) && Allowed(CODE, c, m)
    ensures Doomed(Next(CODE, c, m))
  {
    CountStep(CODE, c, m);
  }

  lemma {:induction false} DoomedStays(d: Discipline, c: Chain, moves: seq<Move>)
    requires Sound(c) && Spinning(c) && Full(c) && FiredHasReason(c) && Doomed(c) && History(CODE, d, c, moves)
    ensures Doomed(Play(CODE, d, c, moves)) && Play(CODE, d, c, moves).ledger.closing.NotClosing?
  {
    PlaySound(CODE, d, c, moves);
    if moves != [] {
      var init := moves[..|moves| - 1];
      DoomedStays(d, c, init);
      PlaySound(CODE, d, c, init);
      PlaySpinning(d, c, init);
      DoomedNext(Play(CODE, d, c, init), moves[|moves| - 1]);
    }
  }

  lemma WaitingCloses(d: Discipline, c: Chain) returns (reason: CloseReason)
    requires Sound(c) && FiredHasReason(c) && c.phase.Waiting? && !Doomed(c) && !d.insertsAcked
    ensures ClosesWith(CODE, d, c, reason, c.now)
  {
    if c.selector.Fired? {
      FiredCloses(CODE, d, c);
      reason := c.selector.reason;
    } else if c.selector.Armed? {
      ArmedCloses(CODE, d, c);
      reason := Signal;
    } else {
      reason := if PeriodOver(c) then PeriodEnd else Signal;
      if c.yielded {
        YieldedCloses(CODE, d, c);
      } else {
        YieldedCloses(CODE, d, c.(yielded := true));
        ClosesVia(CODE, d, c, MainYields, c.(yielded := true), reason, c.now);
      }
    }
  }

  /** A waiting bill with a period that no selector has settled yet can be closed for the period's end,
      at that end or, if it has passed, at once. */
  lemma PeriodCloses(d: Discipline, c: Chain)
    requires Sound(c) && c.phase.Waiting? && !Doomed(c) && !c.selector.Fired? && !d.insertsAcked
    requires c.input.periodEnd.Some?
    ensures ClosesWith(CODE, d, c, PeriodEnd, Later(c.now, c.input.periodEnd.value))
  {
    if c.selector.Armed? {
      ArmedExpires(CODE, d, c);
    } else if c.yielded {
      YieldedExpires(CODE, d, c);
    } else {
      YieldedExpires(CODE, d, c.(yielded := true));
      ClosesVia(CODE, d, c, MainYields, c.(yielded := true), PeriodEnd, Later(c.now, c.input.periodEnd.value));
    }
  }

  lemma AckedWasIssued(s: State)
    requires Accounting.Validated(s) && s.acked != []
    ensures s.issued != {}
  {
    assert s.acked[0] in s.issued;
  }

  lemma NothingYet(c: Chain)
    requires Sound(c) && c.ledger.creation.Creating?
    ensures c.ledger.bill.count == 0
  {
    if c.ledger.acked != [] { AckedWasIssued(c.ledger); }
  }

  lemma CreateCommits(d: Discipline, c: Chain) returns (c1: Chain)
    requires Sound(c) && c.phase.CreatingRow?
    ensures GoesTo(CODE, d, c, Work(CreateAttempt), c1) && Sound(c1)
    ensures c1.phase.CreatingRow? && c1.ledger.creation == Creating(true)
    ensures c1.selector == c.selector && c1.ledger.bill == c.ledger.bill
  {
    assert Enabled(c.ledger, CreateAttempt) && Obeys(d, c.ledger, CreateAttempt);
    c1 := c.(ledger := Apply(c.ledger, CreateAttempt));
    SoundNext(CODE, c, Work(CreateAttempt));
  }

  lemma CreateIsAcked(d: Discipline, c: Chain) returns (c1: Chain)
    requires Sound(c) && c.phase.CreatingRow? && c.ledger.creation == Creating(true)
    ensures GoesTo(CODE, d, c, Work(CreateAck), c1) && Sound(c1)
    ensures c1.phase.Waiting? && c1.selector == c.selector && c1.ledger.bill == c.ledger.bill
  {
    assert Enabled(c.ledger, CreateAck) && Obeys(d, c.ledger, CreateAck);
    c1 := c.(ledger := Apply(c.ledger, CreateAck), phase := Waiting);
    SoundNext(CODE, c, Work(CreateAck));
  }

  lemma CreatingCloses(d: Discipline, c: Chain)
    requires Sound(c) && FiredHasReason(c) && c.phase.CreatingRow? && !d.insertsAcked
    ensures Closable(CODE, d, c)
  {
    var c1 := CreateCommits(d, c);
    var c2 := CreateIsAcked(d, c1);
    NothingYet(c);
    var reason := WaitingCloses(d, c2);
    ClosesVia(CODE, d, c1, Work(CreateAck), c2, reason, c2.now);
    ClosesVia(CODE, d, c, Work(CreateAttempt), c1, reason, c2.now);
    ClosesIsClosable(CODE, d, c, reason, c2.now);
  }

  lemma UndoomedCloses(d: Discipline, c: Chain)
    requires Sound(c) && Backed(c) && FiredHasReason(c) && !Doomed(c) && !d.insertsAcked
    ensures Closable(CODE, d, c)
  {
    match c.phase
    case CreatingRow => CreatingCloses(d, c);
    case Waiting =>
      var reason := WaitingCloses(d, c);
      ClosesIsClosable(CODE, d, c, reason, c.now);
    case Draining(reason) =>
      DrainingCloses(CODE, d, c);
      ClosesIsClosable(CODE, d, c, reason, c.now);
    case Finishing => assert History(CODE, d, c, []) && Play(CODE, d, c, []) == c;
    case Stopped =>
  }

  /** Exactly when a bill can still be closed, in every reachable state: unless nothing but
      rollovers is left. So a waiting bill that has not rolled over can, and after a rollover none
      can. Whether the items are acknowledged at the capture (D4) is left open. */
  lemma CanStillCloseIff(d: Discipline, input: Input, now: Time, moves: seq<Move>)
    requires input.snapshot.None? && input.seenIds == [] && !d.insertsAcked
    requires History(CODE, d, Begin(input, now), moves)
    ensures var c := Play(CODE, d, Begin(input, now), moves); Closable(CODE, d, c) <==> !Doomed(c)
    ensures var c := Play(CODE, d, Begin(input, now), moves); c.rollovers > 0 ==> Doomed(c)
    ensures var c := Play(CODE, d, Begin(input, now), moves);
      c.phase.Waiting? && c.ledger.bill.count < 1000 ==> !Doomed(c)
  {
    var c := Play(CODE, d, Begin(input, now), moves);
    BeginSound(input, now);
    PlaySound(CODE, d, Begin(input, now), moves);
    PlayBacked(CODE, d, Begin(input, now), moves);
    PlaySpinning(d, Begin(input, now), moves);
    if Doomed(c) {
      forall rest | History(CODE, d, c, rest) ensures Play(CODE, d, c, rest).ledger.closing.NotClosing? {
        DoomedStays(d, c, rest);
      }
    } else {
      UndoomedCloses(d, c);
    }
  }

  lemma ReturnStates(cfg: Config, d: Discipline, c: Chain) returns (c1: Chain, c2: Chain)
    requires c.ledger.closing.Persisting? && Enabled(c.ledger, CloseAttempt)
    ensures GoesTo(cfg, d, c, Work(CloseAttempt), c1) && GoesTo(cfg, d, c1, Work(CloseAck), c2)
    ensures c2.ledger.closing.Returned?
  {
    assert Obeys(d, c.ledger, CloseAttempt);
    c1 := c.(ledger := Apply(c.ledger, CloseAttempt));
    assert Enabled(c1.ledger, CloseAck) && Obeys(d, c1.ledger, CloseAck);
    c2 := c1.(ledger := Apply(c1.ledger, CloseAck));
  }

  /** A captured bill can be closed and return: under D1 to D6 and whole amounts the next attempt of
      the close activity commits, and its acknowledgement ends the workflow. */
  lemma CapturedReturns(cfg: Config, d: Discipline, input: Input, now: Time, moves: seq<Move>) returns (more: seq<Move>)
    requires input.snapshot.None? && input.seenIds == [] && Settlement.Strict(d) && d.whole
    requires History(cfg, d, Begin(input, now), moves)
    requires Play(cfg, d, Begin(input, now), moves).ledger.closing.Persisting?
    ensures History(cfg, d, Begin(input, now), moves + more)
    ensures Play(cfg, d, Begin(input, now), moves + more).ledger.closing.Returned?
  {
    var b := Begin(input, now);
    var c := Play(cfg, d, b, moves);
    var steps := ChainIsRun(cfg, d, input, now, moves);
    Settlement.CloseCommits(d, input, now, steps);
    var c1, c2 := ReturnStates(cfg, d, c);
    var moves1 := Reaches(cfg, d, b, moves, c, Work(CloseAttempt), c1);
    var moves2 := Reaches(cfg, d, b, moves1, c1, Work(CloseAck), c2);
    more := [Work(CloseAttempt)] + [Work(CloseAck)];
    assert moves2 == moves + more;
  }
}
