/** Who closes a bill: the selector's reason in each run, and what a rollover forgets. */
module Arbitration {
  import opened Model
  import opened Ledger
  import opened Workflow

  /** A reason is backed by what it claims: a consumed signal, or a period that is over. */
  ghost predicate Backed(c: Chain) {
    && c.signals + c.consumed <= c.arrived
    && (!c.selector.Fired? ==> c.consumed == 0)
    && (c.selector.Fired? ==>
          match c.selector.reason
          case NoReason => false
          case Signal => c.consumed == 1
          case PeriodEnd => c.consumed == 0 && PeriodOver(c))
    && (c.phase.Draining? && c.phase.reason != NoReason ==> c.selector == Fired(c.phase.reason))
    && (c.phase.Finishing? ==>
          && !c.ledger.closing.NotClosing?
          && c.selector == Fired(c.ledger.closing.input.reason)
          && c.ledger.closing.input.closedAt <= c.now
          && (c.ledger.closing.input.reason == PeriodEnd ==>
                && c.input.periodEnd.Some?
                && c.input.periodEnd.value <= c.ledger.closing.input.closedAt))
  }

  lemma BackedNext(cfg: Config, c: Chain, m: Move)
    requires InStep(c) && Backed(c) && Allowed(cfg, c, m)
    ensures Backed(Next(cfg, c, m))
  {
  }

  lemma {:induction false} PlayBacked(cfg: Config, d: Discipline, c: Chain, moves: seq<Move>)
    requires Sound(c) && Backed(c) && History(cfg, d, c, moves)
    ensures Backed(Play(cfg, d, c, moves))
  {
    if moves != [] {
      var init := moves[..|moves| - 1];
      PlaySound(cfg, d, c, init);
      PlayBacked(cfg, d, c, init);
      BackedNext(cfg, Play(cfg, d, c, init), moves[|moves| - 1]);
    }
  }

  /** The period end survives every rollover. */
  lemma {:induction false} PeriodEndCarried(cfg: Config, d: Discipline, c: Chain, moves: seq<Move>)
    requires History(cfg, d, c, moves)
    ensures Play(cfg, d, c, moves).input.periodEnd == c.input.periodEnd
  {
    if moves != [] { PeriodEndCarried(cfg, d, c, moves[..|moves| - 1]); }
  }

  /** Close arbitration, in every reachable state of every chain: a captured close says SIGNAL only
      if this run consumed a signal that arrived, and PERIOD_END only if it was captured at or
      after the period end. */
  lemma CloseIsBacked(cfg: Config, d: Discipline, input: Input, now: Time, moves: seq<Move>)
    requires input.snapshot.None? && input.seenIds == [] && History(cfg, d, Begin(input, now), moves)
    ensures var c := Play(cfg, d, Begin(input, now), moves);
      !c.ledger.closing.NotClosing? ==>
        var close := c.ledger.closing.input;
        && close.reason != NoReason
        && (close.reason == Signal ==> c.consumed == 1 && c.arrived >= 1)
        && (close.reason == PeriodEnd ==>
              && c.consumed == 0
              && input.periodEnd.Some? && input.periodEnd.value <= close.closedAt)
  {
    BeginSound(input, now);
    PlaySound(cfg, d, Begin(input, now), moves);
    PlayBacked(cfg, d, Begin(input, now), moves);
    PeriodEndCarried(cfg, d, Begin(input, now), moves);
  }

  /** The moves in which the selector writes its reason. */
  predicate Fires(c: Chain, m: Move) {
    m.SelectorTakesSignal? || m.SelectorTimerFires? || (m.SelectorStarts? && PeriodOver(c))
  }

  /** How often the selector of the current run has fired; a rollover starts a new run. */
  function Firings(cfg: Config, d: Discipline, c: Chain, moves: seq<Move>): nat
    requires History(cfg, d, c, moves)
  {
    if moves == [] then 0 else
      var init, m := moves[..|moves| - 1], moves[|moves| - 1];
      if m.Rollover? then 0
      else Firings(cfg, d, c, init) + (if Fires(Play(cfg, d, c, init), m) then 1 else 0)
  }

  /** In every history a run's reason is written at most once, and it is set exactly when it was. */
  lemma {:induction false} ReasonWrittenOnce(cfg: Config, d: Discipline, c: Chain, moves: seq<Move>)
    requires !c.selector.Fired? && History(cfg, d, c, moves)
    ensures Firings(cfg, d, c, moves) == if Play(cfg, d, c, moves).selector.Fired? then 1 else 0
  {
    if moves != [] { ReasonWrittenOnce(cfg, d, c, moves[..|moves| - 1]); }
  }

  /** Once written, the reason stands until the run ends. */
  lemma {:induction false} ReasonStands(cfg: Config, d: Discipline, c: Chain, moves: seq<Move>)
    requires c.selector.Fired? && History(cfg, d, c, moves)
    requires forall k :: 0 <= k < |moves| ==> !moves[k].Rollover?
    ensures Play(cfg, d, c, moves).selector == c.selector
  {
    if moves != [] { ReasonStands(cfg, d, c, moves[..|moves| - 1]); }
  }

  /** A rollover forgets what the selector did during the drain: with and without its move the
      next run starts in exactly the same state, so a signal taken there is gone. */
  lemma DrainSelectorForgotten(cfg: Config, c: Chain, sel: Move, order: seq<ItemId>, kept: nat)
    requires c.phase == Draining(NoReason) && Allowed(cfg, c, sel)
    requires sel.SelectorStarts? || sel.SelectorTakesSignal? || sel.SelectorTimerFires?
    requires Allowed(cfg, Next(cfg, c, sel), Rollover(order, kept))
    ensures Allowed(cfg, c, Rollover(order, kept))
    ensures Next(cfg, Next(cfg, c, sel), Rollover(order, kept)) == Next(cfg, c, Rollover(order, kept))
    ensures Next(cfg, c, Rollover(order, kept)).input.periodEnd == c.input.periodEnd
  {
  }

  /** Without a period end, a run that holds no signal closes only after another one arrives. */
  ghost predicate NeedsSignal(c: Chain) {
    && c.input.periodEnd.None? && c.signals == 0 && !c.selector.Fired?
    && !c.phase.Finishing? && (c.phase.Draining? ==> c.phase.reason == NoReason)
  }

  lemma NeedsSignalNext(cfg: Config, c: Chain, m: Move)
    requires NeedsSignal(c) && Allowed(cfg, c, m) && !m.SignalArrives?
    ensures NeedsSignal(Next(cfg, c, m))
  {
  }

  /** So a bill whose only close signal was taken during a drain stays open, whatever happens
      next, until the caller signals again. */
  lemma {:induction false} LostSignalStaysLost(cfg: Config, d: Discipline, c: Chain, moves: seq<Move>)
    requires Sound(c) && NeedsSignal(c) && History(cfg, d, c, moves)
    requires forall k :: 0 <= k < |moves| ==> !moves[k].SignalArrives?
    ensures NeedsSignal(Play(cfg, d, c, moves)) && Play(cfg, d, c, moves).ledger.closing.NotClosing?
  {
    if moves != [] {
      var init := moves[..|moves| - 1];
      LostSignalStaysLost(cfg, d, c, init);
      NeedsSignalNext(cfg, Play(cfg, d, c, init), moves[|moves| - 1]);
    }
    PlaySound(cfg, d, c, moves);
  }
}
