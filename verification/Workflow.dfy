/** BillingWorkflow as a chain of runs: the main coroutine (create, wait, drain, then roll over or
    close), the selector coroutine it spawns, signals, the clock, and the ledger of the bill. */
module Workflow {
  import opened Model
  import opened Store
  import opened Ledger
  import Accounting
  import Settlement

  const CONTINUE_AS_NEW_THRESHOLD: nat := 1000

  /** The coroutine that waits for the close signal or the period end. */
  datatype Selector = Unstarted | Armed | Fired(reason: CloseReason)

  /** `Draining` remembers what the wait returned; NoReason means the threshold fired. */
  datatype Phase = CreatingRow | Waiting | Draining(reason: CloseReason) | Finishing | Stopped

  /** How the runs are scheduled and what the wait counts. The code is (cooperative, cumulative):
      a spawned coroutine and the update handlers run only once the main one has yielded, the
      selector first, and the wait tests the carried item count. Theorems that do not need a choice
      quantify over it. */
  datatype Config = Config(cooperative: bool, perRun: bool)

  const CODE := Config(true, false)

  /** `consumed` counts this run's signals taken by the selector, `entry` its initial item count. */
  datatype Chain = Chain(
    input: Input,
    ledger: State,
    phase: Phase,
    yielded: bool,
    selector: Selector,
    signals: nat,
    arrived: nat,
    consumed: nat,
    entry: nat,
    rollovers: nat,
    now: Time)

  function Begin(input: Input, now: Time): Chain {
    Chain(input, Start(input, now), CreatingRow, false, Unstarted, 0, 0, 0, 0, 0, now)
  }

  datatype Move =
    | Work(step: Step)
    | Tick(to: Time)
    | SignalArrives
    | MainYields
    | SelectorStarts
    | SelectorTakesSignal
    | SelectorTimerFires
    | WaitReturns
    | Rollover(order: seq<ItemId>, kept: nat)
    | Closes

  function Counter(cfg: Config, c: Chain): int {
    if cfg.perRun then c.ledger.bill.count - c.entry else c.ledger.bill.count
  }

  /** The condition awaited by awaitCloseOrThreshold. */
  predicate WaitDone(cfg: Config, c: Chain) {
    c.selector.Fired? || Counter(cfg, c) >= CONTINUE_AS_NEW_THRESHOLD
  }

  /** Go ranges over the seen map in any order, each ID once. */
  predicate Enumerates(order: seq<ItemId>, ids: set<ItemId>) {
    && (forall k :: 0 <= k < |order| ==> order[k] in ids)
    && (forall id :: id in ids ==> id in order)
    && (forall j, k :: 0 <= j < k < |order| ==> order[j] != order[k])
  }

  lemma {:induction false} Enumerable(ids: set<ItemId>) returns (order: seq<ItemId>)
    ensures Enumerates(order, ids)
    decreases |ids|
  {
    if ids == {} {
      order := [];
    } else {
      var id :| id in ids;
      var rest := Enumerable(ids - {id});
      order := rest + [id];
      forall x | x in ids ensures x in order {
        if x == id { assert order[|rest|] == x; } else { assert x in rest; }
      }
    }
  }

  predicate PeriodOver(c: Chain) {
    c.input.periodEnd.Some? && c.now >= c.input.periodEnd.value
  }

  /** Steps of the update handlers, up to and after their await. */
  predicate OfHandler(w: Step) {
    w.Update? || w.AppendAttempt? || w.AppendAck? || w.AppendGiveUp?
  }

  predicate Allowed(cfg: Config, c: Chain, m: Move) {
    match m
    case Work(w) =>
      && !w.Finalize? && Enabled(c.ledger, w)
      && (w.Update? ==> w.at == c.now)
      && (cfg.cooperative && OfHandler(w) ==> !c.selector.Unstarted?)
    case Tick(t) => t >= c.now
    case SignalArrives => true
    case MainYields => (c.phase.Waiting? && !WaitDone(cfg, c)) || (c.phase.Draining? && c.ledger.inflight != map[])
    case SelectorStarts =>
      (c.phase.Waiting? || c.phase.Draining?) && c.selector.Unstarted? && (cfg.cooperative ==> c.yielded)
    case SelectorTakesSignal => (c.phase.Waiting? || c.phase.Draining?) && c.selector.Armed? && c.signals > 0
    case SelectorTimerFires => (c.phase.Waiting? || c.phase.Draining?) && c.selector.Armed? && PeriodOver(c)
    case WaitReturns => c.phase.Waiting? && WaitDone(cfg, c)
    case Rollover(order, kept) =>
      && c.phase == Draining(NoReason) && c.ledger.inflight == map[]
      && Enumerates(order, c.ledger.seen) && kept <= c.signals
    case Closes => c.phase.Draining? && c.phase.reason != NoReason && Enabled(c.ledger, Finalize(c.phase.reason, c.now))
  }

  /** The summary handed to the next run: neither close time nor reason. */
  function Snapshot(b: Bill): Bill {
    Bill(b.id, b.account, b.status, b.currency, b.total, b.count, b.createdAt, None, b.periodStart, b.periodEnd, NoReason)
  }

  function NextInput(input: Input, b: Bill, order: seq<ItemId>): Input {
    Input(input.bill, input.account, input.currency, input.periodStart, input.periodEnd, Some(Snapshot(b)), order)
  }

  /** The first thing the selector coroutine does: a period end in the past wins at once. */
  function SelectorFirst(c: Chain): Selector {
    if PeriodOver(c) then Fired(PeriodEnd) else Armed
  }

  /** What awaitCloseOrThreshold returns when its condition holds. */
  function Reason(c: Chain): CloseReason {
    if c.selector.Fired? then c.selector.reason else NoReason
  }

  function Next(cfg: Config, c: Chain, m: Move): Chain
    requires Allowed(cfg, c, m)
  {
    match m
    case Work(w) =>
      var c' := c.(ledger := Apply(c.ledger, w));
      if w.CreateAck? then c'.(phase := Waiting) else if w.CreateGiveUp? then c'.(phase := Stopped) else c'
    case Tick(t) => c.(now := t)
    case SignalArrives => c.(signals := c.signals + 1, arrived := c.arrived + 1)
    case MainYields => c.(yielded := true)
    case SelectorStarts => c.(selector := SelectorFirst(c))
    case SelectorTakesSignal => c.(selector := Fired(Signal), signals := c.signals - 1, consumed := c.consumed + 1)
    case SelectorTimerFires => c.(selector := Fired(PeriodEnd))
    case WaitReturns => c.(phase := Draining(Reason(c)))
    case Rollover(order, kept) =>
      var input := NextInput(c.input, c.ledger.bill, order);
      var bill := InitialBill(input, c.now);
      Chain(input, c.ledger.(bill := bill, seen := InitialSeen(input)), Waiting, false, Unstarted,
            kept, c.arrived, 0, bill.count, c.rollovers + 1, c.now)
    case Closes => c.(ledger := Apply(c.ledger, Finalize(c.phase.reason, c.now)), phase := Finishing)
  }

  /** The ledger steps a move amounts to: none for control moves, a rollover included. */
  function Trace(c: Chain, m: Move): seq<Step> {
    match m
    case Work(w) => [w]
    case Closes => if c.phase.Draining? then [Finalize(c.phase.reason, c.now)] else []
    case _ => []
  }

  predicate Respects(d: Discipline, c: Chain, m: Move) {
    Trace(c, m) != [] ==> Obeys(d, c.ledger, Trace(c, m)[0])
  }

  function Play(cfg: Config, d: Discipline, c: Chain, moves: seq<Move>): Chain
    requires History(cfg, d, c, moves)
    decreases |moves|, 1
  {
    if moves == [] then c else Next(cfg, Play(cfg, d, c, moves[..|moves| - 1]), moves[|moves| - 1])
  }

  predicate History(cfg: Config, d: Discipline, c: Chain, moves: seq<Move>)
    decreases |moves|, 0
  {
    moves == [] ||
    (var init, last := moves[..|moves| - 1], moves[|moves| - 1];
     && History(cfg, d, c, init)
     && Allowed(cfg, Play(cfg, d, c, init), last)
     && Respects(d, Play(cfg, d, c, init), last))
  }

  function Traces(cfg: Config, d: Discipline, c: Chain, moves: seq<Move>): seq<Step>
    requires History(cfg, d, c, moves)
  {
    if moves == [] then [] else
      Traces(cfg, d, c, moves[..|moves| - 1]) +
      Trace(Play(cfg, d, c, moves[..|moves| - 1]), moves[|moves| - 1])
  }

  lemma HistoryExtend(cfg: Config, d: Discipline, c: Chain, moves: seq<Move>, m: Move)
    requires History(cfg, d, c, moves)
    requires Allowed(cfg, Play(cfg, d, c, moves), m) && Respects(d, Play(cfg, d, c, moves), m)
    ensures History(cfg, d, c, moves + [m]) && Play(cfg, d, c, moves + [m]) == Next(cfg, Play(cfg, d, c, moves), m)
  {
    assert (moves + [m])[..|moves|] == moves;
  }

  predicate GoesTo(cfg: Config, d: Discipline, c: Chain, m: Move, c': Chain) {
    Allowed(cfg, c, m) && Respects(d, c, m) && Next(cfg, c, m) == c'
  }

  /** One move from a known state of a history. */
  lemma Reaches(cfg: Config, d: Discipline, b: Chain, moves: seq<Move>, c: Chain, m: Move, c': Chain)
    returns (moves': seq<Move>)
    requires History(cfg, d, b, moves) && Play(cfg, d, b, moves) == c && GoesTo(cfg, d, c, m, c')
    ensures moves' == moves + [m]
    ensures History(cfg, d, b, moves') && Play(cfg, d, b, moves') == c'
  {
    HistoryExtend(cfg, d, b, moves, m);
    moves' := moves + [m];
  }

  lemma {:induction false} Concatenate(cfg: Config, d: Discipline, c: Chain, xs: seq<Move>, ys: seq<Move>)
    requires History(cfg, d, c, xs) && History(cfg, d, Play(cfg, d, c, xs), ys)
    ensures History(cfg, d, c, xs + ys) && Play(cfg, d, c, xs + ys) == Play(cfg, d, Play(cfg, d, c, xs), ys)
  {
    if ys == [] {
      assert xs + ys == xs;
    } else {
      var init := ys[..|ys| - 1];
      Concatenate(cfg, d, c, xs, init);
      assert (xs + ys)[..|xs + ys| - 1] == xs + init;
    }
  }

  /** The main coroutine's phase and the ledger move together, and every run's input still
      describes the bill. */
  ghost predicate InStep(c: Chain) {
    && Accounting.Identified(c.ledger)
    && c.input.bill == c.ledger.bill.id && c.input.account == c.ledger.bill.account
    && c.input.currency == c.ledger.bill.currency
    && c.input.periodStart == c.ledger.bill.periodStart && c.input.periodEnd == c.ledger.bill.periodEnd
    && match c.phase
       case CreatingRow => c.ledger.creation.Creating? && c.ledger.closing.NotClosing?
       case Waiting => c.ledger.creation.Created? && c.ledger.closing.NotClosing?
       case Draining(_) => c.ledger.creation.Created? && c.ledger.closing.NotClosing?
       case Finishing => c.ledger.creation.Created? && !c.ledger.closing.NotClosing?
       case Stopped => c.ledger.creation.CreateFailed?
  }

  /** Set to list to set is the identity, and so is bill to snapshot to bill while open. */
  lemma HandoffIsIdentity(c: Chain, order: seq<ItemId>)
    requires Accounting.Identified(c.ledger) && c.ledger.closing.NotClosing? && Enumerates(order, c.ledger.seen)
    ensures var input := NextInput(c.input, c.ledger.bill, order);
            InitialBill(input, c.now) == c.ledger.bill && InitialSeen(input) == c.ledger.seen
  {
    var input := NextInput(c.input, c.ledger.bill, order);
    forall id | id in c.ledger.seen ensures id in InitialSeen(input) {
      var k :| 0 <= k < |order| && order[k] == id;
      assert input.seenIds[k] == id;
    }
  }

  /** A move changes the ledger by exactly its trace; a rollover does not change it at all. */
  lemma LedgerMoves(cfg: Config, c: Chain, m: Move)
    requires InStep(c) && Allowed(cfg, c, m)
    ensures Trace(c, m) == [] ==> Next(cfg, c, m).ledger == c.ledger
    ensures Trace(c, m) != [] ==>
      && |Trace(c, m)| == 1 && Enabled(c.ledger, Trace(c, m)[0])
      && Next(cfg, c, m).ledger == Apply(c.ledger, Trace(c, m)[0])
  {
    if m.Rollover? {
      HandoffIsIdentity(c, m.order);
    }
  }

  lemma InStepNext(cfg: Config, c: Chain, m: Move)
    requires InStep(c) && Accounting.Validated(c.ledger) && Allowed(cfg, c, m)
    ensures InStep(Next(cfg, c, m))
  {
    LedgerMoves(cfg, c, m);
    if Trace(c, m) != [] {
      Accounting.IdentifiedStep(c.ledger, Trace(c, m)[0]);
    }
  }

  ghost predicate Sound(c: Chain) {
    InStep(c) && Accounting.Inv(c.ledger)
  }

  lemma SoundNext(cfg: Config, c: Chain, m: Move)
    requires Sound(c) && Allowed(cfg, c, m)
    ensures Sound(Next(cfg, c, m))
  {
    InStepNext(cfg, c, m);
    LedgerMoves(cfg, c, m);
    if Trace(c, m) != [] {
      Accounting.InvStep(c.ledger, Trace(c, m)[0]);
    }
  }

  lemma BeginSound(input: Input, now: Time)
    requires input.snapshot.None? && input.seenIds == []
    ensures Sound(Begin(input, now))
  {
    Accounting.StartInv(input, now);
  }

  lemma {:induction false} PlaySound(cfg: Config, d: Discipline, c: Chain, moves: seq<Move>)
    requires Sound(c) && History(cfg, d, c, moves)
    ensures Sound(Play(cfg, d, c, moves))
  {
    if moves != [] {
      var init := moves[..|moves| - 1];
      PlaySound(cfg, d, c, init);
      SoundNext(cfg, Play(cfg, d, c, init), moves[|moves| - 1]);
    }
  }

  /** Rollover refinement: any chain of runs is one unbounded run that never rolls over, with the
      same memory, tables and replies to every update, whatever the scheduling. */
  lemma {:induction false} ChainRefinesLedger(cfg: Config, d: Discipline, c: Chain, moves: seq<Move>)
    requires Sound(c) && History(cfg, d, c, moves)
    ensures var steps := Traces(cfg, d, c, moves);
      Run(d, c.ledger, steps) && Exec(d, c.ledger, steps) == Play(cfg, d, c, moves).ledger
  {
    if moves != [] {
      var init, m := moves[..|moves| - 1], moves[|moves| - 1];
      ChainRefinesLedger(cfg, d, c, init);
      PlaySound(cfg, d, c, init);
      var mid := Play(cfg, d, c, init);
      var steps := Traces(cfg, d, c, init);
      LedgerMoves(cfg, mid, m);
      if Trace(mid, m) == [] {
        assert Traces(cfg, d, c, moves) == steps;
      } else {
        assert Traces(cfg, d, c, moves) == steps + [Trace(mid, m)[0]];
        RunExtend(d, c.ledger, steps, Trace(mid, m)[0]);
      }
    }
  }

  /** The ledger of a chain as the end of a ledger run. */
  lemma ChainIsRun(cfg: Config, d: Discipline, input: Input, now: Time, moves: seq<Move>) returns (steps: seq<Step>)
    requires input.snapshot.None? && input.seenIds == [] && History(cfg, d, Begin(input, now), moves)
    ensures Run(d, Start(input, now), steps)
    ensures Exec(d, Start(input, now), steps) == Play(cfg, d, Begin(input, now), moves).ledger
  {
    BeginSound(input, now);
    ChainRefinesLedger(cfg, d, Begin(input, now), moves);
    steps := Traces(cfg, d, Begin(input, now), moves);
  }

  /** Close reconciliation over whole chains: any interleaving, retry pattern, scheduling and
      number of rollovers, under D1 to D6. */
  lemma ChainReconciles(cfg: Config, d: Discipline, input: Input, now: Time, moves: seq<Move>)
    requires input.snapshot.None? && input.seenIds == []
    requires Settlement.Strict(d) && History(cfg, d, Begin(input, now), moves)
    ensures Settlement.Reconciled(Play(cfg, d, Begin(input, now), moves).ledger, d.whole)
  {
    var steps := ChainIsRun(cfg, d, input, now, moves);
    Settlement.CloseReconciles(d, input, now, steps);
  }

  /** The same without D3 when no inserting handler gives up. */
  lemma UnabandonedChainReconciles(cfg: Config, d: Discipline, input: Input, now: Time, moves: seq<Move>)
    requires input.snapshot.None? && input.seenIds == []
    requires Settlement.Unabandoned(d) && History(cfg, d, Begin(input, now), moves)
    ensures Settlement.Reconciled(Play(cfg, d, Begin(input, now), moves).ledger, d.whole)
  {
    var steps := ChainIsRun(cfg, d, input, now, moves);
    Settlement.UnabandonedReconciles(d, input, now, steps);
  }

  /** The exact discrepancy between a chain's memory and the table, under D2, D3 and D6; with
      whole amounts, exactly when they agree; with D1 as well, what is missing. */
  lemma ChainDiscrepancy(cfg: Config, d: Discipline, input: Input, now: Time, moves: seq<Move>)
    requires input.snapshot.None? && input.seenIds == []
    requires d.ownItems && d.fixedAmounts && d.startedOnce && History(cfg, d, Begin(input, now), moves)
    ensures var s := Play(cfg, d, Begin(input, now), moves).ledger;
      && Settlement.Discrepant(s, d.whole)
      && (d.whole ==> Settlement.TotalIsSumExactly(s))
      && (d.noOverlap ==> Settlement.CountsOnce(s, d.whole))
  {
    var steps := ChainIsRun(cfg, d, input, now, moves);
    Settlement.Discrepancy(d, input, now, steps);
    if d.whole { Settlement.TotalIsSumIff(d, input, now, steps); }
    if d.noOverlap { Settlement.NoOverlapAccounting(d, input, now, steps); }
  }

  /** Lifetime agreement over whole chains, under D6 alone. */
  lemma ChainAgrees(cfg: Config, d: Discipline, input: Input, now: Time, moves: seq<Move>)
    requires input.snapshot.None? && input.seenIds == []
    requires d.startedOnce && History(cfg, d, Begin(input, now), moves)
    ensures Settlement.Agreed(Play(cfg, d, Begin(input, now), moves).ledger, input, now)
  {
    var steps := ChainIsRun(cfg, d, input, now, moves);
    Settlement.LifetimeAgreement(d, input, now, steps);
  }

  /** Once seen, an item stays seen and stored over any number of rollovers, and every later update
      with its ID is answered with the totals of its moment and changes nothing else. */
  lemma SeenForEver(cfg: Config, d: Discipline, c: Chain, moves: seq<Move>, u: AddLineItem)
    requires Sound(c) && History(cfg, d, c, moves) && u.itemId in c.ledger.seen
    ensures var c' := Play(cfg, d, c, moves);
      && u.itemId in c'.ledger.seen && u.itemId in c.ledger.db.items && u.itemId in c'.ledger.db.items
      && c'.ledger.db.items[u.itemId] == c.ledger.db.items[u.itemId]
      && (Allowed(cfg, c', Work(Update(u, c'.now))) ==>
            var replies := c'.ledger.replies + [Accounting.DuplicateReply(c'.ledger.bill, u)];
            Next(cfg, c', Work(Update(u, c'.now))) == c'.(ledger := c'.ledger.(replies := replies)))
  {
    ChainRefinesLedger(cfg, d, c, moves);
    Accounting.SeenIsDurable(d, c.ledger, Traces(cfg, d, c, moves), u.itemId);
    var s := Play(cfg, d, c, moves).ledger;
    if Live(s) { Accounting.DuplicateIsInert(s, u, Play(cfg, d, c, moves).now); }
  }

  /** Every successful answer a chain has given is true of its acknowledged items, and its item is
      stored and seen. */
  lemma AnswersAreTrue(cfg: Config, d: Discipline, input: Input, now: Time, moves: seq<Move>, j: nat)
    requires input.snapshot.None? && input.seenIds == [] && History(cfg, d, Begin(input, now), moves)
    ensures var s := Play(cfg, d, Begin(input, now), moves).ledger;
      j < |s.replies| && s.replies[j].Accepted? ==>
        && Accounting.Told(s.acked, s.replies[j])
        && s.replies[j].itemId in s.seen && s.replies[j].itemId in s.db.items
  {
    BeginSound(input, now);
    PlaySound(cfg, d, Begin(input, now), moves);
    var s := Play(cfg, d, Begin(input, now), moves).ledger;
    if j < |s.replies| && s.replies[j].Accepted? { Accounting.AnsweredIsStored(s, j); }
  }

  /** What the bill's input demands of an update. */
  predicate WellFormed(input: Input, u: AddLineItem) {
    u.caller == input.account && u.currency == input.currency && u.amount > 0.0 && u.description != ""
  }

  /** Why an update is refused: a stranger is told nothing but that there is no such bill. */
  predicate RefusedFor(input: Input, u: AddLineItem, why: Rejection) {
    match why
    case BillNotFound => u.caller != input.account
    case CurrencyMismatch => u.caller == input.account && u.currency != input.currency
    case AmountNotPositive => u.caller == input.account && u.currency == input.currency && u.amount <= 0.0
    case DescriptionMissing =>
      u.caller == input.account && u.currency == input.currency && u.amount > 0.0 && u.description == ""
  }

  lemma {:induction false} InputCarried(cfg: Config, d: Discipline, c: Chain, moves: seq<Move>)
    requires History(cfg, d, c, moves)
    ensures var c' := Play(cfg, d, c, moves);
      && c'.input.bill == c.input.bill && c'.input.account == c.input.account && c'.input.currency == c.input.currency
      && c'.input.periodStart == c.input.periodStart && c'.input.periodEnd == c.input.periodEnd
  {
    if moves != [] { InputCarried(cfg, d, c, moves[..|moves| - 1]); }
  }

  /** Over any number of rollovers, and whatever the bill's status: an update that is not well-formed
      is refused for its first fault and changes nothing else, one with a seen ID is answered, and
      every other one opens a handler for exactly what it asks. */
  lemma UpdateDecided(cfg: Config, d: Discipline, input: Input, now: Time, moves: seq<Move>, u: AddLineItem)
    requires input.snapshot.None? && input.seenIds == [] && History(cfg, d, Begin(input, now), moves)
    ensures var c := Play(cfg, d, Begin(input, now), moves);
      var m := Work(Update(u, c.now));
      Allowed(cfg, c, m) ==>
        var s, s' := c.ledger, Next(cfg, c, m).ledger;
        && (!WellFormed(input, u) ==>
              exists why :: RefusedFor(input, u, why) && s' == s.(replies := s.replies + [Invalid(why)]))
        && (WellFormed(input, u) && u.itemId in s.seen ==>
              s' == s.(replies := s.replies + [Accepted(u.itemId, s.bill.total, s.bill.count)]))
        && (WellFormed(input, u) && u.itemId !in s.seen ==>
              var i := AppendInput(input.bill, input.account, LineItem(u.itemId, u.description, u.amount, u.currency, c.now));
              s' == s.(inflight := s.inflight[s.next := Handler(i, false)], next := s.next + 1, issued := s.issued + {i}))
  {
    var c := Play(cfg, d, Begin(input, now), moves);
    BeginSound(input, now);
    PlaySound(cfg, d, Begin(input, now), moves);
    InputCarried(cfg, d, Begin(input, now), moves);
    var m := Work(Update(u, c.now));
    if Allowed(cfg, c, m) && !WellFormed(input, u) {
      var why := Validate(c.ledger.bill, u).value;
      assert RefusedFor(input, u, why);
    }
  }
}
