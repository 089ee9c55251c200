/** Rollover progress. The threshold is documented as a cap per run, but the wait tests the item
    count carried across runs, so a run after the first rollover never waits. */
module Progress {
  import opened Model
  import opened Money
  import opened Store
  import opened Ledger
  import opened Workflow
  import Accounting
  import Arbitration

  lemma CountStep(cfg: Config, c: Chain, m: Move)
    requires InStep(c) && Allowed(cfg, c, m)
    ensures Next(cfg, c, m).ledger.bill.count >= c.ledger.bill.count
  {
    LedgerMoves(cfg, c, m);
  }

  /** The item count never falls, rollovers included: at the end of a history it is at least what
      it was after any prefix. */
  lemma {:induction false} CountNeverFalls(cfg: Config, d: Discipline, c: Chain, moves: seq<Move>, k: nat)
    requires Sound(c) && History(cfg, d, c, moves) && k <= |moves|
    ensures History(cfg, d, c, moves[..k])
    ensures Play(cfg, d, c, moves[..k]).ledger.bill.count <= Play(cfg, d, c, moves).ledger.bill.count
  {
    if k < |moves| {
      var init := moves[..|moves| - 1];
      assert init[..k] == moves[..k];
      CountNeverFalls(cfg, d, c, init, k);
      PlaySound(cfg, d, c, init);
      CountStep(cfg, Play(cfg, d, c, init), moves[|moves| - 1]);
    } else {
      assert moves[..k] == moves;
    }
  }

  /** After a rollover: the wait is over before it starts, so the main coroutine does not yield in
      it, the selector has not run, and the wait can only return "no reason". */
  ghost predicate Spinning(c: Chain) {
    c.rollovers > 0 ==>
      && c.ledger.bill.count >= CONTINUE_AS_NEW_THRESHOLD
      && (c.phase.Waiting? || c.phase == Draining(NoReason))
      && (c.phase.Waiting? ==> !c.yielded && c.selector.Unstarted?)
  }

  /** The drain of a threshold return always has a full count behind it. */
  ghost predicate Full(c: Chain) {
    c.phase == Draining(NoReason) ==> c.ledger.bill.count >= CONTINUE_AS_NEW_THRESHOLD
  }

  ghost predicate FiredHasReason(c: Chain) {
    c.selector.Fired? ==> c.selector.reason != NoReason
  }

  lemma SpinningNext(c: Chain, m: Move)
    requires InStep(c) && Spinning(c) && Full(c) && FiredHasReason(c) && Allowed(CODE, c, m)
    ensures var c' := Next(CODE, c, m); Spinning(c') && Full(c') && FiredHasReason(c')
  {
    CountStep(CODE, c, m);
  }

  lemma {:induction false} PlaySpinning(d: Discipline, c: Chain, moves: seq<Move>)
    requires Sound(c) && Spinning(c) && Full(c) && FiredHasReason(c) && History(CODE, d, c, moves)
    ensures var c' := Play(CODE, d, c, moves); Spinning(c') && Full(c') && FiredHasReason(c')
  {
    if moves != [] {
      var init := moves[..|moves| - 1];
      PlaySpinning(d, c, init);
      PlaySound(CODE, d, c, init);
      SpinningNext(Play(CODE, d, c, init), moves[|moves| - 1]);
    }
  }

  /** Once a bill has rolled over it never closes: in every reachable state after a rollover the
      close activity has not been scheduled, and the run is not blocked in its wait. */
  lemma NeverClosesAfterRollover(d: Discipline, input: Input, now: Time, moves: seq<Move>)
    requires input.snapshot.None? && input.seenIds == [] && History(CODE, d, Begin(input, now), moves)
    ensures var c := Play(CODE, d, Begin(input, now), moves);
      && Spinning(c)
      && (c.rollovers > 0 ==>
            && c.ledger.closing.NotClosing? && !c.phase.Finishing?
            && (c.phase.Waiting? ==> !Allowed(CODE, c, MainYields)))
  {
    BeginSound(input, now);
    PlaySound(CODE, d, Begin(input, now), moves);
    PlaySpinning(d, Begin(input, now), moves);
  }

  /** Every rollover accounts for a thousand items of its own. */
  ghost predicate RunsPaid(c: Chain) {
    && c.rollovers * CONTINUE_AS_NEW_THRESHOLD <= c.entry <= c.ledger.bill.count
    && (c.phase == Draining(NoReason) ==> c.ledger.bill.count - c.entry >= CONTINUE_AS_NEW_THRESHOLD)
    && FiredHasReason(c)
  }

  lemma RunsPaidNext(cfg: Config, c: Chain, m: Move)
    requires cfg.perRun && InStep(c) && RunsPaid(c) && Allowed(cfg, c, m)
    ensures RunsPaid(Next(cfg, c, m))
  {
    LedgerMoves(cfg, c, m);
    CountStep(cfg, c, m);
  }

  lemma {:induction false} PlayPaid(cfg: Config, d: Discipline, c: Chain, moves: seq<Move>)
    requires cfg.perRun && Sound(c) && RunsPaid(c) && History(cfg, d, c, moves)
    ensures RunsPaid(Play(cfg, d, c, moves))
  {
    if moves != [] {
      var init := moves[..|moves| - 1];
      PlayPaid(cfg, d, c, init);
      PlaySound(cfg, d, c, init);
      RunsPaidNext(cfg, Play(cfg, d, c, init), moves[|moves| - 1]);
    }
  }

  /** With a counter per run, rollovers are bounded by the acknowledged items. */
  lemma PerRunCounterBoundsRollovers(coop: bool, d: Discipline, input: Input, now: Time, moves: seq<Move>)
    requires input.snapshot.None? && input.seenIds == []
    requires History(Config(coop, true), d, Begin(input, now), moves)
    ensures var c := Play(Config(coop, true), d, Begin(input, now), moves);
            RunsPaid(c) && c.rollovers <= |c.ledger.acked| / 1000
  {
    BeginSound(input, now);
    PlaySound(Config(coop, true), d, Begin(input, now), moves);
    PlayPaid(Config(coop, true), d, Begin(input, now), moves);
  }

  /** n rounds of "the wait returns, roll over": no item, no signal, no clock tick. */
  function Spins(order: seq<ItemId>, n: nat): seq<Move> {
    if n == 0 then [] else Spins(order, n - 1) + [WaitReturns] + [Rollover(order, 0)]
  }

  /** A waiting run with a full count, nothing in flight, and a selector that has not fired. */
  ghost predicate Spinnable(c: Chain, order: seq<ItemId>) {
    && Sound(c) && c.phase.Waiting? && !c.selector.Fired? && c.ledger.inflight == map[]
    && c.ledger.bill.count >= CONTINUE_AS_NEW_THRESHOLD && Enumerates(order, c.ledger.seen)
  }

  lemma SpinOnce(cfg: Config, d: Discipline, c: Chain, order: seq<ItemId>) returns (c1: Chain, c2: Chain)
    requires Spinnable(c, order) && !cfg.perRun
    ensures GoesTo(cfg, d, c, WaitReturns, c1) && GoesTo(cfg, d, c1, Rollover(order, 0), c2)
    ensures Spinnable(c2, order)
    ensures c2.ledger == c.ledger && c2.rollovers == c.rollovers + 1 && c2.now == c.now
  {
    c1 := Next(cfg, c, WaitReturns);
    SoundNext(cfg, c, WaitReturns);
    assert c1 == c.(phase := Draining(NoReason));
    c2 := Next(cfg, c1, Rollover(order, 0));
    SoundNext(cfg, c1, Rollover(order, 0));
    LedgerMoves(cfg, c1, Rollover(order, 0));
  }

  lemma SpinMore(cfg: Config, d: Discipline, b: Chain, moves: seq<Move>, order: seq<ItemId>)
    requires History(cfg, d, b, moves) && Spinnable(Play(cfg, d, b, moves), order) && !cfg.perRun
    ensures var moves' := moves + [WaitReturns] + [Rollover(order, 0)];
      && History(cfg, d, b, moves')
      && var c, c' := Play(cfg, d, b, moves), Play(cfg, d, b, moves');
         Spinnable(c', order) && c'.rollovers == c.rollovers + 1 && c'.ledger == c.ledger && c'.now == c.now
  {
    var c := Play(cfg, d, b, moves);
    var c1, c2 := SpinOnce(cfg, d, c, order);
    var moves1 := Reaches(cfg, d, b, moves, c, WaitReturns, c1);
    var moves2 := Reaches(cfg, d, b, moves1, c1, Rollover(order, 0), c2);
  }

  /** A run with a full count can roll over again and again without ever waiting, handling
      an item or changing anything but the number of runs. */
  lemma {:induction false} SpinForever(coop: bool, d: Discipline, c: Chain, order: seq<ItemId>, n: nat)
    requires Spinnable(c, order)
    ensures var cfg := Config(coop, false);
      && History(cfg, d, c, Spins(order, n))
      && var c' := Play(cfg, d, c, Spins(order, n));
         Spinnable(c', order) && c'.rollovers == c.rollovers + n && c'.ledger == c.ledger && c'.now == c.now
  {
    if n > 0 {
      SpinForever(coop, d, c, order, n - 1);
      SpinMore(Config(coop, false), d, c, Spins(order, n - 1), order);
    }
  }

  function ItemName(n: nat): (id: ItemId)
    ensures |id| == n + 1
  {
    seq(n + 1, _ => 'x')
  }

  /** One unit per item, each under its own name. */
  function Charge(input: Input, n: nat): AddLineItem {
    AddLineItem(ItemName(n), "fee", 1.0, input.currency, input.account)
  }

  function Opening(): seq<Move> {
    [] + [Work(CreateAttempt)] + [Work(CreateAck)] + [MainYields] + [SelectorStarts]
  }

  function Fill(input: Input, now: Time, n: nat): seq<Move> {
    if n == 0 then Opening() else
      Fill(input, now, n - 1) + [Work(Update(Charge(input, n - 1), now))]
      + [Work(AppendAttempt(n - 1))] + [Work(AppendAck(n - 1))]
  }

  predicate OverAtStart(input: Input, now: Time) {
    input.periodEnd.Some? && input.periodEnd.value <= now
  }

  /** The bill after n undisturbed items: blocked in the wait with its selector armed, and the
      handlers of `inflight` still open. */
  ghost predicate Filled(c: Chain, input: Input, now: Time, n: nat, inflight: map<nat, Handler>) {
    && c.phase.Waiting? && c.yielded && c.selector.Armed? && c.rollovers == 0 && c.now == now && c.input == input
    && c.signals == 0 && c.arrived == 0 && c.consumed == 0 && c.entry == 0
    && c.ledger.creation.Created? && c.ledger.closing.NotClosing?
    && c.ledger.inflight == inflight && c.ledger.bill.count == n
    && c.ledger.bill.id == input.bill && c.ledger.bill.account == input.account && c.ledger.bill.currency == input.currency
    && (forall k: nat :: k >= n ==> ItemName(k) !in c.ledger.seen)
    && input.bill in c.ledger.db.bills
  }

  ghost predicate Stored(db: Db, input: Input, n: nat) {
    && input.bill in db.bills && db.bills[input.bill].total == n
    && (forall k: nat :: k >= n ==> ItemName(k) !in db.items)
  }

  ghost predicate Named(c: Chain, n: nat) {
    && c.ledger.next == n
    && (forall i :: i in c.ledger.issued ==> |i.item.id| <= n)
  }

  function ChargeHandler(input: Input, now: Time, n: nat, committed: bool): Handler {
    Handler(AppendInput(input.bill, input.account, LineItem(ItemName(n), "fee", 1.0, input.currency, now)), committed)
  }

  lemma RowStates(cfg: Config, d: Discipline, input: Input, now: Time) returns (c1: Chain, c2: Chain)
    requires input.snapshot.None? && input.seenIds == [] && !OverAtStart(input, now)
    ensures GoesTo(cfg, d, Begin(input, now), Work(CreateAttempt), c1) && GoesTo(cfg, d, c1, Work(CreateAck), c2)
    ensures c2.phase.Waiting? && c2.selector.Unstarted? && c2.ledger.bill.count == 0
    ensures Filled(c2.(yielded := true, selector := Armed), input, now, 0, map[])
    ensures Stored(c2.ledger.db, input, 0) && Named(c2, 0)
  {
    c1 := Next(cfg, Begin(input, now), Work(CreateAttempt));
    c2 := Next(cfg, c1, Work(CreateAck));
  }

  /** The row is created, the main coroutine blocks in the wait, and the selector starts. */
  lemma StartStates(cfg: Config, d: Discipline, input: Input, now: Time) returns (c1: Chain, c2: Chain, c3: Chain, c4: Chain)
    requires input.snapshot.None? && input.seenIds == [] && !OverAtStart(input, now)
    ensures GoesTo(cfg, d, Begin(input, now), Work(CreateAttempt), c1) && GoesTo(cfg, d, c1, Work(CreateAck), c2)
    ensures GoesTo(cfg, d, c2, MainYields, c3) && GoesTo(cfg, d, c3, SelectorStarts, c4)
    ensures Filled(c4, input, now, 0, map[]) && Stored(c4.ledger.db, input, 0) && Named(c4, 0)
  {
    c1, c2 := RowStates(cfg, d, input, now);
    c3 := c2.(yielded := true);
    c4 := c3.(selector := Armed);
  }

  lemma FilledStart(cfg: Config, d: Discipline, input: Input, now: Time)
    requires input.snapshot.None? && input.seenIds == [] && !OverAtStart(input, now)
    ensures History(cfg, d, Begin(input, now), Fill(input, now, 0))
    ensures var c := Play(cfg, d, Begin(input, now), Fill(input, now, 0));
      Filled(c, input, now, 0, map[]) && Stored(c.ledger.db, input, 0) && Named(c, 0)
  {
    var b := Begin(input, now);
    var c1, c2, c3, c4 := StartStates(cfg, d, input, now);
    var moves := Reaches(cfg, d, b, [], b, Work(CreateAttempt), c1);
    moves := Reaches(cfg, d, b, moves, c1, Work(CreateAck), c2);
    moves := Reaches(cfg, d, b, moves, c2, MainYields, c3);
    moves := Reaches(cfg, d, b, moves, c3, SelectorStarts, c4);
    assert moves == Fill(input, now, 0);
  }

  /** A new item k is admitted beside the handlers that are open. */
  lemma ChargeAdmitted(
    cfg: Config, d: Discipline, c: Chain, input: Input, now: Time, n: nat, k: nat, inflight: map<nat, Handler>)
    returns (c': Chain)
    requires Filled(c, input, now, n, inflight) && Stored(c.ledger.db, input, n) && Named(c, k) && n <= k
    requires forall h :: h in inflight ==> |inflight[h].input.item.id| <= k
    ensures GoesTo(cfg, d, c, Work(Update(Charge(input, k), now)), c')
    ensures Filled(c', input, now, n, inflight[k := ChargeHandler(input, now, k, false)])
    ensures c'.ledger.db == c.ledger.db && Named(c', k + 1)
  {
    var m := Work(Update(Charge(input, k), now));
    assert Admits(c.ledger, m.step);
    assert IsWhole(1.0);
    forall i | i in c.ledger.issued ensures i.item.id != ItemName(k) { }
    assert Obeys(d, c.ledger, m.step);
    c' := Next(cfg, c, m);
    assert c'.ledger.inflight == inflight[k := ChargeHandler(input, now, k, false)];
  }

  lemma ChargeStored(cfg: Config, d: Discipline, c: Chain, input: Input, now: Time, n: nat, inflight: map<nat, Handler>)
    returns (c': Chain)
    requires Filled(c, input, now, n, inflight) && n in inflight && inflight[n] == ChargeHandler(input, now, n, false)
    requires Stored(c.ledger.db, input, n) && n + 1 < LIMIT
    ensures GoesTo(cfg, d, c, Work(AppendAttempt(n)), c')
    ensures Filled(c', input, now, n, inflight[n := ChargeHandler(input, now, n, true)])
    ensures Stored(c'.ledger.db, input, n + 1) && c'.ledger.next == c.ledger.next && c'.ledger.issued == c.ledger.issued
  {
    RoundUnique(1.0, 1);
    RoundShift(n, 1.0);
    assert Commit(c.ledger.db, Append(ChargeHandler(input, now, n, false).input)).Some?;
    c' := Next(cfg, c, Work(AppendAttempt(n)));
    assert c'.ledger.inflight == inflight[n := ChargeHandler(input, now, n, true)];
  }

  lemma ChargeAcked(cfg: Config, d: Discipline, c: Chain, input: Input, now: Time, n: nat, inflight: map<nat, Handler>)
    returns (c': Chain)
    requires Filled(c, input, now, n, inflight) && n in inflight && inflight[n] == ChargeHandler(input, now, n, true)
    ensures GoesTo(cfg, d, c, Work(AppendAck(n)), c')
    ensures Filled(c', input, now, n + 1, inflight - {n})
    ensures c'.ledger.db == c.ledger.db && c'.ledger.next == c.ledger.next && c'.ledger.issued == c.ledger.issued
  {
    c' := Next(cfg, c, Work(AppendAck(n)));
  }

  lemma FillOne(cfg: Config, d: Discipline, b: Chain, moves: seq<Move>, input: Input, now: Time, n: nat)
    requires History(cfg, d, b, moves) && n + 1 < LIMIT
    requires var c := Play(cfg, d, b, moves);
      Filled(c, input, now, n, map[]) && Stored(c.ledger.db, input, n) && Named(c, n)
    ensures var moves' := moves + [Work(Update(Charge(input, n), now))] + [Work(AppendAttempt(n))] + [Work(AppendAck(n))];
      && History(cfg, d, b, moves')
      && var c := Play(cfg, d, b, moves');
         Filled(c, input, now, n + 1, map[]) && Stored(c.ledger.db, input, n + 1) && Named(c, n + 1)
  {
    var c := Play(cfg, d, b, moves);
    var open := map[n := ChargeHandler(input, now, n, false)];
    var c1 := ChargeAdmitted(cfg, d, c, input, now, n, n, map[]);
    assert map[][n := ChargeHandler(input, now, n, false)] == open;
    var c2 := ChargeStored(cfg, d, c1, input, now, n, open);
    var c3 := ChargeAcked(cfg, d, c2, input, now, n, c2.ledger.inflight);
    assert c3.ledger.inflight == map[];
    var moves' := Reaches(cfg, d, b, moves, c, Work(Update(Charge(input, n), now)), c1);
    moves' := Reaches(cfg, d, b, moves', c1, Work(AppendAttempt(n)), c2);
    moves' := Reaches(cfg, d, b, moves', c2, Work(AppendAck(n)), c3);
  }

  /** Any number of items below the NUMERIC range can be added one after the other, in a history
      that obeys every side condition. */
  lemma {:induction false} Fillable(cfg: Config, d: Discipline, input: Input, now: Time, n: nat)
    requires input.snapshot.None? && input.seenIds == [] && !OverAtStart(input, now) && n < LIMIT
    ensures History(cfg, d, Begin(input, now), Fill(input, now, n))
    ensures var c := Play(cfg, d, Begin(input, now), Fill(input, now, n));
      Filled(c, input, now, n, map[]) && Stored(c.ledger.db, input, n) && Named(c, n)
  {
    if n == 0 {
      FilledStart(cfg, d, input, now);
    } else {
      Fillable(cfg, d, input, now, n - 1);
      FillOne(cfg, d, Begin(input, now), Fill(input, now, n - 1), input, now, n - 1);
    }
  }

  /** The infinite chain: for every number n of further runs, every bill whose period is not over at
      its start has an undisturbed history that obeys every side condition, handles exactly a
      thousand items, and then rolls over n times without handling another item or closing. */
  lemma StrandedBill(d: Discipline, input: Input, now: Time, n: nat) returns (moves: seq<Move>)
    requires input.snapshot.None? && input.seenIds == [] && !OverAtStart(input, now)
    ensures History(CODE, d, Begin(input, now), moves)
    ensures var c := Play(CODE, d, Begin(input, now), moves);
      c.rollovers == n && |c.ledger.acked| == 1000 && c.ledger.closing.NotClosing?
  {
    var fill := Fill(input, now, CONTINUE_AS_NEW_THRESHOLD);
    Fillable(CODE, d, input, now, CONTINUE_AS_NEW_THRESHOLD);
    BeginSound(input, now);
    PlaySound(CODE, d, Begin(input, now), fill);
    var c := Play(CODE, d, Begin(input, now), fill);
    var order := Enumerable(c.ledger.seen);
    SpinForever(true, d, c, order, n);
    Concatenate(CODE, d, Begin(input, now), fill, Spins(order, n));
    moves := fill + Spins(order, n);
  }

  /** A bill whose period is already over: no item before the selector has started, and once it has
      it has fired. */
  ghost predicate Backdated(c: Chain) {
    && PeriodOver(c) && c.rollovers == 0
    && (c.selector.Unstarted? ==> c.ledger.bill.count == 0 && !c.phase.Draining?)
    && !c.selector.Armed? && (c.selector.Fired? ==> c.selector.reason == PeriodEnd)
    && (c.phase.Draining? ==> c.phase.reason == PeriodEnd)
  }

  lemma BackdatedNext(c: Chain, m: Move)
    requires InStep(c) && Backdated(c) && Allowed(CODE, c, m)
    ensures Backdated(Next(CODE, c, m))
  {
  }

  lemma {:induction false} PlayBackdated(d: Discipline, c: Chain, moves: seq<Move>)
    requires Sound(c) && Backdated(c) && History(CODE, d, c, moves)
    ensures Backdated(Play(CODE, d, c, moves))
  {
    if moves != [] {
      var init := moves[..|moves| - 1];
      PlayBackdated(d, c, init);
      PlaySound(CODE, d, c, init);
      BackdatedNext(Play(CODE, d, c, init), moves[|moves| - 1]);
    }
  }

  ghost predicate RolledOver(d: Discipline, input: Input, now: Time, moves: seq<Move>) {
    History(CODE, d, Begin(input, now), moves) && Play(CODE, d, Begin(input, now), moves).rollovers > 0
  }

  /** A bill can roll over, and so be stranded, exactly when its period is not over at its start: a
      backdated bill fires its selector before its first item, and can only close. */
  lemma StrandedIff(d: Discipline, input: Input, now: Time)
    requires input.snapshot.None? && input.seenIds == []
    ensures (exists moves :: RolledOver(d, input, now, moves)) <==> !OverAtStart(input, now)
  {
    if OverAtStart(input, now) {
      forall moves | History(CODE, d, Begin(input, now), moves) ensures !RolledOver(d, input, now, moves) {
        BeginSound(input, now);
        PlayBackdated(d, Begin(input, now), moves);
      }
    } else {
      var moves := StrandedBill(d, input, now, 1);
      assert RolledOver(d, input, now, moves);
    }
  }

  lemma BothAdmitted(cfg: Config, d: Discipline, c: Chain, input: Input, now: Time, n: nat) returns (c1: Chain, c2: Chain)
    requires Filled(c, input, now, n, map[]) && Stored(c.ledger.db, input, n) && Named(c, n)
    ensures GoesTo(cfg, d, c, Work(Update(Charge(input, n), now)), c1)
    ensures GoesTo(cfg, d, c1, Work(Update(Charge(input, n + 1), now)), c2)
    ensures Filled(c2, input, now, n, c2.ledger.inflight) && Stored(c2.ledger.db, input, n)
    ensures c2.ledger.inflight ==
            map[n := ChargeHandler(input, now, n, false), n + 1 := ChargeHandler(input, now, n + 1, false)]
  {
    c1 := ChargeAdmitted(cfg, d, c, input, now, n, n, map[]);
    c2 := ChargeAdmitted(cfg, d, c1, input, now, n, n + 1, c1.ledger.inflight);
  }

  lemma OneCharged(cfg: Config, d: Discipline, c: Chain, input: Input, now: Time, n: nat) returns (c1: Chain, c2: Chain)
    requires Filled(c, input, now, n, c.ledger.inflight) && Stored(c.ledger.db, input, n) && n + 1 < LIMIT
    requires c.ledger.inflight ==
             map[n := ChargeHandler(input, now, n, false), n + 1 := ChargeHandler(input, now, n + 1, false)]
    ensures GoesTo(cfg, d, c, Work(AppendAttempt(n)), c1) && GoesTo(cfg, d, c1, Work(AppendAck(n)), c2)
    ensures Filled(c2, input, now, n + 1, map[n + 1 := ChargeHandler(input, now, n + 1, false)])
  {
    c1 := ChargeStored(cfg, d, c, input, now, n, c.ledger.inflight);
    c2 := ChargeAcked(cfg, d, c1, input, now, n, c1.ledger.inflight);
    assert c2.ledger.inflight == map[n + 1 := ChargeHandler(input, now, n + 1, false)];
  }

  /** The thousandth item and one more are in flight; the first is acknowledged. */
  lemma OneTooMany(cfg: Config, d: Discipline, input: Input, now: Time, n: nat) returns (c: Chain, moves: seq<Move>)
    requires input.snapshot.None? && input.seenIds == [] && !OverAtStart(input, now) && n + 1 < LIMIT
    ensures History(cfg, d, Begin(input, now), moves) && c == Play(cfg, d, Begin(input, now), moves)
    ensures Filled(c, input, now, n + 1, map[n + 1 := ChargeHandler(input, now, n + 1, false)])
  {
    var b := Begin(input, now);
    moves := Fill(input, now, n);
    Fillable(cfg, d, input, now, n);
    var c0 := Play(cfg, d, b, moves);
    var c1, c2 := BothAdmitted(cfg, d, c0, input, now, n);
    var c3, c4 := OneCharged(cfg, d, c2, input, now, n);
    moves := Reaches(cfg, d, b, moves, c0, Work(Update(Charge(input, n), now)), c1);
    moves := Reaches(cfg, d, b, moves, c1, Work(Update(Charge(input, n + 1), now)), c2);
    moves := Reaches(cfg, d, b, moves, c2, Work(AppendAttempt(n)), c3);
    moves := Reaches(cfg, d, b, moves, c3, Work(AppendAck(n)), c4);
    c := c4;
  }

  /** A full run with one item in flight takes a signal while draining. */
  lemma LostStates(perRun: bool, d: Discipline, c: Chain, input: Input, now: Time, n: nat)
    returns (c2: Chain, c3: Chain, c4: Chain, c5: Chain)
    requires n == CONTINUE_AS_NEW_THRESHOLD && input.periodEnd.None?
    requires Filled(c, input, now, n, map[n := ChargeHandler(input, now, n, false)])
    ensures var cfg := Config(true, perRun);
      && GoesTo(cfg, d, c, WaitReturns, c2) && GoesTo(cfg, d, c2, MainYields, c3)
      && GoesTo(cfg, d, c3, SignalArrives, c4) && GoesTo(cfg, d, c4, SelectorTakesSignal, c5)
    ensures c5 == c.(phase := Draining(NoReason), selector := Fired(Signal), arrived := 1, consumed := 1)
  {
    assert n in c.ledger.inflight;
    c2 := c.(phase := Draining(NoReason));
    c3 := c2;
    c4 := c3.(signals := 1, arrived := 1);
    c5 := c4.(signals := 0, consumed := 1, selector := Fired(Signal));
  }

  lemma DroppedStates(cfg: Config, d: Discipline, c: Chain, n: nat) returns (order: seq<ItemId>, c1: Chain, c2: Chain)
    requires Live(c.ledger) && c.ledger.inflight.Keys == {n} && !c.ledger.inflight[n].committed
    requires c.phase == Draining(NoReason) && !c.selector.Unstarted?
    ensures GoesTo(cfg, d, c, Work(AppendGiveUp(n)), c1) && GoesTo(cfg, d, c1, Rollover(order, 0), c2)
    ensures c2.arrived == c.arrived && c2.signals == 0 && c2.rollovers == c.rollovers + 1
    ensures c2.phase == Waiting && c2.selector == Unstarted && c2.input.periodEnd == c.input.periodEnd
  {
    c1 := Next(cfg, c, Work(AppendGiveUp(n)));
    assert c1.ledger.inflight == map[];
    order := Enumerable(c1.ledger.seen);
    c2 := Next(cfg, c1, Rollover(order, 0));
  }

  /** A close signal can be lost: with one more item in flight the thousandth is acknowledged, the
      threshold fires, the selector takes the signal while the main coroutine drains, and the run
      rolls over. The caller's one signal has arrived, and the bill is waiting for another. */
  lemma SignalLostInDrain(perRun: bool, d: Discipline, input: Input, now: Time) returns (moves: seq<Move>)
    requires input.snapshot.None? && input.seenIds == [] && input.periodEnd.None?
    ensures History(Config(true, perRun), d, Begin(input, now), moves)
    ensures var c := Play(Config(true, perRun), d, Begin(input, now), moves);
      c.arrived == 1 && c.rollovers == 1 && Arbitration.NeedsSignal(c)
  {
    var cfg, n, b := Config(true, perRun), CONTINUE_AS_NEW_THRESHOLD, Begin(input, now);
    var c1;
    c1, moves := OneTooMany(cfg, d, input, now, n - 1);
    var c2, c3, c4, c5 := LostStates(perRun, d, c1, input, now, n);
    var order, c6, c7 := DroppedStates(cfg, d, c5, n);
    moves := Reaches(cfg, d, b, moves, c1, WaitReturns, c2);
    moves := Reaches(cfg, d, b, moves, c2, MainYields, c3);
    moves := Reaches(cfg, d, b, moves, c3, SignalArrives, c4);
    moves := Reaches(cfg, d, b, moves, c4, SelectorTakesSignal, c5);
    moves := Reaches(cfg, d, b, moves, c5, Work(AppendGiveUp(n)), c6);
    moves := Reaches(cfg, d, b, moves, c6, Rollover(order, 0), c7);
  }
}
