/** Where what is recorded comes from: the moment a close was captured, and the update each item
    was requested by. */
module Origin {
  import opened Model
  import opened Money
  import opened Store
  import opened Ledger
  import opened Workflow
  import opened Arbitration
  import Accounting
  import Reconciliation
  import Settlement

  lemma ClockStep(cfg: Config, c: Chain, m: Move)
    requires Allowed(cfg, c, m)
    ensures Next(cfg, c, m).now >= c.now
  {
  }

  /** Prefixes of a history are histories, and the clock only goes forward. */
  lemma {:induction false} Prefix(cfg: Config, d: Discipline, c: Chain, moves: seq<Move>, k: nat)
    requires History(cfg, d, c, moves) && k <= |moves|
    ensures History(cfg, d, c, moves[..k])
    ensures Play(cfg, d, c, moves[..k]).now <= Play(cfg, d, c, moves).now
  {
    if k < |moves| {
      var init := moves[..|moves| - 1];
      assert init[..k] == moves[..k];
      Prefix(cfg, d, c, init, k);
      ClockStep(cfg, Play(cfg, d, c, init), moves[|moves| - 1]);
    } else {
      assert moves[..k] == moves;
    }
  }

  /** Move k captured the close: its total, reason and time are those of that moment. */
  ghost predicate CapturedAt(cfg: Config, d: Discipline, c: Chain, moves: seq<Move>, k: nat, close: CloseInput) {
    && k < |moves| && moves[k] == Closes && History(cfg, d, c, moves[..k])
    && var before := Play(cfg, d, c, moves[..k]);
       close.closedAt == before.now && close.total == before.ledger.bill.total && before.phase == Draining(close.reason)
  }

  lemma CapturedEarlier(
    cfg: Config, d: Discipline, c: Chain, init: seq<Move>, moves: seq<Move>, k: nat, close: CloseInput)
    requires CapturedAt(cfg, d, c, init, k, close) && init <= moves
    ensures CapturedAt(cfg, d, c, moves, k, close)
  {
    assert init[..k] == moves[..k];
  }

  lemma CaptureStep(cfg: Config, c: Chain, m: Move)
    requires InStep(c) && Allowed(cfg, c, m) && !Next(cfg, c, m).ledger.closing.NotClosing?
    ensures var close := Next(cfg, c, m).ledger.closing.input;
      if m == Closes then
        close.closedAt == c.now && close.total == c.ledger.bill.total && c.phase == Draining(close.reason)
      else
        !c.ledger.closing.NotClosing? && close == c.ledger.closing.input
  {
    LedgerMoves(cfg, c, m);
  }

  lemma {:induction false} CaptureFound(cfg: Config, d: Discipline, c: Chain, moves: seq<Move>) returns (k: nat)
    requires Sound(c) && c.ledger.closing.NotClosing? && History(cfg, d, c, moves)
    requires !Play(cfg, d, c, moves).ledger.closing.NotClosing?
    ensures CapturedAt(cfg, d, c, moves, k, Play(cfg, d, c, moves).ledger.closing.input)
  {
    var init, m := moves[..|moves| - 1], moves[|moves| - 1];
    PlaySound(cfg, d, c, init);
    CaptureStep(cfg, Play(cfg, d, c, init), m);
    if m == Closes {
      k := |init|;
    } else {
      k := CaptureFound(cfg, d, c, init);
      CapturedEarlier(cfg, d, c, init, moves, k, Play(cfg, d, c, moves).ledger.closing.input);
    }
  }

  /** Move k took the close signal. */
  ghost predicate TakenAt(cfg: Config, d: Discipline, c: Chain, moves: seq<Move>, k: nat) {
    k < |moves| && moves[k] == SelectorTakesSignal && History(cfg, d, c, moves[..k])
  }

  lemma {:induction false} TakenFound(cfg: Config, d: Discipline, c: Chain, moves: seq<Move>) returns (k: nat)
    requires !c.selector.Fired? && History(cfg, d, c, moves) && Play(cfg, d, c, moves).selector == Fired(Signal)
    ensures TakenAt(cfg, d, c, moves, k)
  {
    var init, m := moves[..|moves| - 1], moves[|moves| - 1];
    if m == SelectorTakesSignal {
      k := |init|;
    } else {
      k := TakenFound(cfg, d, c, init);
      assert init[..k] == moves[..k];
    }
  }

  /** The close of every history is stamped with the clock of the move that captured it; a signalled
      one no earlier than the signal was taken, one for the period no earlier than its end. */
  lemma ClosedWhenCaptured(cfg: Config, d: Discipline, input: Input, now: Time, moves: seq<Move>) returns (k: nat, j: nat)
    requires input.snapshot.None? && input.seenIds == [] && History(cfg, d, Begin(input, now), moves)
    requires !Play(cfg, d, Begin(input, now), moves).ledger.closing.NotClosing?
    ensures var close := Play(cfg, d, Begin(input, now), moves).ledger.closing.input;
      && CapturedAt(cfg, d, Begin(input, now), moves, k, close)
      && (close.reason == Signal ==>
            && j < k && TakenAt(cfg, d, Begin(input, now), moves, j)
            && Play(cfg, d, Begin(input, now), moves[..j]).now <= close.closedAt)
      && (close.reason == PeriodEnd ==> input.periodEnd.Some? && input.periodEnd.value <= close.closedAt)
  {
    var b := Begin(input, now);
    var close := Play(cfg, d, b, moves).ledger.closing.input;
    BeginSound(input, now);
    k := CaptureFound(cfg, d, b, moves);
    j := 0;
    CloseIsBacked(cfg, d, input, now, moves);
    if close.reason == Signal {
      PlaySound(cfg, d, b, moves[..k]);
      PlayBacked(cfg, d, b, moves[..k]);
      j := TakenFound(cfg, d, b, moves[..k]);
      assert moves[..k][..j] == moves[..j];
      Prefix(cfg, d, b, moves[..k], j);
    }
  }

  /** What an update asks to be stored, at this moment. */
  function Asked(bill: BillId, u: AddLineItem, now: Time): AppendInput {
    AppendInput(bill, u.caller, LineItem(u.itemId, u.description, u.amount, u.currency, now))
  }

  /** Move k is an update that asked for exactly this append, at the clock of that moment. */
  ghost predicate RequestedAt(cfg: Config, d: Discipline, c: Chain, moves: seq<Move>, k: nat, i: AppendInput) {
    && k < |moves| && History(cfg, d, c, moves[..k])
    && moves[k].Work? && moves[k].step.Update?
    && WellFormed(c.input, moves[k].step.update)
    && i == Asked(c.input.bill, moves[k].step.update, Play(cfg, d, c, moves[..k]).now)
  }

  lemma RequestedEarlier(
    cfg: Config, d: Discipline, c: Chain, init: seq<Move>, moves: seq<Move>, k: nat, i: AppendInput)
    requires RequestedAt(cfg, d, c, init, k, i) && init <= moves
    ensures RequestedAt(cfg, d, c, moves, k, i)
  {
    assert init[..k] == moves[..k];
  }

  lemma IssuedStep(cfg: Config, c: Chain, m: Move, i: AppendInput)
    requires InStep(c) && Allowed(cfg, c, m) && i in Next(cfg, c, m).ledger.issued && i !in c.ledger.issued
    ensures m.Work? && m.step.Update? && WellFormed(c.input, m.step.update) && i == Asked(c.input.bill, m.step.update, c.now)
  {
    LedgerMoves(cfg, c, m);
  }

  lemma {:induction false} RequestFound(cfg: Config, d: Discipline, c: Chain, moves: seq<Move>, i: AppendInput)
    returns (k: nat)
    requires Sound(c) && c.ledger.issued == {} && History(cfg, d, c, moves)
    requires i in Play(cfg, d, c, moves).ledger.issued
    ensures RequestedAt(cfg, d, c, moves, k, i)
  {
    var init, m := moves[..|moves| - 1], moves[|moves| - 1];
    if i in Play(cfg, d, c, init).ledger.issued {
      k := RequestFound(cfg, d, c, init, i);
      RequestedEarlier(cfg, d, c, init, moves, k, i);
    } else {
      PlaySound(cfg, d, c, init);
      IssuedStep(cfg, Play(cfg, d, c, init), m, i);
      InputCarried(cfg, d, c, init);
      k := |init|;
    }
  }

  /** Every item a chain has acknowledged was requested by some update of its history, with that
      amount, description and currency, by the account, and stamped with the clock of that move. */
  lemma AckedWasRequested(cfg: Config, d: Discipline, input: Input, now: Time, moves: seq<Move>, n: nat) returns (k: nat)
    requires input.snapshot.None? && input.seenIds == [] && History(cfg, d, Begin(input, now), moves)
    requires n < |Play(cfg, d, Begin(input, now), moves).ledger.acked|
    ensures RequestedAt(cfg, d, Begin(input, now), moves, k, Play(cfg, d, Begin(input, now), moves).ledger.acked[n])
  {
    var b := Begin(input, now);
    BeginSound(input, now);
    PlaySound(cfg, d, b, moves);
    k := RequestFound(cfg, d, b, moves, Play(cfg, d, b, moves).ledger.acked[n]);
  }

  /** Under D6 every stored item of the bill was requested so, and stored at the rounded amount. */
  lemma StoredWasRequested(cfg: Config, d: Discipline, input: Input, now: Time, moves: seq<Move>, id: ItemId)
    returns (k: nat, i: AppendInput)
    requires input.snapshot.None? && input.seenIds == [] && d.startedOnce && History(cfg, d, Begin(input, now), moves)
    requires var items := Play(cfg, d, Begin(input, now), moves).ledger.db.items;
      id in items && items[id].bill == input.bill
    ensures RequestedAt(cfg, d, Begin(input, now), moves, k, i) && i.item.id == id
    ensures Play(cfg, d, Begin(input, now), moves).ledger.db.items[id] ==
            ItemRow(input.bill, i.item.description, Round(i.item.amount), input.currency, i.item.createdAt)
  {
    var b := Begin(input, now);
    ChainAgrees(cfg, d, input, now, moves);
    var s := Play(cfg, d, b, moves).ledger;
    assert Reconciliation.FromIssued(s, id);
    i :| i in s.issued && i.item.id == id && s.db.items[id] == Reconciliation.RowOf(i);
    BeginSound(input, now);
    k := RequestFound(cfg, d, b, moves, i);
  }

  function UpdatesIn(moves: seq<Move>): nat {
    if moves == [] then 0 else
      var m := moves[|moves| - 1];
      UpdatesIn(moves[..|moves| - 1]) + (if m.Work? && m.step.Update? then 1 else 0)
  }

  lemma AnswersMove(cfg: Config, c: Chain, m: Move)
    requires Sound(c) && Allowed(cfg, c, m)
    ensures Accounting.Asked(Next(cfg, c, m).ledger) ==
            Accounting.Asked(c.ledger) + (if m.Work? && m.step.Update? then 1 else 0)
  {
    LedgerMoves(cfg, c, m);
    if Trace(c, m) != [] { Accounting.HandlersStep(c.ledger, Trace(c, m)[0]); }
  }

  lemma {:induction false} AskedInChain(cfg: Config, d: Discipline, c: Chain, moves: seq<Move>)
    requires Sound(c) && History(cfg, d, c, moves)
    ensures Accounting.Asked(Play(cfg, d, c, moves).ledger) == Accounting.Asked(c.ledger) + UpdatesIn(moves)
  {
    if moves != [] {
      var init := moves[..|moves| - 1];
      AskedInChain(cfg, d, c, init);
      PlaySound(cfg, d, c, init);
      AnswersMove(cfg, Play(cfg, d, c, init), moves[|moves| - 1]);
    }
  }

  /** The drain loses nobody: whenever a run rolls over or captures its close, every update the chain
      has taken has been answered. */
  lemma AllAnsweredAtHandoff(cfg: Config, d: Discipline, input: Input, now: Time, moves: seq<Move>, k: nat)
    requires input.snapshot.None? && input.seenIds == [] && History(cfg, d, Begin(input, now), moves)
    requires k < |moves| && (moves[k].Rollover? || moves[k].Closes?)
    ensures History(cfg, d, Begin(input, now), moves[..k])
    ensures |Play(cfg, d, Begin(input, now), moves[..k]).ledger.replies| == UpdatesIn(moves[..k])
  {
    var b := Begin(input, now);
    Prefix(cfg, d, b, moves, k);
    Prefix(cfg, d, b, moves, k + 1);
    assert moves[..k + 1][..k] == moves[..k] && moves[..k + 1][k] == moves[k];
    BeginSound(input, now);
    AskedInChain(cfg, d, b, moves[..k]);
  }
}
