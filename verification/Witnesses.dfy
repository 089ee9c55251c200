/** Concrete histories of the code showing that no side condition of the close reconciliation can
    be dropped: each obeys all the others and ends with totals that do not agree. */
module Witnesses {
  import opened Model
  import opened Money
  import opened Sums
  import opened Store
  import opened Ledger
  import opened Workflow

  const BILL: Input := Input("bill", "acct", "USD", None, None, None, [])

  const ROW: BillRow := BillRow("acct", Open, "USD", 0, 0, None, None, None, None)

  const OPENED: Event := Event("bill", "acct", Opened("USD", None, None))

  /** The bill just opened, its main coroutine waiting and its selector armed. */
  function Fresh(): Chain {
    var b := Bill("bill", "acct", Open, "USD", 0.0, 0, 0, None, None, None, NoReason);
    var s := State(b, b, {}, Created, map[], 0, NotClosing, Db(map["bill" := ROW], map[], [OPENED]), {}, [], []);
    Chain(BILL, s, Waiting, true, Armed, 0, 0, 0, 0, 0, 0)
  }

  /** The same over other tables, and before its row is created. */
  function FreshOver(db: Db): Chain {
    Fresh().(ledger := Fresh().ledger.(db := db))
  }

  function BeginOver(db: Db): Chain {
    Begin(BILL, 0).(ledger := Begin(BILL, 0).ledger.(db := db))
  }

  function CreatedOver(db: Db, creation: Creation): Chain {
    BeginOver(db).(ledger := BeginOver(db).ledger.(creation := creation))
  }

  lemma CreateCommits(d: Discipline, db: Db, db': Db)
    requires Commit(db, Create(BeginOver(db).ledger.first)) == Some(db')
    ensures GoesTo(CODE, d, BeginOver(db), Work(CreateAttempt), CreatedOver(db', Creating(true)))
  {
    var s := BeginOver(db).ledger;
    assert Enabled(s, CreateAttempt);
    assert Apply(s, CreateAttempt) == CreatedOver(db', Creating(true)).ledger;
  }

  lemma CreateIsAcked(d: Discipline, db: Db)
    ensures GoesTo(CODE, d, CreatedOver(db, Creating(true)), Work(CreateAck), CreatedOver(db, Created).(phase := Waiting))
  {
    var s := CreatedOver(db, Creating(true)).ledger;
    assert Enabled(s, CreateAck);
    assert Apply(s, CreateAck) == CreatedOver(db, Created).ledger;
  }

  lemma WaitingStates(d: Discipline, db: Db)
    ensures var c := CreatedOver(db, Created).(phase := Waiting);
      GoesTo(CODE, d, c, MainYields, c.(yielded := true)) && GoesTo(CODE, d, c.(yielded := true), SelectorStarts, FreshOver(db))
  {
    assert BeginOver(db).ledger.seen == {};
  }

  /** The row is created, if it is not there yet, and the run starts waiting. */
  lemma Opens(d: Discipline, moves: seq<Move>, db: Db, db': Db) returns (moves': seq<Move>)
    requires History(CODE, d, Begin(BILL, 0), moves) && Play(CODE, d, Begin(BILL, 0), moves) == BeginOver(db)
    requires Commit(db, Create(BeginOver(db).ledger.first)) == Some(db')
    ensures History(CODE, d, Begin(BILL, 0), moves') && Play(CODE, d, Begin(BILL, 0), moves') == FreshOver(db')
  {
    CreateCommits(d, db, db');
    CreateIsAcked(d, db');
    WaitingStates(d, db');
    var c1 := CreatedOver(db', Creating(true));
    var c2 := CreatedOver(db', Created).(phase := Waiting);
    var c3 := c2.(yielded := true);
    moves' := Reaches(CODE, d, Begin(BILL, 0), moves, BeginOver(db), Work(CreateAttempt), c1);
    moves' := Reaches(CODE, d, Begin(BILL, 0), moves', c1, Work(CreateAck), c2);
    moves' := Reaches(CODE, d, Begin(BILL, 0), moves', c2, MainYields, c3);
    moves' := Reaches(CODE, d, Begin(BILL, 0), moves', c3, SelectorStarts, FreshOver(db'));
  }

  lemma CreatesRow()
    ensures BeginOver(EMPTY) == Begin(BILL, 0) && FreshOver(Fresh().ledger.db) == Fresh()
    ensures Commit(EMPTY, Create(Begin(BILL, 0).ledger.first)) == Some(Fresh().ledger.db)
  {
    var db := After(EMPTY, Create(Begin(BILL, 0).ledger.first));
    assert db.bills == map["bill" := ROW] && db.events == [OPENED];
  }

  lemma OpenBill(d: Discipline) returns (moves: seq<Move>)
    ensures History(CODE, d, Begin(BILL, 0), moves) && Play(CODE, d, Begin(BILL, 0), moves) == Fresh()
  {
    CreatesRow();
    moves := Opens(d, [], EMPTY, Fresh().ledger.db);
  }

  predicate Goes(d: Discipline, s: State, step: Step, s': State) {
    && Enabled(s, step) && Obeys(d, s, step) && Apply(s, step) == s'
    && !step.Finalize? && !step.CreateAck? && !step.CreateGiveUp? && (step.Update? ==> step.at == 0)
  }

  /** One ledger step in a history at time zero. */
  lemma Does(d: Discipline, moves: seq<Move>, c: Chain, s: State, step: Step, s': State) returns (moves': seq<Move>)
    requires History(CODE, d, Begin(BILL, 0), moves) && Play(CODE, d, Begin(BILL, 0), moves) == c.(ledger := s)
    requires c.now == 0 && Goes(d, s, step, s') && (OfHandler(step) ==> !c.selector.Unstarted?)
    ensures History(CODE, d, Begin(BILL, 0), moves') && Play(CODE, d, Begin(BILL, 0), moves') == c.(ledger := s')
  {
    moves' := Reaches(CODE, d, Begin(BILL, 0), moves, c.(ledger := s), Work(step), c.(ledger := s'));
  }

  function AfterCapture(s: State): Chain {
    Fresh().(ledger := s, phase := Finishing, selector := Fired(Signal), signals := 0, arrived := 1, consumed := 1)
  }

  lemma CaptureStates(d: Discipline, s: State) returns (c1: Chain, c2: Chain, c3: Chain, s': State)
    requires s.inflight == map[] && s.closing.NotClosing? && s.creation.Created? && Obeys(d, s, Finalize(Signal, 0))
    ensures GoesTo(CODE, d, Fresh().(ledger := s), SignalArrives, c1) && GoesTo(CODE, d, c1, SelectorTakesSignal, c2)
    ensures GoesTo(CODE, d, c2, WaitReturns, c3) && GoesTo(CODE, d, c3, Closes, AfterCapture(s'))
    ensures Enabled(s, Finalize(Signal, 0)) && s' == Apply(s, Finalize(Signal, 0))
  {
    c1 := Fresh().(ledger := s, signals := 1, arrived := 1);
    c2 := c1.(signals := 0, consumed := 1, selector := Fired(Signal));
    c3 := c2.(phase := Draining(Signal));
    s' := Apply(s, Finalize(Signal, 0));
    assert AfterCapture(s') == c3.(ledger := s', phase := Finishing);
  }

  /** The close signal arrives, is taken, the drain is over at once, and the total is captured. */
  lemma Captures(d: Discipline, moves: seq<Move>, s: State) returns (s': State, moves': seq<Move>)
    requires History(CODE, d, Begin(BILL, 0), moves) && Play(CODE, d, Begin(BILL, 0), moves) == Fresh().(ledger := s)
    requires s.inflight == map[] && s.closing.NotClosing? && s.creation.Created? && Obeys(d, s, Finalize(Signal, 0))
    ensures Enabled(s, Finalize(Signal, 0)) && s' == Apply(s, Finalize(Signal, 0))
    ensures History(CODE, d, Begin(BILL, 0), moves') && Play(CODE, d, Begin(BILL, 0), moves') == AfterCapture(s')
  {
    var c1, c2, c3;
    c1, c2, c3, s' := CaptureStates(d, s);
    moves' := Reaches(CODE, d, Begin(BILL, 0), moves, Fresh().(ledger := s), SignalArrives, c1);
    moves' := Reaches(CODE, d, Begin(BILL, 0), moves', c1, SelectorTakesSignal, c2);
    moves' := Reaches(CODE, d, Begin(BILL, 0), moves', c2, WaitReturns, c3);
    moves' := Reaches(CODE, d, Begin(BILL, 0), moves', c3, Closes, AfterCapture(s'));
  }

  ghost predicate EndsAs(s: State, row: int, result: real, items: int) {
    && s.closing.Returned? && s.closing.result.total == result
    && "bill" in s.db.bills && s.db.bills["bill"].total == row
    && Sum(AmountsOf(s.db, "bill")) == items
  }

  /** What a returned bill's item table holds against its row and result. */
  ghost predicate Ends(d: Discipline, moves: seq<Move>, row: int, result: real, items: int) {
    && History(CODE, d, Begin(BILL, 0), moves)
    && EndsAs(Play(CODE, d, Begin(BILL, 0), moves).ledger, row, result, items)
  }

  lemma ReturnStates(d: Discipline, s: State, row: int, items: Amounts) returns (s1: State, s2: State)
    requires s.closing.Persisting? && s.closing.input.bill == "bill" && "bill" in s.db.bills
    requires Round(s.closing.input.total) == row && Fits(row) && AmountsOf(s.db, "bill") == items
    ensures Goes(d, s, CloseAttempt, s1) && Goes(d, s1, CloseAck, s2)
    ensures EndsAs(s2, row, s.bill.total, Sum(items))
  {
    s1 := Apply(s, CloseAttempt);
    s2 := Apply(s1, CloseAck);
    assert AmountsOf(s2.db, "bill") == AmountsOf(s.db, "bill");
  }

  /** The captured close commits and is acknowledged. */
  lemma Returns(d: Discipline, moves: seq<Move>, s: State, row: int, items: Amounts) returns (moves': seq<Move>)
    requires History(CODE, d, Begin(BILL, 0), moves) && Play(CODE, d, Begin(BILL, 0), moves) == AfterCapture(s)
    requires s.closing.Persisting? && s.closing.input.bill == "bill" && "bill" in s.db.bills
    requires Round(s.closing.input.total) == row && Fits(row) && AmountsOf(s.db, "bill") == items
    ensures Ends(d, moves', row, s.bill.total, Sum(items))
  {
    var s1, s2 := ReturnStates(d, s, row, items);
    moves' := Does(d, moves, AfterCapture(s), s, CloseAttempt, s1);
    moves' := Does(d, moves', AfterCapture(s), s1, CloseAck, s2);
  }

  function Charge(amount: real): AddLineItem {
    AddLineItem("item", "fee", amount, "USD", "acct")
  }

  function Appended(amount: real): AppendInput {
    AppendInput("bill", "acct", LineItem("item", "fee", amount, "USD", 0))
  }

  const CHARGE: AddLineItem := Charge(1.0)

  const APPEND: AppendInput := Appended(1.0)

  /** The bill with one unit stored, and nothing else. */
  predicate OneStored(db: Db) {
    && Fresh().ledger.db.bills.Keys == db.bills.Keys
    && AmountsOf(db, "bill") == map["item" := 1]
  }

  lemma StoreOne()
    ensures Commit(Fresh().ledger.db, Append(APPEND)).Some?
    ensures OneStored(After(Fresh().ledger.db, Append(APPEND)))
    ensures "item" in After(Fresh().ledger.db, Append(APPEND)).items
    ensures Sum(map["item" := 1]) == 1
    ensures Commit(After(Fresh().ledger.db, Append(APPEND)), Append(APPEND)) ==
            Some(After(Fresh().ledger.db, Append(APPEND)))
  {
    RoundUnique(1.0, 1);
    SumInsert(map[], "item", 1);
    assert map[]["item" := 1] == map["item" := 1];
  }

  const ALL := Discipline(true, true, true, true, true, true, true, true)

  /** Admitting the charge; what the conditions say about it is left to the caller. */
  lemma Admit(d: Discipline, s: State, amount: real) returns (s': State)
    requires Live(s) && s.bill.id == "bill" && s.bill.account == "acct" && s.bill.currency == "USD"
    requires "item" !in s.seen && amount > 0.0 && Obeys(d, s, Update(Charge(amount), 0))
    ensures Goes(d, s, Update(Charge(amount), 0), s')
    ensures s' == s.(inflight := s.inflight[s.next := Handler(Appended(amount), false)], next := s.next + 1,
                     issued := s.issued + {Appended(amount)})
  {
    s' := Apply(s, Update(Charge(amount), 0));
  }

  lemma Attempt(d: Discipline, s: State, h: nat, amount: real) returns (s': State)
    requires Live(s) && h in s.inflight && s.inflight[h].input == Appended(amount)
    requires Commit(s.db, Append(Appended(amount))).Some?
    ensures Goes(d, s, AppendAttempt(h), s')
    ensures s' == s.(db := After(s.db, Append(Appended(amount))), inflight := s.inflight[h := Handler(Appended(amount), true)])
  {
    s' := Apply(s, AppendAttempt(h));
  }

  lemma Ack(d: Discipline, s: State, h: nat, amount: real) returns (s': State)
    requires Live(s) && h in s.inflight && s.inflight[h] == Handler(Appended(amount), true)
    ensures Goes(d, s, AppendAck(h), s')
    ensures s'.bill == AckedBill(s.bill, amount) && s'.inflight == s.inflight - {h} && s'.db == s.db
    ensures s'.closing == s.closing && s'.creation == s.creation && s'.seen == s.seen + {"item"}
  {
    s' := Apply(s, AppendAck(h));
  }

  lemma FirstCharge(d: Discipline) returns (s: State)
    ensures Goes(d, Fresh().ledger, Update(CHARGE, 0), s)
    ensures s == Fresh().ledger.(inflight := map[0 := Handler(APPEND, false)], next := 1, issued := {APPEND})
  {
    assert IsWhole(1.0);
    s := Admit(d, Fresh().ledger, 1.0);
  }

  lemma OverlapStates(d: Discipline) returns (s1: State, s2: State, s3: State, s4: State)
    requires !d.noOverlap
    ensures Goes(d, Fresh().ledger, Update(CHARGE, 0), s1) && Goes(d, s1, Update(CHARGE, 0), s2)
    ensures Goes(d, s2, AppendAttempt(0), s3) && Goes(d, s3, AppendAttempt(1), s4)
    ensures s4 == s2.(db := s4.db, inflight := map[0 := Handler(APPEND, true), 1 := Handler(APPEND, true)])
    ensures s2 == Fresh().ledger.(inflight := s2.inflight, next := 2, issued := {APPEND}) && OneStored(s4.db)
  {
    StoreOne();
    assert IsWhole(1.0);
    s1 := FirstCharge(d);
    s2 := Admit(d, s1, 1.0);
    s3 := Attempt(d, s2, 0, 1.0);
    s4 := Attempt(d, s3, 1, 1.0);
  }

  lemma BothAcked(d: Discipline, s: State) returns (s1: State, s2: State)
    requires Live(s) && s.inflight == map[0 := Handler(APPEND, true), 1 := Handler(APPEND, true)]
    ensures Goes(d, s, AppendAck(0), s1) && Goes(d, s1, AppendAck(1), s2)
    ensures s2.inflight == map[] && s2.closing == s.closing && s2.creation == s.creation && s2.db == s.db
    ensures s2.bill == AckedBill(AckedBill(s.bill, 1.0), 1.0) && s2.seen == s.seen + {"item"}
  {
    s1 := Ack(d, s, 0, 1.0);
    s2 := Ack(d, s1, 1, 1.0);
  }

  /** A bill waiting with nothing in flight is signalled, captured, closed and returned. */
  lemma Settles(d: Discipline, moves: seq<Move>, s: State, row: int, items: Amounts) returns (moves': seq<Move>)
    requires History(CODE, d, Begin(BILL, 0), moves) && Play(CODE, d, Begin(BILL, 0), moves) == Fresh().(ledger := s)
    requires s.inflight == map[] && s.closing.NotClosing? && s.creation.Created? && Obeys(d, s, Finalize(Signal, 0))
    requires s.bill.id == "bill" && "bill" in s.db.bills && AmountsOf(s.db, "bill") == items
    requires 0 <= row < LIMIT && s.bill.total == row as real
    ensures Ends(d, moves', row, row as real, Sum(items))
  {
    var s';
    s', moves' := Captures(d, moves, s);
    RoundUnique(row as real, row);
    moves' := Returns(d, moves', s', row, items);
  }

  /** The item is charged twice, overlapping, and both executions are acknowledged. */
  lemma Overlaps(d: Discipline) returns (s: State, moves: seq<Move>)
    requires !d.noOverlap
    ensures s.inflight == map[] && s.closing.NotClosing? && s.creation.Created?
    ensures s.bill.total == 2.0 && s.bill.id == "bill" && s.seen == {"item"} && OneStored(s.db)
    ensures History(CODE, d, Begin(BILL, 0), moves) && Play(CODE, d, Begin(BILL, 0), moves) == Fresh().(ledger := s)
  {
    var s1, s2, s3, s4 := OverlapStates(d);
    var s5, s6 := BothAcked(d, s4);
    moves := OpenBill(d);
    moves := Does(d, moves, Fresh(), Fresh().ledger, Update(CHARGE, 0), s1);
    moves := Does(d, moves, Fresh(), s1, Update(CHARGE, 0), s2);
    moves := Does(d, moves, Fresh(), s2, AppendAttempt(0), s3);
    moves := Does(d, moves, Fresh(), s3, AppendAttempt(1), s4);
    moves := Does(d, moves, Fresh(), s4, AppendAck(0), s5);
    moves := Does(d, moves, Fresh(), s5, AppendAck(1), s6);
    s := s6;
  }

  /** With its one item seen, the bill may be captured under every condition. */
  lemma MayCapture(d: Discipline, s: State)
    requires s.bill.id == "bill" && AmountsOf(s.db, "bill").Keys <= s.seen
    ensures Obeys(d, s, Finalize(Signal, 0))
  {
    forall id | id in s.db.items && s.db.items[id].bill == s.bill.id ensures id in s.seen {
      assert id in AmountsOf(s.db, "bill");
    }
  }

  /** D1 alone dropped: two overlapping executions of one item are both added to the total. */
  lemma WithoutNoOverlap() returns (moves: seq<Move>)
    ensures Ends(ALL.(noOverlap := false), moves, 2, 2.0, 1)
  {
    var s;
    s, moves := Overlaps(ALL.(noOverlap := false));
    MayCapture(ALL.(noOverlap := false), s);
    moves := Settles(ALL.(noOverlap := false), moves, s, 2, map["item" := 1]);
    StoreOne();
  }

  /** The bill after its one insert committed and the handler gave up. */
  predicate AbandonedOne(s: State) {
    && s == Fresh().ledger.(next := 1, issued := {APPEND}, db := s.db, replies := s.replies)
    && OneStored(s.db) && "item" in s.db.items && s.db.items["item"].bill == "bill"
    && Commit(s.db, Append(APPEND)) == Some(s.db)
  }

  lemma AbandonStates(d: Discipline) returns (s1: State, s2: State, s3: State)
    requires !d.noneAbandoned
    ensures Goes(d, Fresh().ledger, Update(CHARGE, 0), s1)
    ensures Goes(d, s1, AppendAttempt(0), s2) && Goes(d, s2, AppendGiveUp(0), s3)
    ensures AbandonedOne(s3)
  {
    StoreOne();
    s1 := FirstCharge(d);
    s2 := Attempt(d, s1, 0, 1.0);
    s3 := Apply(s2, AppendGiveUp(0));
    assert s3.inflight == map[];
  }

  lemma Abandons(d: Discipline) returns (s: State, moves: seq<Move>)
    requires !d.noneAbandoned
    ensures AbandonedOne(s)
    ensures History(CODE, d, Begin(BILL, 0), moves) && Play(CODE, d, Begin(BILL, 0), moves) == Fresh().(ledger := s)
  {
    var s1, s2, s3 := AbandonStates(d);
    moves := OpenBill(d);
    moves := Does(d, moves, Fresh(), Fresh().ledger, Update(CHARGE, 0), s1);
    moves := Does(d, moves, Fresh(), s1, AppendAttempt(0), s2);
    moves := Does(d, moves, Fresh(), s2, AppendGiveUp(0), s3);
    s := s3;
  }

  /** D4 alone dropped: an insert whose acknowledgement never arrives is missing from the total. */
  lemma WithoutInsertsAcked() returns (moves: seq<Move>)
    ensures Ends(ALL.(insertsAcked := false, noneAbandoned := false), moves, 0, 0.0, 1)
  {
    var s;
    s, moves := Abandons(ALL.(insertsAcked := false, noneAbandoned := false));
    moves := Settles(ALL.(insertsAcked := false, noneAbandoned := false), moves, s, 0, map["item" := 1]);
    StoreOne();
  }

  lemma GivesUp(d: Discipline, s: State) returns (s': State)
    requires s == Fresh().ledger.(inflight := map[0 := Handler(APPEND, false)], next := 1, issued := {APPEND})
    ensures Goes(d, s, AppendGiveUp(0), s')
    ensures s' == Fresh().ledger.(next := 1, issued := {APPEND}, replies := s'.replies)
  {
    s' := Apply(s, AppendGiveUp(0));
    assert s'.inflight == map[];
  }

  lemma LateStates(d: Discipline) returns (s1: State, s2: State, s3: State)
    requires !d.noneAbandoned
    ensures Goes(d, Fresh().ledger, Update(CHARGE, 0), s1)
    ensures Goes(d, s1, AppendGiveUp(0), s2) && Goes(d, s2, LateAppend(APPEND), s3)
    ensures AbandonedOne(s3)
  {
    StoreOne();
    s1 := FirstCharge(d);
    s2 := GivesUp(d, s1);
    s3 := s2.(db := After(s2.db, Append(APPEND)));
  }

  /** The same when the attempt commits only after its handler has given up. */
  lemma StoredTooLate() returns (moves: seq<Move>)
    ensures Ends(ALL.(insertsAcked := false, noneAbandoned := false), moves, 0, 0.0, 1)
  {
    var d := ALL.(insertsAcked := false, noneAbandoned := false);
    var s1, s2, s3 := LateStates(d);
    moves := OpenBill(d);
    moves := Does(d, moves, Fresh(), Fresh().ledger, Update(CHARGE, 0), s1);
    moves := Does(d, moves, Fresh(), s1, AppendGiveUp(0), s2);
    moves := Does(d, moves, Fresh(), s2, LateAppend(APPEND), s3);
    moves := Settles(d, moves, s3, 0, map["item" := 1]);
    StoreOne();
  }

  /** The item is retried with some amount; the attempt inserts nothing and is acknowledged. */
  lemma RetryStates(d: Discipline, s: State, amount: real) returns (s1: State, s2: State, s3: State)
    requires AbandonedOne(s) && amount > 0.0 && StorableItem(amount) && IsWhole(amount)
    requires d.fixedAmounts ==> amount == 1.0
    ensures Goes(d, s, Update(Charge(amount), 0), s1)
    ensures Goes(d, s1, AppendAttempt(1), s2) && Goes(d, s2, AppendAck(1), s3)
    ensures s3.inflight == map[] && s3.closing.NotClosing? && s3.creation.Created?
    ensures s3.bill.total == amount && s3.bill.id == "bill" && s3.db == s.db && s3.seen == {"item"}
  {
    assert Obeys(d, s, Update(Charge(amount), 0));
    s1 := Admit(d, s, amount);
    assert Commit(s1.db, Append(Appended(amount))) == Some(s1.db);
    s2 := Attempt(d, s1, 1, amount);
    s3 := Ack(d, s2, 1, amount);
  }

  /** A handler whose insert committed gives up, the caller retries, and the retry is counted. */
  lemma Retries(d: Discipline, amount: real, row: int) returns (moves: seq<Move>)
    requires !d.noneAbandoned && (d.fixedAmounts ==> amount == 1.0)
    requires amount == row as real && 0 < row < LIMIT
    ensures Ends(d, moves, row, amount, 1)
  {
    var s;
    s, moves := Abandons(d);
    RoundUnique(amount, row);
    var s1, s2, s3 := RetryStates(d, s, amount);
    moves := Does(d, moves, Fresh(), s, Update(Charge(amount), 0), s1);
    moves := Does(d, moves, Fresh(), s1, AppendAttempt(1), s2);
    moves := Does(d, moves, Fresh(), s2, AppendAck(1), s3);
    MayCapture(d, s3);
    moves := Settles(d, moves, s3, row, map["item" := 1]);
    StoreOne();
  }

  /** D3 alone dropped: the retry carries another amount, the insert is a no-op, and the memory
      counts what the retry carried. */
  lemma WithoutFixedAmounts() returns (moves: seq<Move>)
    ensures Ends(ALL.(fixedAmounts := false, noneAbandoned := false), moves, 2, 2.0, 1)
  {
    moves := Retries(ALL.(fixedAmounts := false, noneAbandoned := false), 2.0, 2);
  }

  /** No side condition is broken by giving up, retrying with the same amount and being
      acknowledged before the close, and the bill reconciles. */
  lemma RetriedInTime() returns (moves: seq<Move>)
    ensures Ends(ALL.(noneAbandoned := false), moves, 1, 1.0, 1)
  {
    moves := Retries(ALL.(noneAbandoned := false), 1.0, 1);
  }

  lemma CapturedStates(d: Discipline, s0: State) returns (s1: State, s2: State, s3: State)
    requires !d.noLateUpdates
    requires Enabled(Fresh().ledger, Finalize(Signal, 0)) && s0 == Apply(Fresh().ledger, Finalize(Signal, 0))
    ensures Goes(d, s0, Update(CHARGE, 0), s1)
    ensures Goes(d, s1, AppendAttempt(0), s2) && Goes(d, s2, AppendAck(0), s3)
    ensures s3.closing == s0.closing && s3.closing.Persisting? && s3.closing.input.total == 0.0
    ensures s3.closing.input.bill == "bill" && s3.bill.total == 1.0 && OneStored(s3.db)
  {
    StoreOne();
    assert IsWhole(1.0);
    s1 := Admit(d, s0, 1.0);
    s2 := Attempt(d, s1, 0, 1.0);
    s3 := Ack(d, s2, 0, 1.0);
  }

  /** D5 alone dropped: an update admitted while the close is pending reaches the result and the
      items, but the row keeps the total captured before it. */
  lemma WithoutNoLateUpdates() returns (moves: seq<Move>)
    ensures Ends(ALL.(noLateUpdates := false), moves, 0, 1.0, 1)
  {
    var d := ALL.(noLateUpdates := false);
    moves := OpenBill(d);
    var s0;
    s0, moves := Captures(d, moves, Fresh().ledger);
    var s1, s2, s3 := CapturedStates(d, s0);
    moves := Does(d, moves, AfterCapture(s0), s0, Update(CHARGE, 0), s1);
    moves := Does(d, moves, AfterCapture(s0), s1, AppendAttempt(0), s2);
    moves := Does(d, moves, AfterCapture(s0), s2, AppendAck(0), s3);
    RoundUnique(0.0, 0);
    StoreOne();
    moves := Returns(d, moves, s3, 0, map["item" := 1]);
  }

  const OTHER: Bill := Bill("other", "acct", Open, "USD", 0.0, 0, 0, None, None, None, NoReason)

  const OTHER_APPEND: AppendInput := AppendInput("other", "acct", LineItem("item", "fee", 1.0, "USD", 0))

  /** A transaction of another workflow. */
  lemma ForeignGoes(d: Discipline, s: State, tx: Tx, db: Db)
    requires d.startedOnce ==> Target(tx) != s.bill.id
    requires tx.Create? ==> tx.bill.status == Open
    requires tx.Append? && tx.append.bill != s.bill.id ==> !IssuedId(s, tx.append.item.id)
    requires Commit(s.db, tx) == Some(db)
    ensures Goes(d, s, Foreign(tx), s.(db := db))
  {
  }

  /** Another bill is opened and charged under the item ID. */
  lemma OtherRun(d: Discipline) returns (moves: seq<Move>, db: Db)
    ensures History(CODE, d, Begin(BILL, 0), moves) && Play(CODE, d, Begin(BILL, 0), moves) == FreshOver(db)
    ensures "bill" in db.bills && "item" in db.items && AmountsOf(db, "bill") == map[]
  {
    RoundUnique(1.0, 1);
    var s := Fresh().ledger;
    var hosted := After(s.db, Create(OTHER));
    db := After(hosted, Append(OTHER_APPEND));
    ForeignGoes(d, s, Create(OTHER), hosted);
    ForeignGoes(d, s.(db := hosted), Append(OTHER_APPEND), db);
    moves := OpenBill(d);
    moves := Does(d, moves, Fresh(), s, Foreign(Create(OTHER)), s.(db := hosted));
    moves := Does(d, moves, Fresh(), s.(db := hosted), Foreign(Append(OTHER_APPEND)), s.(db := db));
  }

  lemma StolenStates(d: Discipline, s: State) returns (s1: State, s2: State, s3: State)
    requires !d.ownItems
    requires s == Fresh().ledger.(db := s.db)
    requires "bill" in s.db.bills && "item" in s.db.items && AmountsOf(s.db, "bill") == map[]
    ensures Goes(d, s, Update(CHARGE, 0), s1)
    ensures Goes(d, s1, AppendAttempt(0), s2) && Goes(d, s2, AppendAck(0), s3)
    ensures s3.inflight == map[] && s3.closing.NotClosing? && s3.creation.Created?
    ensures s3.bill.total == 1.0 && s3.bill.id == "bill" && s3.db == s.db
  {
    RoundUnique(1.0, 1);
    assert IsWhole(1.0);
    s1 := Admit(d, s, 1.0);
    s2 := Attempt(d, s1, 0, 1.0);
    s3 := Ack(d, s2, 0, 1.0);
  }

  /** D2 alone dropped: another bill already owns the item ID, so the append inserts nothing and
      is acknowledged all the same. */
  lemma WithoutOwnItems() returns (moves: seq<Move>)
    ensures Ends(ALL.(ownItems := false), moves, 1, 1.0, 0)
  {
    var d := ALL.(ownItems := false);
    var db;
    moves, db := OtherRun(d);
    var s := FreshOver(db).ledger;
    var s1, s2, s3 := StolenStates(d, s);
    moves := Does(d, moves, Fresh(), s, Update(CHARGE, 0), s1);
    moves := Does(d, moves, Fresh(), s1, AppendAttempt(0), s2);
    moves := Does(d, moves, Fresh(), s2, AppendAck(0), s3);
    MayCapture(d, s3);
    moves := Settles(d, moves, s3, 1, map[]);
  }

  const EARLIER_CLOSE: CloseInput := CloseInput("bill", "acct", 1.0, 0, Signal)

  lemma EarlierTables() returns (db: Db)
    ensures Commit(After(Fresh().ledger.db, Append(APPEND)), Close(EARLIER_CLOSE)) == Some(db)
    ensures "bill" in db.bills && AmountsOf(db, "bill") == map["item" := 1]
  {
    StoreOne();
    RoundUnique(1.0, 1);
    var stored := After(Fresh().ledger.db, Append(APPEND));
    assert "bill" in stored.bills;
    db := After(stored, Close(EARLIER_CLOSE));
    assert AmountsOf(db, "bill") == AmountsOf(stored, "bill");
  }

  /** An earlier run of the bill, over before this one starts: opened, one item, closed. */
  lemma EarlierRun(d: Discipline) returns (moves: seq<Move>, db: Db)
    requires !d.startedOnce
    ensures History(CODE, d, Begin(BILL, 0), moves) && Play(CODE, d, Begin(BILL, 0), moves) == BeginOver(db)
    ensures "bill" in db.bills && AmountsOf(db, "bill") == map["item" := 1]
  {
    CreatesRow();
    StoreOne();
    var b := Begin(BILL, 0);
    var open := Fresh().ledger.db;
    var stored := After(open, Append(APPEND));
    db := EarlierTables();
    ForeignGoes(d, b.ledger, Create(b.ledger.first), open);
    ForeignGoes(d, BeginOver(open).ledger, Append(APPEND), stored);
    ForeignGoes(d, BeginOver(stored).ledger, Close(EARLIER_CLOSE), db);
    moves := Does(d, [], b, b.ledger, Foreign(Create(b.ledger.first)), BeginOver(open).ledger);
    moves := Does(d, moves, b, BeginOver(open).ledger, Foreign(Append(APPEND)), BeginOver(stored).ledger);
    moves := Does(d, moves, b, BeginOver(stored).ledger, Foreign(Close(EARLIER_CLOSE)), BeginOver(db).ledger);
  }

  /** D6 alone dropped: the bill ID is started again after its first run has closed; the new run
      finds its row, counts nothing, and its close overwrites the first one's total. */
  lemma WithoutStartedOnce() returns (moves: seq<Move>)
    ensures Ends(ALL.(startedOnce := false), moves, 0, 0.0, 1)
  {
    var d := ALL.(startedOnce := false);
    var db;
    moves, db := EarlierRun(d);
    moves := Opens(d, moves, db, db);
    moves := Settles(d, moves, FreshOver(db).ledger, 0, map["item" := 1]);
    StoreOne();
  }
}
