/** When the NUMERIC range makes the order of append attempts matter: an exact, order-free condition
    on the tables and the set of lines delivered. */
module Capacity {
  import opened Model
  import opened Money
  import opened Sums
  import opened Store
  import opened AuditLog
  import opened Delivery

  /** Every bill's total is a non-negative NUMERIC. */
  ghost predicate Balanced(db: Db) {
    forall b :: b in db.bills ==> 0 <= db.bills[b].total < LIMIT
  }

  /** What a line adds to a bill. */
  function Charge(l: Line, b: BillId): int {
    if l.bill == b then Round(l.amount) else 0
  }

  /** What a set of lines adds to a bill. */
  ghost function Charged(lines: set<Line>, b: BillId): int
    decreases |lines|
  {
    if lines == {} then 0 else
      var l :| l in lines;
      Charge(l, b) + Charged(lines - {l}, b)
  }

  lemma {:induction false} ChargedRemove(lines: set<Line>, l: Line, b: BillId)
    requires l in lines
    ensures Charged(lines, b) == Charge(l, b) + Charged(lines - {l}, b)
    decreases |lines|
  {
    var m :| m in lines && Charged(lines, b) == Charge(m, b) + Charged(lines - {m}, b);
    if m != l {
      ChargedRemove(lines - {m}, l, b);
      ChargedRemove(lines - {l}, m, b);
      assert lines - {m} - {l} == lines - {l} - {m};
    }
  }

  lemma ChargedInsert(lines: set<Line>, l: Line, b: BillId)
    requires l !in lines
    ensures Charged(lines + {l}, b) == Charged(lines, b) + Charge(l, b)
  {
    ChargedRemove(lines + {l}, l, b);
    assert lines + {l} - {l} == lines;
  }

  ghost predicate Positive(lines: set<Line>) {
    forall l :: l in lines ==> Round(l.amount) > 0
  }

  /** Fewer lines add less. */
  lemma {:induction false} ChargedMonotone(some: set<Line>, all: set<Line>, b: BillId)
    requires some <= all && Positive(all)
    ensures 0 <= Charged(some, b) <= Charged(all, b)
    decreases |all|
  {
    if l :| l in all && l !in some {
      ChargedMonotone(some, all - {l}, b);
      ChargedRemove(all, l, b);
    } else if l :| l in all {
      assert some == all;
      ChargedMonotone(some - {l}, all - {l}, b);
      ChargedRemove(all, l, b);
    } else {
      assert some == {} && all == {};
    }
  }

  /** The lines of another bill do not matter. */
  lemma {:induction false} ChargedSame(some: set<Line>, all: set<Line>, b: BillId)
    requires some <= all && forall l :: l in all && l !in some ==> l.bill != b
    ensures Charged(some, b) == Charged(all, b)
    decreases |all|
  {
    if l :| l in all && l !in some {
      ChargedSame(some, all - {l}, b);
      ChargedRemove(all, l, b);
    } else {
      assert some == all;
    }
  }

  /** The acceptable lines that fit beside their bill's total one at a time. */
  function Fitting(db: Db, lines: set<Line>): set<Line> {
    set l | l in lines && l.bill in db.bills && StorableItem(l.amount) && l.id !in db.items
            && db.bills[l.bill].total + Round(l.amount) < LIMIT
  }

  lemma FittingPositive(db: Db, lines: set<Line>)
    ensures Fitting(db, lines) <= lines && Positive(Fitting(db, lines))
  {
  }

  /** All of them fit together, on every bill. */
  ghost predicate AllFit(db: Db, lines: set<Line>) {
    forall b :: b in db.bills ==> db.bills[b].total + Charged(Fitting(db, lines), b) < LIMIT
  }

  function KeptBy(mid: Db, last: AppendInput): set<Line> {
    if Inserts(mid, Append(last)) then {LineOf(last)} else {}
  }

  /** The lines that a delivery stored. */
  function Kept(db: Db, ins: seq<AppendInput>): set<Line> {
    if ins == [] then {} else
      var init, last := ins[..|ins| - 1], ins[|ins| - 1];
      Kept(db, init) + KeptBy(Deliver(db, init), last)
  }

  ghost predicate TotalsGrew(db: Db, kept: set<Line>, db': Db) {
    forall b :: b in db.bills ==> b in db'.bills && db'.bills[b].total == db.bills[b].total + Charged(kept, b)
  }

  /** The tables after a delivery that stored exactly these lines. */
  ghost predicate Delivered(db: Db, kept: set<Line>, db': Db) {
    && Stored(db, kept, db') && SameBills(db, db') && Balanced(db') && TotalsGrew(db, kept, db')
    && Added(db'.events) == Added(db.events) + multiset(kept)
  }

  /** What an insert does to its bill's total. */
  lemma InsertTotal(db: Db, i: AppendInput)
    requires Balanced(db) && i.bill in db.bills && StorableItem(i.item.amount) && i.item.id !in db.items
    ensures Inserts(db, Append(i)) <==> db.bills[i.bill].total + Round(i.item.amount) < LIMIT
    ensures Inserts(db, Append(i)) ==>
      After(db, Append(i)).bills == db.bills[i.bill := db.bills[i.bill].(total := db.bills[i.bill].total + Round(i.item.amount))]
  {
    AppendTotal(db, i);
  }

  /** Exactly when an append attempt commits: a positive storable amount, and either the item is there
      already, whoever's it is, or its bill is and has room. */
  lemma AppendCommitsIff(db: Db, i: AppendInput)
    requires Balanced(db)
    ensures Commit(db, Append(i)).Some? <==>
      && 0 < Round(i.item.amount) < LIMIT
      && (i.item.id in db.items ||
          (i.bill in db.bills && db.bills[i.bill].total + Round(i.item.amount) < LIMIT))
  {
    if i.bill in db.bills && StorableItem(i.item.amount) && i.item.id !in db.items { InsertTotal(db, i); }
  }

  lemma InsertNeeds(db: Db, i: AppendInput)
    requires Inserts(db, Append(i))
    ensures i.bill in db.bills && StorableItem(i.item.amount) && i.item.id !in db.items && Round(i.item.amount) > 0
  {
  }

  lemma NothingNew(mid: Db, last: AppendInput)
    requires !Inserts(mid, Append(last))
    ensures After(mid, Append(last)) == mid
  {
  }

  lemma KeptIsOld(db: Db, kept: set<Line>, mid: Db, id: ItemId)
    requires Stored(db, kept, mid) && id !in mid.items
    ensures forall m :: m in kept ==> m.id != id
  {
  }

  lemma TotalsNew(db: Db, kept: set<Line>, mid: Db, last: AppendInput)
    requires Balanced(mid) && SameBills(db, mid) && TotalsGrew(db, kept, mid)
    requires Inserts(mid, Append(last)) && LineOf(last) !in kept
    ensures TotalsGrew(db, kept + {LineOf(last)}, After(mid, Append(last))) && Balanced(After(mid, Append(last)))
  {
    InsertNeeds(mid, last);
    InsertTotal(mid, last);
    forall b | b in db.bills
      ensures b in After(mid, Append(last)).bills
      ensures After(mid, Append(last)).bills[b].total == db.bills[b].total + Charged(kept + {LineOf(last)}, b)
    {
      ChargedInsert(kept, LineOf(last), b);
    }
  }

  lemma EventsNew(kept: set<Line>, mid: Db, last: AppendInput)
    requires Inserts(mid, Append(last)) && LineOf(last) !in kept
    ensures Added(After(mid, Append(last)).events) == Added(mid.events) + multiset{LineOf(last)}
    ensures multiset(kept + {LineOf(last)}) == multiset(kept) + multiset{LineOf(last)}
  {
    assert After(mid, Append(last)).events[..|mid.events|] == mid.events;
  }

  lemma KeptNew(db: Db, kept: set<Line>, mid: Db, last: AppendInput)
    requires Delivered(db, kept, mid) && Inserts(mid, Append(last))
    ensures LineOf(last) !in kept
    ensures Delivered(db, kept + {LineOf(last)}, After(mid, Append(last)))
  {
    InsertNeeds(mid, last);
    KeptIsOld(db, kept, mid, last.item.id);
    StoredNew(db, kept, mid, last);
    AppendKeepsBills(mid, last);
    TotalsNew(db, kept, mid, last);
    EventsNew(kept, mid, last);
  }

  /** A line that is stored fitted beside the first total too, because totals only grow. */
  lemma KeptFits(db: Db, kept: set<Line>, mid: Db, last: AppendInput, lines: set<Line>)
    requires Delivered(db, kept, mid) && Positive(kept) && Inserts(mid, Append(last)) && LineOf(last) in lines
    ensures LineOf(last) in Fitting(db, lines)
  {
    InsertNeeds(mid, last);
    InsertTotal(mid, last);
    ChargedMonotone({}, kept, last.bill);
    assert last.bill in db.bills && last.item.id !in db.items;
  }

  lemma FittingGrows(db: Db, some: set<Line>, all: set<Line>)
    requires some <= all
    ensures Fitting(db, some) <= Fitting(db, all)
  {
  }

  lemma KeepsNext(db: Db, kept: set<Line>, mid: Db, last: AppendInput, lines: set<Line>)
    requires Delivered(db, kept, mid) && kept <= Fitting(db, lines) && LineOf(last) in lines
    ensures Delivered(db, kept + KeptBy(mid, last), After(mid, Append(last)))
    ensures kept + KeptBy(mid, last) <= Fitting(db, lines)
  {
    if Inserts(mid, Append(last)) {
      FittingPositive(db, lines);
      KeptNew(db, kept, mid, last);
      KeptFits(db, kept, mid, last, lines);
    } else {
      NothingNew(mid, last);
      assert kept + {} == kept;
    }
  }

  /** Every delivery stores some of the fitting lines, and nothing else. */
  lemma {:induction false} DeliverKeeps(db: Db, ins: seq<AppendInput>)
    requires Balanced(db)
    ensures Delivered(db, Kept(db, ins), Deliver(db, ins))
    ensures Kept(db, ins) <= Fitting(db, Lines(ins))
  {
    if ins != [] {
      var init, last := ins[..|ins| - 1], ins[|ins| - 1];
      LinesInit(ins);
      DeliverKeeps(db, init);
      FittingGrows(db, Lines(init), Lines(ins));
      KeepsNext(db, Kept(db, init), Deliver(db, init), last, Lines(ins));
    }
  }

  /** The ID of a new line is in the table only if the line itself was stored. */
  lemma StoredIsKept(db: Db, kept: set<Line>, mid: Db, l: Line, lines: set<Line>)
    requires OneMeaning(lines) && kept <= lines && Stored(db, kept, mid)
    requires l in lines && l.id !in db.items && l.id in mid.items
    ensures l in kept
  {
    var m :| m in kept && m.id == l.id;
    assert m in lines && l in lines;
  }

  lemma NotYetStored(db: Db, kept: set<Line>, mid: Db, l: Line, lines: set<Line>)
    requires OneMeaning(lines) && kept <= lines && Stored(db, kept, mid) && l in Fitting(db, lines) && l !in kept
    ensures l.id !in mid.items
  {
    if l.id in mid.items { StoredIsKept(db, kept, mid, l, lines); }
  }

  /** Among lines that fit together, a fitting line that is not stored yet is stored. */
  lemma FitsNow(db: Db, kept: set<Line>, mid: Db, last: AppendInput, lines: set<Line>)
    requires OneMeaning(lines) && AllFit(db, lines) && kept <= Fitting(db, lines)
    requires Delivered(db, kept, mid) && LineOf(last) in Fitting(db, lines) && LineOf(last) !in kept
    ensures Inserts(mid, Append(last))
  {
    FittingPositive(db, lines);
    NotYetStored(db, kept, mid, LineOf(last), lines);
    ChargedInsert(kept, LineOf(last), last.bill);
    ChargedMonotone(kept + {LineOf(last)}, Fitting(db, lines), last.bill);
    InsertTotal(mid, last);
  }

  lemma AllFitFewer(db: Db, some: set<Line>, all: set<Line>)
    requires some <= all && AllFit(db, all)
    ensures AllFit(db, some)
  {
    FittingGrows(db, some, all);
    FittingPositive(db, all);
    forall b | b in db.bills ensures db.bills[b].total + Charged(Fitting(db, some), b) < LIMIT {
      ChargedMonotone(Fitting(db, some), Fitting(db, all), b);
    }
  }

  lemma FittingNext(db: Db, some: set<Line>, l: Line)
    ensures Fitting(db, some + {l}) <= Fitting(db, some) + {l}
  {
  }

  lemma AllNext(db: Db, mid: Db, last: AppendInput, some: set<Line>)
    requires OneMeaning(some + {LineOf(last)}) && AllFit(db, some + {LineOf(last)})
    requires Delivered(db, Fitting(db, some), mid)
    ensures Fitting(db, some + {LineOf(last)}) <= Fitting(db, some) + KeptBy(mid, last)
  {
    var all := some + {LineOf(last)};
    FittingNext(db, some, LineOf(last));
    FittingGrows(db, some, all);
    if LineOf(last) in Fitting(db, all) && LineOf(last) !in Fitting(db, some) {
      FitsNow(db, Fitting(db, some), mid, last, all);
    }
  }

  /** Lines that fit together are all stored, in any order. */
  lemma {:induction false} KeptAll(db: Db, ins: seq<AppendInput>)
    requires OneMeaning(Lines(ins)) && Balanced(db) && AllFit(db, Lines(ins))
    ensures Kept(db, ins) == Fitting(db, Lines(ins))
  {
    DeliverKeeps(db, ins);
    if ins != [] {
      var init, last := ins[..|ins| - 1], ins[|ins| - 1];
      LinesInit(ins);
      AllFitFewer(db, Lines(init), Lines(ins));
      KeptAll(db, init);
      DeliverKeeps(db, init);
      AllNext(db, Deliver(db, init), last, Lines(init));
    }
  }

  ghost predicate SameAmountsEverywhere(d1: Db, d2: Db) {
    forall b :: AmountsOf(d1, b) == AmountsOf(d2, b)
  }

  /** Two deliveries that cannot be told apart by amounts, events or totals. */
  ghost predicate SameOutcome(db: Db, d1: Db, d2: Db) {
    && SameAmountsEverywhere(d1, d2) && Added(d1.events) == Added(d2.events)
    && SameBills(db, d1) && SameBills(db, d2)
    && forall b :: b in db.bills ==> d1.bills[b].total == d2.bills[b].total
  }

  lemma FittingAgree(db: Db, s1: seq<AppendInput>, s2: seq<AppendInput>)
    requires OneMeaning(Lines(s1)) && Lines(s1) == Lines(s2) && Balanced(db) && AllFit(db, Lines(s1))
    ensures SameOutcome(db, Deliver(db, s1), Deliver(db, s2))
  {
    DeliverKeeps(db, s1);
    DeliverKeeps(db, s2);
    KeptAll(db, s1);
    KeptAll(db, s2);
    forall b ensures AmountsOf(Deliver(db, s1), b) == AmountsOf(Deliver(db, s2), b) {
      SameAmounts(db, Kept(db, s1), Deliver(db, s1), Deliver(db, s2), b);
    }
  }

  function InputOf(l: Line): AppendInput {
    AppendInput(l.bill, "", LineItem(l.id, "", l.amount, "", 0))
  }

  lemma {:induction false} SomeOrder(lines: set<Line>) returns (ins: seq<AppendInput>)
    ensures Lines(ins) == lines
    decreases |lines|
  {
    if lines == {} {
      ins := [];
    } else {
      var l :| l in lines;
      var rest := SomeOrder(lines - {l});
      ins := rest + [InputOf(l)];
      LinesInit(ins);
      assert ins[..|ins| - 1] == rest;
    }
  }

  /** A fitting line that comes first is stored. */
  lemma {:induction false} FirstIsKept(db: Db, l: Line, ins: seq<AppendInput>)
    requires Balanced(db) && l in Fitting(db, {l})
    ensures l in Kept(db, [InputOf(l)] + ins)
  {
    var all := [InputOf(l)] + ins;
    if ins == [] {
      assert all[..|all| - 1] == [] && all[|all| - 1] == InputOf(l);
      InsertTotal(db, InputOf(l));
    } else {
      assert all[..|all| - 1] == [InputOf(l)] + ins[..|ins| - 1];
      FirstIsKept(db, l, ins[..|ins| - 1]);
    }
  }

  lemma LinesCons(l: Line, ins: seq<AppendInput>)
    requires l in Lines(ins)
    ensures Lines([InputOf(l)] + ins) == Lines(ins)
  {
    var all := [InputOf(l)] + ins;
    forall m | m in Lines(ins) ensures m in Lines(all) {
      var i :| 0 <= i < |ins| && LineOf(ins[i]) == m;
      assert all[i + 1] == ins[i];
    }
    forall m | m in Lines(all) ensures m in Lines(ins) {
      var i :| 0 <= i < |all| && LineOf(all[i]) == m;
      if i > 0 { assert all[i] == ins[i - 1]; }
    }
  }

  /** If a bill's fitting lines exceed its range, a delivery leaves one of them out. */
  lemma OneLeftOut(db: Db, kept: set<Line>, db': Db, fit: set<Line>, b: BillId)
    requires Delivered(db, kept, db') && kept <= fit && b in db.bills
    requires db.bills[b].total + Charged(fit, b) >= LIMIT
    ensures exists l :: l in fit && l !in kept && l.bill == b
  {
    if forall l :: l in fit && l !in kept ==> l.bill != b { ChargedSame(kept, fit, b); }
  }

  /** Of lines that do not fit together every delivery turns one away. */
  lemma OneTurnedAway(db: Db, ins: seq<AppendInput>) returns (l: Line)
    requires OneMeaning(Lines(ins)) && Balanced(db) && !AllFit(db, Lines(ins))
    ensures l in Fitting(db, Lines(ins)) && l.id !in Deliver(db, ins).items
  {
    DeliverKeeps(db, ins);
    FittingPositive(db, Lines(ins));
    var b :| b in db.bills && db.bills[b].total + Charged(Fitting(db, Lines(ins)), b) >= LIMIT;
    OneLeftOut(db, Kept(db, ins), Deliver(db, ins), Fitting(db, Lines(ins)), b);
    l :| l in Fitting(db, Lines(ins)) && l !in Kept(db, ins) && l.bill == b;
    NotYetStored(db, Kept(db, ins), Deliver(db, ins), l, Lines(ins));
  }

  /** Lines that do not fit together are stored by order of arrival: some two deliveries differ. */
  lemma OverfullDisagrees(db: Db, lines: set<Line>) returns (s1: seq<AppendInput>, s2: seq<AppendInput>, b: BillId)
    requires OneMeaning(lines) && Balanced(db) && !AllFit(db, lines)
    ensures Lines(s1) == lines && Lines(s2) == lines && b in db.bills
    ensures AmountsOf(Deliver(db, s1), b) != AmountsOf(Deliver(db, s2), b)
  {
    s1 := SomeOrder(lines);
    var l := OneTurnedAway(db, s1);
    s2 := [InputOf(l)] + s1;
    b := l.bill;
    LinesCons(l, s1);
    FirstIsKept(db, l, s1);
    DeliverKeeps(db, s2);
    assert l.id in AmountsOf(Deliver(db, s2), b) && l.id !in AmountsOf(Deliver(db, s1), b);
  }

  /** Exactly when order and multiplicity of append attempts do not matter: when the lines that fit
      beside their bills' totals one at a time fit together. Then all deliveries agree in amounts,
      events and totals; otherwise some two store different items. */
  lemma DeliveriesAgreeIff(db: Db, lines: set<Line>)
    requires OneMeaning(lines) && Balanced(db)
    ensures AllFit(db, lines) <==>
      forall s1, s2 :: Lines(s1) == lines && Lines(s2) == lines ==> SameAmountsEverywhere(Deliver(db, s1), Deliver(db, s2))
    ensures AllFit(db, lines) ==>
      forall s1, s2 :: Lines(s1) == lines && Lines(s2) == lines ==> SameOutcome(db, Deliver(db, s1), Deliver(db, s2))
  {
    if AllFit(db, lines) {
      forall s1, s2 | Lines(s1) == lines && Lines(s2) == lines
        ensures SameOutcome(db, Deliver(db, s1), Deliver(db, s2))
      {
        FittingAgree(db, s1, s2);
      }
    } else {
      var s1, s2, b := OverfullDisagrees(db, lines);
      assert !SameAmountsEverywhere(Deliver(db, s1), Deliver(db, s2));
    }
  }

  const OPENED_BILL: Bill := Bill("bill", "acct", Open, "USD", 0.0, 0, 0, None, None, None, NoReason)

  function LineFor(id: ItemId, units: int): Line {
    Line("bill", id, units as real)
  }

  /** Two lines, each within an empty bill's range, that reach it together. */
  lemma TwoLines(db: Db)
    requires db == After(EMPTY, Create(OPENED_BILL))
    ensures !AllFit(db, {LineFor("big", LIMIT - 1), LineFor("one", 1)})
  {
    var big, one := LineFor("big", LIMIT - 1), LineFor("one", 1);
    RoundUnique((LIMIT - 1) as real, LIMIT - 1);
    RoundUnique(1 as real, 1);
    assert Fitting(db, {big, one}) == {} + {big} + {one};
    ChargedInsert({}, big, "bill");
    ChargedInsert({} + {big}, one, "bill");
  }

  lemma OpenedTables() returns (db: Db)
    ensures db == After(EMPTY, Create(OPENED_BILL)) && Consistent(db) && Balanced(db) && db.bills.Keys == {"bill"}
    ensures forall ins :: TargetsOpen(db, ins)
  {
    ReplayConsistent([]);
    ConsistentStep(EMPTY, Create(OPENED_BILL));
    db := After(EMPTY, Create(OPENED_BILL));
  }

  /** The condition can fail for an open bill: two items that do not fit together, where the order of
      delivery decides which of them is stored. */
  lemma RangeNeeded() returns (db: Db, s1: seq<AppendInput>, s2: seq<AppendInput>)
    ensures Consistent(db) && OneMeaning(Lines(s1)) && Lines(s1) == Lines(s2) && TargetsOpen(db, s1)
    ensures Lines(s1) == {LineFor("big", LIMIT - 1), LineFor("one", 1)}
    ensures AmountsOf(Deliver(db, s1), "bill") != AmountsOf(Deliver(db, s2), "bill")
  {
    db := OpenedTables();
    TwoLines(db);
    var b;
    s1, s2, b := OverfullDisagrees(db, {LineFor("big", LIMIT - 1), LineFor("one", 1)});
  }
}
