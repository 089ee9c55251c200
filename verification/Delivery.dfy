/** At-least-once delivery of append attempts: order and multiplicity do not matter. */
module Delivery {
  import opened Model
  import opened Money
  import opened Sums
  import opened Store
  import opened AuditLog

  /** What identifies an append: its bill, its item and its amount. */
  datatype Line = Line(bill: BillId, id: ItemId, amount: real)

  function LineOf(i: AppendInput): Line {
    Line(i.bill, i.item.id, i.item.amount)
  }

  function Lines(ins: seq<AppendInput>): set<Line> {
    set i | 0 <= i < |ins| :: LineOf(ins[i])
  }

  /** Each item keeps one bill and one amount. */
  predicate OneMeaning(lines: set<Line>) {
    forall l, m :: l in lines && m in lines && l.id == m.id ==> l == m
  }

  function Deliver(db: Db, ins: seq<AppendInput>): Db {
    if ins == [] then db else After(Deliver(db, ins[..|ins| - 1]), Append(ins[|ins| - 1]))
  }

  /** No attempt is turned away because the running total leaves the NUMERIC range. */
  predicate Roomy(db: Db, ins: seq<AppendInput>) {
    ins == [] ||
    (var init, last := ins[..|ins| - 1], ins[|ins| - 1];
     var mid := Deliver(db, init);
     && Roomy(db, init)
     && (StorableItem(last.item.amount) && last.item.id !in mid.items && last.bill in mid.bills ==>
           Fits(Round(mid.bills[last.bill].total as real + last.item.amount))))
  }

  /** None of the bills addressed is closed; a missing bill is allowed and rejects its items. */
  predicate TargetsOpen(db: Db, ins: seq<AppendInput>) {
    forall i :: 0 <= i < |ins| && ins[i].bill in db.bills ==> db.bills[ins[i].bill].status == Open
  }

  /** The lines that end up stored, as a function of the set of lines alone. */
  function Accepted(db: Db, lines: set<Line>): set<Line> {
    set l | l in lines && l.bill in db.bills && StorableItem(l.amount) && l.id !in db.items
  }

  function AddedBy(e: Event): multiset<Line> {
    if e.payload.ItemAdded? then multiset{Line(e.bill, e.payload.itemId, e.payload.amount)} else multiset{}
  }

  /** The ITEM_ADDED events, as a multiset of lines. */
  function Added(events: seq<Event>): multiset<Line> {
    if events == [] then multiset{} else Added(events[..|events| - 1]) + AddedBy(events[|events| - 1])
  }

  lemma LinesInit(ins: seq<AppendInput>)
    requires ins != []
    ensures Lines(ins) == Lines(ins[..|ins| - 1]) + {LineOf(ins[|ins| - 1])}
    ensures Lines(ins[..|ins| - 1]) <= Lines(ins)
  {
    var init, last := ins[..|ins| - 1], ins[|ins| - 1];
    forall l | l in Lines(ins) ensures l in Lines(init) + {LineOf(last)} {
      var i :| 0 <= i < |ins| && l == LineOf(ins[i]);
      if i < |init| { assert l == LineOf(init[i]); }
    }
    forall l | l in Lines(init) ensures l in Lines(ins) {
      var i :| 0 <= i < |init| && l == LineOf(init[i]);
      assert ins[i] == init[i];
    }
    assert LineOf(ins[|ins| - 1]) in Lines(ins);
  }

  /** Exactly the accepted lines have been stored beside the earlier items. */
  ghost predicate Stored(db: Db, accepted: set<Line>, db': Db) {
    && (forall id :: id in db.items ==> id in db'.items && db'.items[id] == db.items[id])
    && (forall l :: l in accepted ==>
          l.id in db'.items && db'.items[l.id].bill == l.bill && db'.items[l.id].amount == Round(l.amount))
    && (forall id :: id in db'.items && id !in db.items ==> exists l :: l in accepted && l.id == id)
  }

  predicate SameBills(db: Db, db': Db) {
    && db'.bills.Keys == db.bills.Keys
    && forall b :: b in db.bills ==> db'.bills[b].status == db.bills[b].status
  }

  lemma AppendKeepsBills(db: Db, i: AppendInput)
    ensures SameBills(db, After(db, Append(i)))
  {
  }

  lemma {:induction false} DeliverConsistent(db: Db, ins: seq<AppendInput>)
    requires Consistent(db)
    ensures Consistent(Deliver(db, ins)) && SameBills(db, Deliver(db, ins))
  {
    if ins != [] {
      var mid := Deliver(db, ins[..|ins| - 1]);
      DeliverConsistent(db, ins[..|ins| - 1]);
      ConsistentStep(mid, Append(ins[|ins| - 1]));
      AppendKeepsBills(mid, ins[|ins| - 1]);
    }
  }

  lemma AcceptedNew(db: Db, lines: set<Line>, mid: Db, last: AppendInput)
    requires Inserts(mid, Append(last)) && SameBills(db, mid) && Stored(db, Accepted(db, lines), mid)
    ensures LineOf(last) !in Accepted(db, lines)
    ensures Accepted(db, lines + {LineOf(last)}) == Accepted(db, lines) + {LineOf(last)}
  {
  }

  lemma StoredNew(db: Db, accepted: set<Line>, mid: Db, last: AppendInput)
    requires Inserts(mid, Append(last)) && Stored(db, accepted, mid)
    ensures Stored(db, accepted + {LineOf(last)}, After(mid, Append(last)))
  {
    var l, db' := LineOf(last), After(mid, Append(last));
    forall id | id in db'.items && id !in db.items ensures exists m :: m in accepted + {l} && m.id == id {
      if id in mid.items {
        var m :| m in accepted && m.id == id;
        assert m in accepted + {l};
      } else {
        assert l in accepted + {l} && l.id == id;
      }
    }
  }

  lemma DeliverNew(db: Db, lines: set<Line>, mid: Db, last: AppendInput)
    requires Inserts(mid, Append(last)) && SameBills(db, mid)
    requires Stored(db, Accepted(db, lines), mid)
    ensures var grown := Accepted(db, lines + {LineOf(last)});
            var db' := After(mid, Append(last));
            && Stored(db, grown, db')
            && multiset(grown) == multiset(Accepted(db, lines)) + multiset{LineOf(last)}
            && Added(db'.events) == Added(mid.events) + multiset{LineOf(last)}
  {
    AcceptedNew(db, lines, mid, last);
    StoredNew(db, Accepted(db, lines), mid, last);
    assert After(mid, Append(last)).events[..|mid.events|] == mid.events;
  }

  lemma DeliverAgain(db: Db, lines: set<Line>, mid: Db, last: AppendInput)
    requires !Inserts(mid, Append(last)) && SameBills(db, mid) && OneMeaning(lines + {LineOf(last)})
    requires Stored(db, Accepted(db, lines), mid)
    requires StorableItem(last.item.amount) && last.item.id !in mid.items && last.bill in mid.bills ==>
               Fits(Round(mid.bills[last.bill].total as real + last.item.amount))
    ensures Accepted(db, lines + {LineOf(last)}) == Accepted(db, lines) && After(mid, Append(last)) == mid
  {
    assert forall l :: l in lines ==> l in lines + {LineOf(last)};
    assert LineOf(last) in lines + {LineOf(last)};
  }

  /** The closed form: what a delivery leaves depends on the set of lines only. */
  lemma {:induction false} DeliverForm(db: Db, ins: seq<AppendInput>)
    requires OneMeaning(Lines(ins)) && Roomy(db, ins)
    ensures SameBills(db, Deliver(db, ins))
    ensures Stored(db, Accepted(db, Lines(ins)), Deliver(db, ins))
    ensures Added(Deliver(db, ins).events) == Added(db.events) + multiset(Accepted(db, Lines(ins)))
  {
    if ins != [] {
      var init, last := ins[..|ins| - 1], ins[|ins| - 1];
      var mid := Deliver(db, init);
      LinesInit(ins);
      DeliverForm(db, init);
      AppendKeepsBills(mid, last);
      if Inserts(mid, Append(last)) {
        DeliverNew(db, Lines(init), mid, last);
      } else {
        DeliverAgain(db, Lines(init), mid, last);
      }
    } else {
      assert Accepted(db, Lines(ins)) == {};
    }
  }

  /** Fewer accepted lines store a smaller table of amounts. */
  lemma SubAmounts(db: Db, some: set<Line>, all: set<Line>, d1: Db, d2: Db, b: BillId)
    requires some <= all && Stored(db, some, d1) && Stored(db, all, d2)
    ensures forall k :: k in AmountsOf(d1, b) ==> k in AmountsOf(d2, b) && AmountsOf(d2, b)[k] == AmountsOf(d1, b)[k]
  {
    forall k | k in AmountsOf(d1, b) ensures k in AmountsOf(d2, b) && AmountsOf(d2, b)[k] == AmountsOf(d1, b)[k] {
      if k !in db.items {
        var l :| l in some && l.id == k;
        assert l in all;
      }
    }
  }

  lemma SameAmounts(db: Db, accepted: set<Line>, d1: Db, d2: Db, b: BillId)
    requires Stored(db, accepted, d1) && Stored(db, accepted, d2)
    ensures AmountsOf(d1, b) == AmountsOf(d2, b)
  {
    SubAmounts(db, accepted, accepted, d1, d2, b);
    SubAmounts(db, accepted, accepted, d2, d1, b);
    var m1, m2 := AmountsOf(d1, b), AmountsOf(d2, b);
    assert m1.Keys == m2.Keys;
  }

  lemma DeliverTotals(db: Db, ins: seq<AppendInput>)
    requires Consistent(db)
    ensures OpenTotals(Deliver(db, ins)) && ItemsOk(Deliver(db, ins))
  {
    DeliverConsistent(db, ins);
  }

  lemma TargetOpen(db: Db, all: seq<AppendInput>, last: AppendInput)
    requires TargetsOpen(db, all) && LineOf(last) in Lines(all) && last.bill in db.bills
    ensures db.bills[last.bill].status == Open
  {
    var j :| 0 <= j < |all| && LineOf(all[j]) == LineOf(last);
    assert all[j].bill == last.bill;
  }

  lemma SumsFit(mid: Db, end: Db, b: BillId, id: ItemId, r: int)
    requires OpenTotals(mid) && OpenTotals(end) && ItemsOk(mid) && ItemsOk(end)
    requires b in mid.bills && b in end.bills && mid.bills[b].status == Open && end.bills[b].status == Open
    requires forall k :: k in AmountsOf(mid, b) ==> k in AmountsOf(end, b) && AmountsOf(end, b)[k] == AmountsOf(mid, b)[k]
    requires id !in mid.items && id in AmountsOf(end, b) && AmountsOf(end, b)[id] == r
    ensures 0 <= mid.bills[b].total && mid.bills[b].total + r < LIMIT && r > 0
  {
    var small, big := AmountsOf(mid, b), AmountsOf(end, b);
    SumMonotone(small[id := r], big);
    SumInsert(small, id, r);
    SumNonNegative(small);
  }

  lemma RoomForOne(db: Db, lines: set<Line>, all: set<Line>, mid: Db, end: Db, last: AppendInput)
    requires lines <= all && LineOf(last) in all
    requires SameBills(db, mid) && Stored(db, Accepted(db, lines), mid) && OpenTotals(mid) && ItemsOk(mid)
    requires SameBills(db, end) && Stored(db, Accepted(db, all), end) && OpenTotals(end) && ItemsOk(end)
    requires StorableItem(last.item.amount) && last.item.id !in mid.items
    requires last.bill in db.bills && db.bills[last.bill].status == Open
    ensures last.bill in mid.bills && Fits(Round(mid.bills[last.bill].total as real + last.item.amount))
  {
    assert Accepted(db, lines) <= Accepted(db, all);
    SubAmounts(db, Accepted(db, lines), Accepted(db, all), mid, end, last.bill);
    assert last.item.id !in db.items;
    assert LineOf(last) in Accepted(db, all);
    SumsFit(mid, end, last.bill, last.item.id, Round(last.item.amount));
    AppendTotal(mid, last);
  }

  lemma FormOf(db: Db, ins: seq<AppendInput>)
    requires Consistent(db) && OneMeaning(Lines(ins)) && Roomy(db, ins)
    ensures var db' := Deliver(db, ins);
      SameBills(db, db') && Stored(db, Accepted(db, Lines(ins)), db') && OpenTotals(db') && ItemsOk(db')
  {
    DeliverForm(db, ins);
    DeliverTotals(db, ins);
  }

  lemma FewerMeanings(some: set<Line>, all: set<Line>)
    requires some <= all && OneMeaning(all)
    ensures OneMeaning(some)
  {
  }

  lemma RoomyNext(db: Db, init: seq<AppendInput>, last: AppendInput, all: seq<AppendInput>)
    requires Consistent(db) && OneMeaning(Lines(all)) && Roomy(db, all) && TargetsOpen(db, all) && Roomy(db, init)
    requires Lines(init) <= Lines(all) && LineOf(last) in Lines(all)
    requires StorableItem(last.item.amount) && last.item.id !in Deliver(db, init).items
    requires last.bill in Deliver(db, init).bills
    ensures Fits(Round(Deliver(db, init).bills[last.bill].total as real + last.item.amount))
  {
    FewerMeanings(Lines(init), Lines(all));
    FormOf(db, init);
    FormOf(db, all);
    TargetOpen(db, all, last);
    RoomForOne(db, Lines(init), Lines(all), Deliver(db, init), Deliver(db, all), last);
  }

  /** If one delivery fits the NUMERIC range then so does every delivery of some of its lines. */
  lemma {:induction false} RoomySubset(db: Db, ins: seq<AppendInput>, all: seq<AppendInput>)
    requires Consistent(db) && OneMeaning(Lines(all)) && Roomy(db, all) && TargetsOpen(db, all)
    requires Lines(ins) <= Lines(all)
    ensures Roomy(db, ins)
  {
    if ins != [] {
      var init, last := ins[..|ins| - 1], ins[|ins| - 1];
      var mid := Deliver(db, init);
      LinesInit(ins);
      RoomySubset(db, init, all);
      if StorableItem(last.item.amount) && last.item.id !in mid.items && last.bill in mid.bills {
        RoomyNext(db, init, last, all);
      }
    }
  }

  /** At-least-once delivery is harmless: if each item keeps one bill and one amount, any two
      sequences with the same set of lines that stay within the NUMERIC range store the same amounts
      and log the same ITEM_ADDED multiset, closed bills and missing ones included. */
  lemma DeliveryIsIdempotent(db: Db, s1: seq<AppendInput>, s2: seq<AppendInput>, b: BillId)
    requires OneMeaning(Lines(s1)) && Lines(s1) == Lines(s2) && Roomy(db, s1) && Roomy(db, s2)
    ensures var d1, d2 := Deliver(db, s1), Deliver(db, s2);
      && SameBills(db, d1) && SameBills(db, d2)
      && AmountsOf(d1, b) == AmountsOf(d2, b)
      && Added(d1.events) == Added(d2.events)
  {
    DeliverForm(db, s1);
    DeliverForm(db, s2);
    SameAmounts(db, Accepted(db, Lines(s1)), Deliver(db, s1), Deliver(db, s2), b);
  }

  /** While the bills addressed are open, one sequence within the range is enough, and the totals
      agree too. */
  lemma OpenDeliveryIsIdempotent(db: Db, s1: seq<AppendInput>, s2: seq<AppendInput>, b: BillId)
    requires Consistent(db) && OneMeaning(Lines(s1)) && Lines(s1) == Lines(s2)
    requires Roomy(db, s1) && TargetsOpen(db, s1)
    ensures var d1, d2 := Deliver(db, s1), Deliver(db, s2);
      && Roomy(db, s2)
      && SameBills(db, d1) && SameBills(db, d2)
      && AmountsOf(d1, b) == AmountsOf(d2, b)
      && Added(d1.events) == Added(d2.events)
      && (b in db.bills && db.bills[b].status == Open ==> d1.bills[b].total == d2.bills[b].total)
  {
    RoomySubset(db, s2, s1);
    DeliveryIsIdempotent(db, s1, s2, b);
    DeliverTotals(db, s1);
    DeliverTotals(db, s2);
  }
}
