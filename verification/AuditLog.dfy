/** What every sequence of activity transactions leaves in the tables: the audit log determines
    the bill row, events mirror rows, and an open row's total is the sum of its items. */
module AuditLog {
  import opened Model
  import opened Money
  import opened Sums
  import opened Store

  /** The workflow creates bills as OPEN only. */
  predicate Sane(tx: Tx) {
    tx.Create? ==> tx.bill.status == Open
  }

  predicate AllSane(txs: seq<Tx>) {
    forall i :: 0 <= i < |txs| ==> Sane(txs[i])
  }

  /** The bill's own events, in commit order. */
  function LogOf(events: seq<Event>, b: BillId): seq<Payload> {
    if events == [] then [] else
      var rest := LogOf(events[..|events| - 1], b);
      var last := events[|events| - 1];
      if last.bill == b then rest + [last.payload] else rest
  }

  /** The part of a bill row that the log determines. */
  datatype Summary = Summary(status: Status, currency: Currency, total: int, reason: Option<CloseReason>)

  /** Reading a log: OPENED starts at zero, ITEM_ADDED adds and rounds, CLOSED overwrites. */
  function Fold(log: seq<Payload>): Option<Summary> {
    if log == [] then None else
      var before := Fold(log[..|log| - 1]);
      match log[|log| - 1]
      case Opened(c, _, _) => Some(Summary(Open, c, 0, None))
      case ItemAdded(_, _, a, _) =>
        if before.None? then None else Some(before.value.(total := Round(before.value.total as real + a)))
      case BillClosed(t, r) =>
        if before.None? then None else
          Some(before.value.(status := Closed, total := Round(t), reason := Nullable(r)))
  }

  function SummaryOf(db: Db, b: BillId): Option<Summary> {
    if b !in db.bills then None else
      var row := db.bills[b];
      Some(Summary(row.status, row.currency, row.total, row.closeReason))
  }

  /** OPENED exactly once, and first. */
  predicate OpensOnce(log: seq<Payload>) {
    && |log| > 0
    && log[0].Opened?
    && forall i :: 0 < i < |log| ==> !log[i].Opened?
  }

  /** The row and the log of one bill agree. */
  ghost predicate Agrees(db: Db, b: BillId) {
    var log := LogOf(db.events, b);
    && Fold(log) == SummaryOf(db, b)
    && (b in db.bills ==> OpensOnce(log))
    && (b !in db.bills ==> log == [])
    && (b in db.bills ==> (db.bills[b].status == Closed <==> exists i :: 0 <= i < |log| && log[i].BillClosed?))
  }

  predicate IsEventOf(db: Db, i: int, id: ItemId) {
    0 <= i < |db.events| && db.events[i].payload.ItemAdded? && db.events[i].payload.itemId == id
  }

  /** The event tells the same bill, amount, currency and description as the row. */
  predicate MirrorsRow(db: Db, i: int)
    requires 0 <= i < |db.events| && db.events[i].payload.ItemAdded?
  {
    var e := db.events[i];
    && e.payload.itemId in db.items
    && db.items[e.payload.itemId].bill == e.bill
    && db.items[e.payload.itemId].amount == Round(e.payload.amount)
    && db.items[e.payload.itemId].currency == e.payload.currency
    && db.items[e.payload.itemId].description == e.payload.description
  }

  /** ITEM_ADDED events and line items are in bijection: each event has its row,
      each row its event, and no item has two events. */
  ghost predicate Mirrored(db: Db) {
    && (forall i :: 0 <= i < |db.events| && db.events[i].payload.ItemAdded? ==> MirrorsRow(db, i))
    && (forall id :: id in db.items ==> exists i :: IsEventOf(db, i, id))
    && (forall i, j, id :: IsEventOf(db, i, id) && IsEventOf(db, j, id) ==> i == j)
  }

  ghost predicate ItemsOk(db: Db) {
    forall id :: id in db.items ==>
      && db.items[id].bill in db.bills
      && 0 < db.items[id].amount < LIMIT
  }

  ghost predicate OpenTotals(db: Db) {
    && (forall b :: b in db.bills ==> Fits(db.bills[b].total))
    && (forall b :: b in db.bills && db.bills[b].status == Open ==> db.bills[b].total == Sum(AmountsOf(db, b)))
  }

  /** A bill has a close time exactly when it is closed, and no event is without an actor. */
  ghost predicate Marked(db: Db) {
    && (forall b :: b in db.bills ==> (db.bills[b].closedAt.Some? <==> db.bills[b].status == Closed))
    && (forall b :: b in db.bills && db.bills[b].status == Open ==> db.bills[b].closeReason == None)
    && (forall k :: 0 <= k < |db.events| ==> db.events[k].actor != "")
  }

  ghost predicate Consistent(db: Db) {
    && (forall b :: Agrees(db, b))
    && Mirrored(db)
    && ItemsOk(db)
    && OpenTotals(db)
    && Marked(db)
  }

  lemma LogOfAppend(events: seq<Event>, e: Event, b: BillId)
    ensures LogOf(events + [e], b) == if e.bill == b then LogOf(events, b) + [e.payload] else LogOf(events, b)
  {
    assert (events + [e])[..|events|] == events;
  }

  lemma FoldAppend(log: seq<Payload>, p: Payload)
    ensures (log + [p])[..|log|] == log
  {
  }

  /** One committed transaction changes at most the target's row, and only by one event. */
  lemma CommitShape(db: Db, tx: Tx)
    requires Commit(db, tx).Some?
    ensures var db' := After(db, tx);
      || db' == db
      || (&& |db'.events| == |db.events| + 1
          && db'.events[..|db.events|] == db.events
          && db'.events[|db.events|].bill == Target(tx)
          && (forall b :: b != Target(tx) ==> (b in db'.bills <==> b in db.bills))
          && (forall b :: b != Target(tx) && b in db.bills ==> db'.bills[b] == db.bills[b])
          && Target(tx) in db'.bills)
  {
  }

  lemma AgreesElsewhere(db: Db, db': Db, b: BillId)
    requires Agrees(db, b)
    requires LogOf(db'.events, b) == LogOf(db.events, b) && SummaryOf(db', b) == SummaryOf(db, b)
    ensures Agrees(db', b)
  {
  }

  /** One more event keeps the agreement if the row moves exactly as the fold does. */
  lemma AgreesExtended(db: Db, db': Db, b: BillId, p: Payload)
    requires Agrees(db, b)
    requires LogOf(db'.events, b) == LogOf(db.events, b) + [p]
    requires p.Opened? <==> b !in db.bills
    requires b in db'.bills
    requires match p
      case Opened(c, _, _) => SummaryOf(db', b) == Some(Summary(Open, c, 0, None))
      case ItemAdded(_, _, a, _) =>
        SummaryOf(db', b) == Some(SummaryOf(db, b).value.(total := Round(db.bills[b].total as real + a)))
      case BillClosed(t, r) =>
        SummaryOf(db', b) == Some(SummaryOf(db, b).value.(status := Closed, total := Round(t), reason := Nullable(r)))
    ensures Agrees(db', b)
  {
    var log := LogOf(db.events, b);
    var log' := log + [p];
    FoldAppend(log, p);
    assert forall i :: 0 <= i < |log| ==> log'[i] == log[i];
    assert log'[|log|] == p;
  }

  lemma AgreesStep(db: Db, tx: Tx, b: BillId)
    requires Agrees(db, b) && Sane(tx)
    ensures Agrees(After(db, tx), b)
  {
    var db' := After(db, tx);
    if db' != db {
      CommitShape(db, tx);
      var e := db'.events[|db.events|];
      assert db'.events == db.events + [e];
      LogOfAppend(db.events, e, b);
      if e.bill != b {
        AgreesElsewhere(db, db', b);
      } else {
        AgreesExtended(db, db', b, e.payload);
      }
    }
  }

  lemma MirroredStep(db: Db, tx: Tx)
    requires Mirrored(db)
    ensures Mirrored(After(db, tx))
  {
    var db' := After(db, tx);
    if db' != db {
      CommitShape(db, tx);
      var n := |db.events|;
      assert forall i :: 0 <= i < n ==> db'.events[i] == db.events[i];
      forall i | 0 <= i < |db'.events| && db'.events[i].payload.ItemAdded?
        ensures MirrorsRow(db', i)
      {
        if i < n { assert MirrorsRow(db, i); }
      }
      forall id | id in db'.items
        ensures exists i :: IsEventOf(db', i, id)
      {
        if id in db.items {
          var i :| IsEventOf(db, i, id);
          assert IsEventOf(db', i, id);
        } else {
          assert IsEventOf(db', n, id);
        }
      }
      forall i, j, id | IsEventOf(db', i, id) && IsEventOf(db', j, id)
        ensures i == j
      {
        if i < n { assert MirrorsRow(db, i) && IsEventOf(db, i, id); }
        if j < n { assert MirrorsRow(db, j) && IsEventOf(db, j, id); }
      }
    }
  }

  lemma AmountsAfterInsert(db: Db, i: AppendInput, b: BillId)
    requires AppendTx(db, i).Some? && i.item.id !in db.items
    ensures AmountsOf(After(db, Append(i)), b) ==
            if b == i.bill then AmountsOf(db, b)[i.item.id := Round(i.item.amount)] else AmountsOf(db, b)
  {
  }

  lemma OpenTotalStep(db: Db, tx: Tx, b: BillId)
    requires OpenTotals(db) && ItemsOk(db) && Sane(tx)
    requires b in After(db, tx).bills && After(db, tx).bills[b].status == Open
    ensures After(db, tx).bills[b].total == Sum(AmountsOf(After(db, tx), b))
  {
    if Inserts(db, tx) {
      AmountsAfterInsert(db, tx.append, b);
      if b == tx.append.bill {
        SumNonNegative(AmountsOf(db, b));
        AppendTotal(db, tx.append);
        SumInsert(AmountsOf(db, b), tx.append.item.id, Round(tx.append.item.amount));
      }
    } else {
      assert AmountsOf(After(db, tx), b) == AmountsOf(db, b);
      if b !in db.bills { assert AmountsOf(db, b) == map[]; }
    }
  }

  lemma OpenTotalsStep(db: Db, tx: Tx)
    requires OpenTotals(db) && ItemsOk(db) && Sane(tx)
    ensures OpenTotals(After(db, tx)) && ItemsOk(After(db, tx))
  {
    forall b | b in After(db, tx).bills && After(db, tx).bills[b].status == Open
      ensures After(db, tx).bills[b].total == Sum(AmountsOf(After(db, tx), b))
    {
      OpenTotalStep(db, tx, b);
    }
  }

  lemma MarkedStep(db: Db, tx: Tx)
    requires Marked(db) && Sane(tx)
    ensures Marked(After(db, tx))
  {
    var db' := After(db, tx);
    if db' != db {
      CommitShape(db, tx);
      assert forall k :: 0 <= k < |db.events| ==> db'.events[k] == db.events[k];
    }
  }

  lemma ConsistentStep(db: Db, tx: Tx)
    requires Consistent(db) && Sane(tx)
    ensures Consistent(After(db, tx))
  {
    forall b ensures Agrees(After(db, tx), b) { AgreesStep(db, tx, b); }
    MirroredStep(db, tx);
    OpenTotalsStep(db, tx);
    MarkedStep(db, tx);
  }

  /** The log determines the row, the events mirror the items and open totals are sums,
      after every sequence of transactions: repeated closes and late appends included. */
  lemma {:induction false} ReplayConsistent(txs: seq<Tx>)
    requires AllSane(txs)
    ensures Consistent(Replay(EMPTY, txs))
  {
    if txs != [] {
      ReplayConsistent(txs[..|txs| - 1]);
      ConsistentStep(Replay(EMPTY, txs[..|txs| - 1]), txs[|txs| - 1]);
    }
  }

  /** The headline of the above for one bill: reading the log gives back the row. */
  lemma LogDeterminesRow(txs: seq<Tx>, b: BillId)
    requires AllSane(txs)
    ensures var db := Replay(EMPTY, txs); Fold(LogOf(db.events, b)) == SummaryOf(db, b)
  {
    ReplayConsistent(txs);
    assert Agrees(Replay(EMPTY, txs), b);
  }

  function ClosedEvents(log: seq<Payload>): nat {
    if log == [] then 0 else
      ClosedEvents(log[..|log| - 1]) + (if log[|log| - 1].BillClosed? then 1 else 0)
  }

  /** How many close attempts for b committed. */
  function CloseCommits(txs: seq<Tx>, b: BillId): nat {
    if txs == [] then 0 else
      var init := txs[..|txs| - 1];
      var last := txs[|txs| - 1];
      CloseCommits(init, b) +
      (if last.Close? && last.close.bill == b && Commit(Replay(EMPTY, init), last).Some? then 1 else 0)
  }

  /** A repeated close is not a no-op: every committed attempt leaves its own CLOSED event. */
  lemma {:induction false} ClosedEventsCountCommits(txs: seq<Tx>, b: BillId)
    ensures ClosedEvents(LogOf(Replay(EMPTY, txs).events, b)) == CloseCommits(txs, b)
  {
    if txs != [] {
      var init, tx := txs[..|txs| - 1], txs[|txs| - 1];
      ClosedEventsCountCommits(init, b);
      var db := Replay(EMPTY, init);
      var db' := After(db, tx);
      if Commit(db, tx).Some? && db' != db {
        CommitShape(db, tx);
        var e := db'.events[|db.events|];
        assert db'.events == db.events + [e];
        LogOfAppend(db.events, e, b);
        FoldAppend(LogOf(db.events, b), e.payload);
      }
    }
  }

  lemma {:induction false} NoClosedEvents(log: seq<Payload>)
    requires ClosedEvents(log) == 0
    ensures forall i :: 0 <= i < |log| ==> !log[i].BillClosed?
  {
    if log != [] { NoClosedEvents(log[..|log| - 1]); }
  }

  /** One close commit and nothing after it: the log reads OPENED ITEM_ADDED* CLOSED. */
  lemma AuditShape(txs: seq<Tx>, b: BillId)
    requires AllSane(txs)
    requires CloseCommits(txs, b) == 1
    requires var log := LogOf(Replay(EMPTY, txs).events, b); log != [] && log[|log| - 1].BillClosed?
    ensures var log := LogOf(Replay(EMPTY, txs).events, b);
      && |log| >= 2 && log[0].Opened? && log[|log| - 1].BillClosed?
      && forall i :: 0 < i < |log| - 1 ==> log[i].ItemAdded?
  {
    var db := Replay(EMPTY, txs);
    var log := LogOf(db.events, b);
    ReplayConsistent(txs);
    assert Agrees(db, b);
    ClosedEventsCountCommits(txs, b);
    NoClosedEvents(log[..|log| - 1]);
    forall i | 0 < i < |log| - 1 ensures log[i].ItemAdded? {
      assert log[i] == log[..|log| - 1][i];
    }
  }

  /** Every line item as it was, every bill with its identity, and no closed row reopened. */
  ghost predicate Keeps(before: Db, after: Db) {
    && (forall id :: id in before.items ==> id in after.items && after.items[id] == before.items[id])
    && (forall b :: b in before.bills ==>
         && b in after.bills
         && after.bills[b].account == before.bills[b].account
         && after.bills[b].currency == before.bills[b].currency
         && (before.bills[b].status == Closed ==> after.bills[b].status == Closed))
    && before.events <= after.events
  }

  lemma StepKeeps(db: Db, tx: Tx)
    ensures Keeps(db, After(db, tx))
  {
  }

  /** Later transactions keep what is stored, and the log only grows. */
  lemma {:induction false} ReplayKeeps(db: Db, txs: seq<Tx>)
    ensures Keeps(db, Replay(db, txs))
  {
    if txs != [] {
      ReplayKeeps(db, txs[..|txs| - 1]);
      StepKeeps(Replay(db, txs[..|txs| - 1]), txs[|txs| - 1]);
    }
  }

  lemma CommitElsewhere(db: Db, tx: Tx, b: BillId)
    requires b in db.bills && !(tx.Close? && tx.close.bill == b)
    ensures b in After(db, tx).bills && After(db, tx).bills[b].status == db.bills[b].status
    ensures After(db, tx).bills[b].closedAt == db.bills[b].closedAt
    ensures After(db, tx).bills[b].closeReason == db.bills[b].closeReason
  {
  }

  /** What the last committed close wrote is what a bill's row says of its closing ever after: appends
      that arrive later, and creations that are repeated, do not touch it. */
  lemma {:induction false} LastCloseStands(db: Db, c: CloseInput, later: seq<Tx>)
    requires Commit(db, Close(c)).Some?
    requires forall k :: 0 <= k < |later| ==> !(later[k].Close? && later[k].close.bill == c.bill)
    ensures var db' := Replay(After(db, Close(c)), later);
      && c.bill in db'.bills && db'.bills[c.bill].status == Closed
      && db'.bills[c.bill].closedAt == Some(c.closedAt)
      && db'.bills[c.bill].closeReason == (if c.reason == NoReason then None else Some(c.reason))
      && (later == [] ==> db'.bills[c.bill].total == Round(c.total))
  {
    if later != [] {
      var init := later[..|later| - 1];
      assert forall k :: 0 <= k < |init| ==> init[k] == later[k];
      LastCloseStands(db, c, init);
      CommitElsewhere(Replay(After(db, Close(c)), init), later[|later| - 1], c.bill);
    }
  }
}
