/** Does the close agree with the items? The exact discrepancy, and the conditions under which
    row, event, workflow result and line items all tell the same total. */
module Reconciliation {
  import opened Model
  import opened Money
  import opened Store
  import opened Ledger
  import opened Accounting
  import AuditLog

  /** [D1] In-flight handlers have distinct unseen IDs, and no ID was acknowledged twice. */
  ghost predicate Disjoint(s: State) {
    && (forall h :: h in s.inflight ==> s.inflight[h].input.item.id !in s.seen)
    && (forall g, h :: g in s.inflight && h in s.inflight && g != h ==>
          s.inflight[g].input.item.id != s.inflight[h].input.item.id)
    && Repeats(s.acked) == 0
  }

  /** [D2, D6] The IDs this bill has used and the items stored for it are the same. */
  ghost predicate Owned(s: State) {
    forall id :: id in s.db.items ==> (s.db.items[id].bill == s.bill.id <==> IssuedId(s, id))
  }

  /** [D2, D3, D6] What is stored for an ID is the rounded amount every attempt carried. */
  ghost predicate Priced(s: State) {
    && (forall i, j :: i in s.issued && j in s.issued && i.item.id == j.item.id ==> i.item.amount == j.item.amount)
    && (forall i :: i in s.issued && i.item.id in s.db.items ==> s.db.items[i.item.id].amount == Round(i.item.amount))
  }

  /** [D4, D5, D6] What this workflow stored was acknowledged when the close total was captured. */
  ghost predicate AllSeen(s: State) {
    !s.closing.NotClosing? ==>
      forall id :: id in s.db.items && s.db.items[id].bill == s.bill.id && IssuedId(s, id) ==> id in s.seen
  }

  /** [D5] Nothing moves the memory once the close total is captured. */
  ghost predicate Captured(s: State) {
    !s.closing.NotClosing? ==> s.inflight == map[] && s.closing.input.total == s.bill.total
  }

  predicate Pending(s: State, id: ItemId) {
    exists h :: h in s.inflight && s.inflight[h].committed && s.inflight[h].input.item.id == id
  }

  /** [none abandoned, D6] Every stored item of the bill is acknowledged or about to be. */
  ghost predicate Traced(s: State) {
    forall id :: id in s.db.items && s.db.items[id].bill == s.bill.id ==> id in s.seen || Pending(s, id)
  }

  /** [none abandoned, D1, D2, D6] What is stored for an acknowledged item is what that execution
      carried; no D3, because an in-flight item is stored only by its own handler. */
  ghost predicate Faithful(s: State) {
    && (forall k :: 0 <= k < |s.acked| && s.acked[k].item.id in s.db.items ==>
          s.db.items[s.acked[k].item.id].amount == Round(s.acked[k].item.amount))
    && (forall h :: h in s.inflight && s.inflight[h].committed && s.inflight[h].input.item.id in s.db.items ==>
          s.db.items[s.inflight[h].input.item.id].amount == Round(s.inflight[h].input.item.amount))
    && (forall h :: h in s.inflight && !s.inflight[h].committed ==> s.inflight[h].input.item.id !in s.db.items)
  }

  function RowOf(i: AppendInput): ItemRow {
    ItemRow(i.bill, i.item.description, Round(i.item.amount), i.item.currency, i.item.createdAt)
  }

  /** The stored item is one this workflow scheduled, with its description, currency and time. */
  ghost predicate FromIssued(s: State, id: ItemId)
    requires id in s.db.items
  {
    exists i :: i in s.issued && i.item.id == id && s.db.items[id] == RowOf(i)
  }

  /** Some attempt of the close activity has committed, whether or not the workflow learnt of it. */
  predicate CloseCommitted(s: State) {
    s.closing.Returned? || ((s.closing.Persisting? || s.closing.CloseFailed?) && s.closing.committed)
  }

  predicate OwnEvent(s: State, e: Event) {
    match e.payload
    case Opened(c, from, to) =>
      c == s.bill.currency && from == s.bill.periodStart && to == s.bill.periodEnd && e.actor == ActorName(s.bill.account)
    case ItemAdded(_, _, _, c) => c == s.bill.currency && e.actor == ActorName(s.bill.account)
    case BillClosed(t, r) =>
      && CloseCommitted(s)
      && t == s.closing.input.total && r == s.closing.input.reason
      && e.actor == ActorName(s.closing.input.actor)
  }

  ghost predicate OwnEvents(s: State) {
    forall k :: 0 <= k < |s.db.events| && s.db.events[k].bill == s.bill.id ==> OwnEvent(s, s.db.events[k])
  }

  ghost predicate OwnRow(s: State) {
    s.bill.id in s.db.bills ==>
      && s.db.bills[s.bill.id].account == s.bill.account
      && s.db.bills[s.bill.id].currency == s.bill.currency
      && s.db.bills[s.bill.id].createdAt == s.bill.createdAt
      && s.db.bills[s.bill.id].periodStart == s.bill.periodStart
      && s.db.bills[s.bill.id].periodEnd == s.bill.periodEnd
      && (s.db.bills[s.bill.id].status == Closed ==> CloseCommitted(s))
  }

  ghost predicate OwnItemRows(s: State) {
    forall id :: id in s.db.items && s.db.items[id].bill == s.bill.id ==> FromIssued(s, id)
  }

  /** [D6] Row, events and items of the bill are this workflow's own. */
  ghost predicate OwnRecords(s: State) {
    OwnEvents(s) && OwnRow(s) && OwnItemRows(s)
  }

  /** [D4, D5, D6] Once a close attempt has committed the row carries the captured total. */
  ghost predicate RowFinal(s: State) {
    CloseCommitted(s) ==>
      && s.bill.id in s.db.bills
      && s.db.bills[s.bill.id].status == Closed
      && s.db.bills[s.bill.id].total == Round(s.closing.input.total)
      && s.db.bills[s.bill.id].closeReason == Some(s.closing.input.reason)
      && s.db.bills[s.bill.id].closedAt == Some(s.closing.input.closedAt)
      && exists k :: 0 <= k < |s.db.events| && s.db.events[k].bill == s.bill.id && s.db.events[k].payload.BillClosed?
  }

  ghost predicate AllWhole(s: State) {
    forall i :: i in s.issued ==> IsWhole(i.item.amount)
  }

  /** The invariants that hold under the conditions a run obeys. */
  ghost predicate Conditional(d: Discipline, s: State) {
    && (d.noOverlap ==> Disjoint(s))
    && (d.ownItems && d.startedOnce ==> Owned(s))
    && (d.ownItems && d.startedOnce && d.fixedAmounts ==> Priced(s))
    && (d.noLateUpdates ==> Captured(s))
    && (d.insertsAcked && d.noLateUpdates && d.startedOnce ==> AllSeen(s) && RowFinal(s))
    && (d.startedOnce ==> OwnRecords(s))
    && (d.whole ==> AllWhole(s))
    && (d.noneAbandoned && d.startedOnce ==> Traced(s))
    && (d.noneAbandoned && d.noOverlap && d.ownItems && d.startedOnce ==> Faithful(s))
  }

  /** Handlers may leave or commit, as long as no ID is seen meanwhile. */
  lemma DisjointFewer(s: State, s': State)
    requires Disjoint(s) && s'.seen == s.seen && s'.acked == s.acked
    requires forall h :: h in s'.inflight ==> h in s.inflight && s'.inflight[h].input == s.inflight[h].input
    ensures Disjoint(s')
  {
  }

  lemma DisjointAdmit(s: State, step: Step)
    requires Validated(s) && Disjoint(s) && Enabled(s, step) && NoOverlap(s, step) && Admits(s, step)
    ensures Disjoint(Apply(s, step))
  {
    var s' := Apply(s, step);
    assert s'.seen == s.seen && s'.acked == s.acked && s.next !in s.inflight;
    assert forall h :: h in s'.inflight ==>
      if h == s.next then s'.inflight[h].input.item.id == step.update.itemId
      else h in s.inflight && s'.inflight[h] == s.inflight[h];
  }

  lemma DisjointAck(s: State, h: nat)
    requires Accounted(s) && Disjoint(s) && Enabled(s, AppendAck(h))
    ensures Disjoint(Apply(s, AppendAck(h)))
  {
    var s' := Apply(s, AppendAck(h));
    RepeatStep(s, AppendAck(h));
    assert forall g :: g in s'.inflight ==> g != h && g in s.inflight && s'.inflight[g] == s.inflight[g];
  }

  lemma DisjointStep(s: State, step: Step)
    requires Accounted(s) && Validated(s) && Disjoint(s) && Enabled(s, step) && NoOverlap(s, step)
    ensures Disjoint(Apply(s, step))
  {
    if Admits(s, step) {
      DisjointAdmit(s, step);
    } else if step.AppendAck? {
      DisjointAck(s, step.handler);
    } else {
      DisjointFewer(s, Apply(s, step));
    }
  }

  /** Issued IDs only grow, by the update being admitted. */
  lemma IssuedAfter(s: State, step: Step, id: ItemId)
    requires Enabled(s, step)
    ensures IssuedId(Apply(s, step), id) <==> IssuedId(s, id) || (Admits(s, step) && step.update.itemId == id)
  {
    var s' := Apply(s, step);
    if IssuedId(s, id) {
      var i :| i in s.issued && i.item.id == id;
      assert i in s'.issued;
    }
    if Admits(s, step) && step.update.itemId == id {
      assert Scheduled(s.bill, step.update, step.at) in s'.issued;
    }
  }

  /** An item row can only be added by a committing append, for that append's bill. */
  lemma ItemsAfter(db: Db, tx: Tx, id: ItemId)
    requires id in After(db, tx).items
    ensures id in db.items ==> After(db, tx).items[id] == db.items[id]
    ensures id !in db.items ==>
      && tx.Append? && tx.append.item.id == id && Commit(db, tx).Some?
      && After(db, tx).items[id] == RowOf(tx.append)
  {
  }

  /** The item row a step added, if it added one: the append that did it, and whose it was. */
  lemma NewItem(s: State, step: Step, id: ItemId)
    requires Validated(s) && Enabled(s, step) && id in Apply(s, step).db.items && id !in s.db.items
    ensures var tx := TxOf(s, step);
      && tx.Some? && tx.value.Append? && tx.value.append.item.id == id
      && Apply(s, step).db.items[id] == RowOf(tx.value.append)
      && (step.Foreign? || tx.value.append in s.issued)
  {
    ItemsAfter(s.db, TxOf(s, step).value, id);
  }

  lemma OwnedStep(s: State, step: Step)
    requires Validated(s) && Owned(s) && Enabled(s, step) && OwnItems(s, step) && StartedOnce(s, step)
    ensures Owned(Apply(s, step))
  {
    var s' := Apply(s, step);
    DbKeeps(s, step);
    forall id | id in s'.db.items
      ensures s'.db.items[id].bill == s'.bill.id <==> IssuedId(s', id)
    {
      IssuedAfter(s, step, id);
      if id !in s.db.items {
        NewItem(s, step, id);
        var i := TxOf(s, step).value.append;
        if !step.Foreign? { assert i in s.issued && i.item.id == id; }
      }
    }
  }

  lemma PricedAdmit(s: State, step: Step)
    requires Owned(s) && Priced(s) && Enabled(s, step) && Admits(s, step)
    requires OwnItems(s, step) && FixedAmounts(s, step)
    ensures Priced(Apply(s, step))
  {
    var s' := Apply(s, step);
    var added := Scheduled(s.bill, step.update, step.at);
    assert s'.db == s.db && s'.issued == s.issued + {added};
    var id := step.update.itemId;
    if id in s.db.items {
      assert IssuedId(s, id);
      var j :| j in s.issued && j.item.id == id;
      assert j.item.amount == added.item.amount;
    }
  }

  lemma PricedCommit(s: State, step: Step)
    requires Validated(s) && Priced(s) && Enabled(s, step) && TxOf(s, step).Some?
    requires OwnItems(s, step) && StartedOnce(s, step)
    ensures Priced(Apply(s, step))
  {
    var s' := Apply(s, step);
    assert s'.issued == s.issued;
    forall i | i in s.issued && i.item.id in s'.db.items
      ensures s'.db.items[i.item.id].amount == Round(i.item.amount)
    {
      var id := i.item.id;
      ItemsAfter(s.db, TxOf(s, step).value, id);
      if id !in s.db.items {
        NewItem(s, step, id);
        assert IssuedId(s, id);
      }
    }
  }

  lemma PricedStep(s: State, step: Step)
    requires Validated(s) && Owned(s) && Priced(s) && Enabled(s, step)
    requires OwnItems(s, step) && StartedOnce(s, step) && FixedAmounts(s, step)
    ensures Priced(Apply(s, step))
  {
    if Admits(s, step) {
      PricedAdmit(s, step);
    } else if TxOf(s, step).Some? {
      PricedCommit(s, step);
    } else {
      assert Apply(s, step).issued == s.issued && Apply(s, step).db == s.db;
    }
  }

  lemma PendingNew(s: State, step: Step, id: ItemId)
    requires Validated(s) && Enabled(s, step) && NoneAbandoned(s, step) && StartedOnce(s, step)
    requires id !in s.db.items
    requires TxOf(s, step).Some? && TxOf(s, step).value.Append?
    requires TxOf(s, step).value.append.item.id == id && TxOf(s, step).value.append.bill == s.bill.id
    ensures Pending(Apply(s, step), id)
  {
    var s' := Apply(s, step);
    assert step.AppendAttempt?;
    assert step.handler in s'.inflight && s'.inflight[step.handler].committed;
    assert s'.inflight[step.handler].input.item.id == id;
  }

  lemma PendingKept(s: State, step: Step, id: ItemId)
    requires Validated(s) && Enabled(s, step) && NoneAbandoned(s, step) && Pending(s, id)
    ensures id in Apply(s, step).seen || Pending(Apply(s, step), id)
  {
    var s' := Apply(s, step);
    var h :| h in s.inflight && s.inflight[h].committed && s.inflight[h].input.item.id == id;
    if !(step.AppendAck? && step.handler == h) {
      assert h in s'.inflight && s'.inflight[h].committed && s'.inflight[h].input.item.id == id;
    }
  }

  lemma TracedStep(s: State, step: Step)
    requires Validated(s) && Traced(s) && Enabled(s, step) && NoneAbandoned(s, step) && StartedOnce(s, step)
    ensures Traced(Apply(s, step))
  {
    var s' := Apply(s, step);
    forall id | id in s'.db.items && s'.db.items[id].bill == s'.bill.id
      ensures id in s'.seen || Pending(s', id)
    {
      if id !in s.db.items {
        NewItem(s, step, id);
        PendingNew(s, step, id);
      } else {
        if TxOf(s, step).Some? { ItemsAfter(s.db, TxOf(s, step).value, id); }
        if Pending(s, id) { PendingKept(s, step, id); }
      }
    }
  }

  lemma CapturedStep(s: State, step: Step)
    requires Captured(s) && Enabled(s, step) && NoLateUpdates(s, step)
    ensures Captured(Apply(s, step))
  {
    assert step.Update? && !Admits(s, step) ==> Apply(s, step).inflight == s.inflight;
  }

  /** An item about to be admitted is not stored yet. */
  lemma FaithfulAdmit(s: State, step: Step)
    requires Validated(s) && Traced(s) && Faithful(s) && Enabled(s, step) && Admits(s, step)
    requires NoOverlap(s, step) && OwnItems(s, step)
    ensures Faithful(Apply(s, step))
  {
    assert !Pending(s, step.update.itemId);
  }

  lemma FaithfulAttempt(s: State, h: nat)
    requires Durable(s) && Disjoint(s) && Faithful(s) && Enabled(s, AppendAttempt(h))
    ensures Faithful(Apply(s, AppendAttempt(h)))
  {
    var s' := Apply(s, AppendAttempt(h));
    var i := s.inflight[h].input;
    if i.item.id in s.db.items {
      assert s'.db == s.db;
    } else {
      assert s'.db.items == s.db.items[i.item.id := s'.db.items[i.item.id]];
    }
  }

  lemma FaithfulOther(s: State, step: Step, tx: Tx)
    requires Validated(s) && Durable(s) && Faithful(s) && Enabled(s, step) && TxOf(s, step) == Some(tx)
    requires !step.AppendAttempt? && OwnItems(s, step) && NoneAbandoned(s, step) && StartedOnce(s, step)
    ensures Faithful(Apply(s, step))
  {
    var s' := Apply(s, step);
    assert s'.inflight == s.inflight && s'.acked == s.acked;
    forall i | i in s.issued && i.item.id in s'.db.items
      ensures i.item.id in s.db.items && s'.db.items[i.item.id] == s.db.items[i.item.id]
    {
      ItemsAfter(s.db, tx, i.item.id);
      assert IssuedId(s, i.item.id);
    }
    forall h | h in s.inflight && !s.inflight[h].committed ensures s.inflight[h].input.item.id !in s'.db.items {
      assert s.inflight[h].input in s.issued;
    }
  }

  lemma FaithfulStep(s: State, step: Step)
    requires Validated(s) && Durable(s) && Disjoint(s) && Owned(s) && Traced(s) && Faithful(s) && Enabled(s, step)
    requires NoOverlap(s, step) && OwnItems(s, step) && NoneAbandoned(s, step) && StartedOnce(s, step)
    ensures Faithful(Apply(s, step))
  {
    if Admits(s, step) {
      FaithfulAdmit(s, step);
    } else if step.AppendAttempt? {
      FaithfulAttempt(s, step.handler);
    } else if TxOf(s, step).Some? {
      FaithfulOther(s, step, TxOf(s, step).value);
    } else {
      assert Apply(s, step).db == s.db;
    }
  }

  lemma OwnEventKept(s: State, step: Step, e: Event)
    requires Identified(s) && OwnEvent(s, e) && Enabled(s, step) && TxOf(s, step).None?
    ensures OwnEvent(Apply(s, step), e)
  {
  }

  lemma OwnRecordsKept(s: State, step: Step)
    requires Identified(s) && OwnRecords(s) && Enabled(s, step) && TxOf(s, step).None?
    ensures OwnRecords(Apply(s, step))
  {
    var s' := Apply(s, step);
    assert s'.db == s.db && s.issued <= s'.issued;
    forall e | OwnEvent(s, e) ensures OwnEvent(s', e) { OwnEventKept(s, step, e); }
    forall id | id in s.db.items && s.db.items[id].bill == s.bill.id ensures FromIssued(s', id) {
      assert FromIssued(s, id);
    }
  }

  lemma OwnEventsCommit(s: State, step: Step, tx: Tx)
    requires Identified(s) && Validated(s) && OwnEvents(s) && Enabled(s, step) && StartedOnce(s, step)
    requires TxOf(s, step) == Some(tx)
    ensures OwnEvents(Apply(s, step))
  {
    var s' := Apply(s, step);
    AuditLog.CommitShape(s.db, tx);
    forall k | 0 <= k < |s'.db.events| && s'.db.events[k].bill == s'.bill.id
      ensures OwnEvent(s', s'.db.events[k])
    {
      if k < |s.db.events| {
        assert s'.db.events[k] == s.db.events[k];
        assert OwnEvent(s, s.db.events[k]);
      }
    }
  }

  lemma OwnRowCommit(s: State, step: Step, tx: Tx)
    requires Identified(s) && Validated(s) && OwnRow(s) && Enabled(s, step) && StartedOnce(s, step)
    requires TxOf(s, step) == Some(tx)
    ensures OwnRow(Apply(s, step))
  {
  }

  lemma OwnItemRowsCommit(s: State, step: Step, tx: Tx)
    requires Validated(s) && OwnItemRows(s) && Enabled(s, step) && StartedOnce(s, step)
    requires TxOf(s, step) == Some(tx)
    ensures OwnItemRows(Apply(s, step))
  {
    var s' := Apply(s, step);
    assert s'.issued == s.issued;
    forall id | id in s'.db.items && s'.db.items[id].bill == s'.bill.id
      ensures FromIssued(s', id)
    {
      ItemsAfter(s.db, tx, id);
      if id !in s.db.items {
        NewItem(s, step, id);
        assert tx.append in s.issued;
      } else {
        assert FromIssued(s, id);
      }
    }
  }

  lemma OwnRecordsStep(s: State, step: Step)
    requires Identified(s) && Validated(s) && OwnRecords(s) && Enabled(s, step) && StartedOnce(s, step)
    ensures OwnRecords(Apply(s, step))
  {
    if TxOf(s, step).Some? {
      OwnEventsCommit(s, step, TxOf(s, step).value);
      OwnRowCommit(s, step, TxOf(s, step).value);
      OwnItemRowsCommit(s, step, TxOf(s, step).value);
    } else {
      OwnRecordsKept(s, step);
    }
  }

  lemma AllSeenStep(s: State, step: Step)
    requires Validated(s) && Captured(s) && AllSeen(s) && Enabled(s, step)
    requires InsertsAcked(s, step) && NoLateUpdates(s, step) && StartedOnce(s, step)
    ensures AllSeen(Apply(s, step))
  {
    var s' := Apply(s, step);
    if !s'.closing.NotClosing? {
      forall id | id in s'.db.items && s'.db.items[id].bill == s'.bill.id && IssuedId(s', id)
        ensures id in s'.seen
      {
        IssuedAfter(s, step, id);
        if id !in s.db.items {
          NewItem(s, step, id);
        } else if TxOf(s, step).Some? {
          ItemsAfter(s.db, TxOf(s, step).value, id);
        }
      }
    }
  }

  /** After the capture no append of this bill inserts. */
  lemma NoInsertAfterCapture(s: State, step: Step)
    requires Validated(s) && Captured(s) && Enabled(s, step) && !s.closing.NotClosing?
    requires InsertsAcked(s, step) && StartedOnce(s, step)
    requires TxOf(s, step).Some? && TxOf(s, step).value.Append? && Target(TxOf(s, step).value) == s.bill.id
    ensures Apply(s, step).db == s.db
  {
  }

  lemma RowFinalStep(s: State, step: Step)
    requires Validated(s) && Identified(s) && Captured(s) && RowFinal(s) && Enabled(s, step)
    requires InsertsAcked(s, step) && NoLateUpdates(s, step) && StartedOnce(s, step)
    ensures RowFinal(Apply(s, step))
  {
    var s' := Apply(s, step);
    var tx := TxOf(s, step);
    if CloseCommitted(s') && tx.Some? && s'.db != s.db {
      AuditLog.CommitShape(s.db, tx.value);
      if tx.value.Append? && Target(tx.value) == s.bill.id {
        NoInsertAfterCapture(s, step);
      } else if step.CloseAttempt? {
        assert s'.db.events[|s.db.events|].payload.BillClosed?;
      } else {
        var k :| 0 <= k < |s.db.events| && s.db.events[k].bill == s.bill.id && s.db.events[k].payload.BillClosed?;
        assert s'.db.events[k] == s.db.events[k];
      }
    }
  }

  lemma ConditionalStep(d: Discipline, s: State, step: Step)
    requires Inv(s) && Conditional(d, s) && Enabled(s, step) && Obeys(d, s, step)
    ensures Conditional(d, Apply(s, step))
  {
    if d.noOverlap { DisjointStep(s, step); }
    if d.ownItems && d.startedOnce { OwnedStep(s, step); }
    if d.ownItems && d.startedOnce && d.fixedAmounts { PricedStep(s, step); }
    if d.noLateUpdates { CapturedStep(s, step); }
    if d.insertsAcked && d.noLateUpdates && d.startedOnce {
      AllSeenStep(s, step);
      RowFinalStep(s, step);
    }
    if d.startedOnce { OwnRecordsStep(s, step); }
    if d.noneAbandoned && d.startedOnce { TracedStep(s, step); }
    if d.noneAbandoned && d.noOverlap && d.ownItems && d.startedOnce { FaithfulStep(s, step); }
  }

  lemma StartConditional(d: Discipline, input: Input, now: Time)
    requires input.snapshot.None? && input.seenIds == []
    ensures Conditional(d, Start(input, now))
  {
  }

  lemma {:induction false} RunConditional(d: Discipline, s: State, steps: seq<Step>)
    requires Inv(s) && Conditional(d, s) && Run(d, s, steps)
    ensures Conditional(d, Exec(d, s, steps))
  {
    if steps != [] {
      var init := steps[..|steps| - 1];
      RunInv(d, s, init);
      RunConditional(d, s, init);
      ConditionalStep(d, Exec(d, s, init), steps[|steps| - 1]);
    }
  }

  /** The bill may be captured only once nothing is pending, so not abandoning implies D4. */
  lemma NoneAbandonedAcks(s: State, step: Step)
    requires Traced(s) && Enabled(s, step) && NoneAbandoned(s, step)
    ensures InsertsAcked(s, step)
  {
    if step.Finalize? {
      forall id | id in s.db.items && s.db.items[id].bill == s.bill.id ensures id in s.seen {
        assert !Pending(s, id);
      }
    }
  }

  /** A run in which nothing is abandoned obeys D4 as well. */
  lemma {:induction false} NoneAbandonedRun(d: Discipline, s: State, steps: seq<Step>)
    requires d.noneAbandoned && d.startedOnce && Inv(s) && Conditional(d, s) && Run(d, s, steps)
    ensures var d' := d.(insertsAcked := true); Run(d', s, steps) && Exec(d', s, steps) == Exec(d, s, steps)
  {
    if steps != [] {
      var init := steps[..|steps| - 1];
      NoneAbandonedRun(d, s, init);
      RunConditional(d, s, init);
      NoneAbandonedAcks(Exec(d, s, init), steps[|steps| - 1]);
    }
  }

  /** An update was admitted at step k while another handler of its item ID was in flight. */
  ghost predicate OverlapsAt(d: Discipline, s: State, steps: seq<Step>, k: nat) {
    && k < |steps| && Run(d, s, steps[..k])
    && !NoOverlap(Exec(d, s, steps[..k]), steps[k])
  }

  lemma OverlapEarlier(d: Discipline, s: State, init: seq<Step>, steps: seq<Step>, k: nat)
    requires OverlapsAt(d, s, init, k) && init <= steps
    ensures OverlapsAt(d, s, steps, k)
  {
    assert init[..k] == steps[..k];
  }

  lemma LastKeepsApart(d: Discipline, s: State, steps: seq<Step>)
    requires steps != [] && Run(d, s, steps) && !OverlapsAt(d, s, steps, |steps| - 1)
    ensures NoOverlap(Exec(d, s, steps[..|steps| - 1]), steps[|steps| - 1])
  {
  }

  lemma {:induction false} DisjointWithoutOverlap(d: Discipline, s: State, steps: seq<Step>)
    requires Inv(s) && Disjoint(s) && Run(d, s, steps) && forall k :: !OverlapsAt(d, s, steps, k)
    ensures Disjoint(Exec(d, s, steps))
  {
    if steps != [] {
      var init := steps[..|steps| - 1];
      forall k: nat ensures !OverlapsAt(d, s, init, k) {
        if OverlapsAt(d, s, init, k) { OverlapEarlier(d, s, init, steps, k); }
      }
      DisjointWithoutOverlap(d, s, init);
      RunInv(d, s, init);
      LastKeepsApart(d, s, steps);
      DisjointStep(Exec(d, s, init), steps[|steps| - 1]);
    }
  }

  /** An item is counted twice only in a run in which two of its executions overlapped: some update
      was admitted while a handler of the same item ID was in flight. */
  lemma RepeatNeedsOverlap(d: Discipline, input: Input, now: Time, steps: seq<Step>)
    requires input.snapshot.None? && input.seenIds == []
    requires Run(d, Start(input, now), steps) && Repeats(Exec(d, Start(input, now), steps).acked) > 0
    ensures exists k :: OverlapsAt(d, Start(input, now), steps, k)
  {
    var s := Start(input, now);
    StartInv(input, now);
    if forall k :: !OverlapsAt(d, s, steps, k) { DisjointWithoutOverlap(d, s, steps); }
  }
}
