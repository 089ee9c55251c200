/** The theorems about a bill's close, over every run of the ledger. */
module Settlement {
  import opened Model
  import opened Money
  import opened Sums
  import opened Store
  import opened Ledger
  import opened Accounting
  import opened Reconciliation
  import AuditLog

  /** The rounded amounts of repeated executions: what overlaps add on top. */
  function RepeatTotal(acked: seq<AppendInput>): int {
    if acked == [] then 0 else
      var init, last := acked[..|acked| - 1], acked[|acked| - 1];
      RepeatTotal(init) + (if last.item.id in Ids(init) then Round(last.item.amount) else 0)
  }

  /** Stored items of the bill that the workflow never acknowledged. */
  function Unacked(s: State): Amounts {
    AmountsOf(s.db, s.bill.id) - s.seen
  }

  /** m holds the rounded price of every acknowledged item. */
  ghost predicate Covers(m: Amounts, acked: seq<AppendInput>) {
    forall k :: 0 <= k < |acked| ==> acked[k].item.id in m && m[acked[k].item.id] == Round(acked[k].item.amount)
  }

  lemma CoveredSum(m: Amounts, acked: seq<AppendInput>, i: AppendInput)
    requires i.item.id in m
    ensures Sum(Restrict(m, Ids(acked + [i]))) ==
            Sum(Restrict(m, Ids(acked))) + (if i.item.id in Ids(acked) then 0 else m[i.item.id])
  {
    AckedSums(acked, i);
    if i.item.id in Ids(acked) {
      assert Ids(acked + [i]) == Ids(acked);
    } else {
      assert Restrict(m, Ids(acked + [i])) == Restrict(m, Ids(acked))[i.item.id := m[i.item.id]];
      SumInsert(Restrict(m, Ids(acked)), i.item.id, m[i.item.id]);
    }
  }

  lemma {:induction false} AckedDecompose(m: Amounts, acked: seq<AppendInput>)
    requires Covers(m, acked)
    ensures RoundedTotal(Prices(acked)) == Sum(Restrict(m, Ids(acked))) + RepeatTotal(acked)
  {
    if acked != [] {
      var init, last := acked[..|acked| - 1], acked[|acked| - 1];
      AckedDecompose(m, init);
      assert acked == init + [last];
      CoveredSum(m, init, last);
      assert Prices(acked)[..|init|] == Prices(init);
    } else {
      assert Restrict(m, Ids(acked)) == map[];
    }
  }

  /** Acknowledged items are stored, for this bill, at the rounded amount. */
  lemma StoredAtPrice(s: State)
    requires Inv(s) && Owned(s) && (Priced(s) || Faithful(s))
    ensures Covers(AmountsOf(s.db, s.bill.id), s.acked)
  {
    forall k | 0 <= k < |s.acked|
      ensures var m := AmountsOf(s.db, s.bill.id);
        s.acked[k].item.id in m && m[s.acked[k].item.id] == Round(s.acked[k].item.amount)
    {
      var i := s.acked[k];
      assert i in s.issued;
      assert IssuedId(s, i.item.id);
    }
  }

  lemma SeenStored(s: State)
    requires Accounted(s) && Covers(AmountsOf(s.db, s.bill.id), s.acked)
    ensures s.seen <= AmountsOf(s.db, s.bill.id).Keys
  {
    forall id | id in s.seen ensures id in AmountsOf(s.db, s.bill.id) {
      var k :| 0 <= k < |s.acked| && s.acked[k].item.id == id;
    }
  }

  lemma TableSplit(m: Amounts, keys: set<string>)
    requires keys <= m.Keys
    ensures |m| == |keys| + |m - keys|
  {
    assert m.Keys == keys + (m - keys).Keys;
    assert |m.Keys| == |keys| + |(m - keys).Keys|;
  }

  lemma DiscrepancyOf(m: Amounts, acked: seq<AppendInput>, seen: set<ItemId>)
    requires Covers(m, acked) && seen == Ids(acked) && seen <= m.Keys
    ensures RoundedTotal(Prices(acked)) - Sum(m) == RepeatTotal(acked) - Sum(m - seen)
    ensures |m| == |seen| + |m - seen|
  {
    AckedDecompose(m, acked);
    SumSplit(m, seen);
    TableSplit(m, seen);
  }

  lemma RoundedDiscrepancy(s: State)
    requires Accounted(s) && Covers(AmountsOf(s.db, s.bill.id), s.acked)
    ensures RoundedTotal(Prices(s.acked)) - Sum(AmountsOf(s.db, s.bill.id)) ==
            RepeatTotal(s.acked) - Sum(Unacked(s))
    ensures s.bill.count - |AmountsOf(s.db, s.bill.id)| == Repeats(s.acked) - |Unacked(s)|
  {
    SeenStored(s);
    OverlapCount(s);
    DiscrepancyOf(AmountsOf(s.db, s.bill.id), s.acked, s.seen);
  }

  lemma WholePrices(s: State)
    requires Validated(s) && AllWhole(s)
    ensures forall k :: 0 <= k < |s.acked| ==> IsWhole(Prices(s.acked)[k])
  {
    forall k | 0 <= k < |s.acked| ensures IsWhole(Prices(s.acked)[k]) {
      assert s.acked[k] in s.issued;
    }
  }

  lemma {:induction false} RepeatsCost(m: Amounts, acked: seq<AppendInput>)
    requires Covers(m, acked) && forall k :: k in m ==> m[k] > 0
    ensures RepeatTotal(acked) >= Repeats(acked)
    ensures Repeats(acked) == 0 ==> RepeatTotal(acked) == 0
  {
    if acked != [] { RepeatsCost(m, acked[..|acked| - 1]); }
  }

  /** All invariants of a reachable state at once. */
  lemma Reach(d: Discipline, input: Input, now: Time, steps: seq<Step>) returns (s: State)
    requires input.snapshot.None? && input.seenIds == []
    requires Run(d, Start(input, now), steps)
    ensures s == Exec(d, Start(input, now), steps)
    ensures Inv(s) && Conditional(d, s) && AuditLog.Consistent(s.db)
  {
    s := Exec(d, Start(input, now), steps);
    StartInv(input, now);
    StartConditional(d, input, now);
    RunInv(d, Start(input, now), steps);
    RunConditional(d, Start(input, now), steps);
    RunDb(d, Start(input, now), steps);
  }

  /** What overlaps added on top of the stored items, less what was never acknowledged. */
  ghost function Gap(s: State): int {
    RepeatTotal(s.acked) - Sum(Unacked(s))
  }

  /** The count is off by repeats less unacknowledged items, and the total by their amounts, up to
      the half-units that rounding each amount may move. */
  ghost predicate Discrepant(s: State, exact: bool) {
    var items := AmountsOf(s.db, s.bill.id);
    && s.bill.count - |items| == Repeats(s.acked) - |Unacked(s)|
    && -(s.bill.count / 2) <= Round(s.bill.total) - Sum(items) - Gap(s) <= s.bill.count / 2
    && (exact ==> s.bill.total - Sum(items) as real == Gap(s) as real)
  }

  /** The memory's total against the sum of the rounded prices. */
  lemma TotalRounds(s: State, exact: bool)
    requires Accounted(s) && Validated(s) && (exact ==> AllWhole(s))
    ensures -(s.bill.count / 2) <= Round(s.bill.total) - RoundedTotal(Prices(s.acked)) <= s.bill.count / 2
    ensures exact ==> s.bill.total == RoundedTotal(Prices(s.acked)) as real && Round(s.bill.total) == RoundedTotal(Prices(s.acked))
  {
    forall k | 0 <= k < |s.acked| ensures Prices(s.acked)[k] >= 0.0 { assert s.acked[k] in s.issued; }
    RoundingBound(Prices(s.acked));
    if exact {
      WholePrices(s);
      WholeTotals(Prices(s.acked));
    }
  }

  lemma DiscrepantAt(s: State, exact: bool)
    requires Accounted(s) && Validated(s) && (exact ==> AllWhole(s))
    requires Covers(AmountsOf(s.db, s.bill.id), s.acked)
    ensures Discrepant(s, exact)
  {
    RoundedDiscrepancy(s);
    TotalRounds(s, exact);
  }

  /** The exact discrepancy between memory and table in every reachable state under D2, D3 and D6,
      whatever overlapped or went missing. */
  lemma Discrepancy(d: Discipline, input: Input, now: Time, steps: seq<Step>)
    requires input.snapshot.None? && input.seenIds == []
    requires d.ownItems && d.fixedAmounts && d.startedOnce
    requires Run(d, Start(input, now), steps)
    ensures Discrepant(Exec(d, Start(input, now), steps), d.whole)
  {
    var s := Reach(d, input, now, steps);
    StoredAtPrice(s);
    DiscrepantAt(s, d.whole);
  }

  /** With nothing on one side of the gap, it is zero exactly when there is nothing on the other. */
  ghost predicate GapOneSided(s: State) {
    && (Unacked(s) == map[] ==> Gap(s) == RepeatTotal(s.acked) && (Gap(s) == 0 <==> Repeats(s.acked) == 0))
    && (Repeats(s.acked) == 0 ==> Gap(s) == -Sum(Unacked(s)) && (Gap(s) == 0 <==> Unacked(s) == map[]))
  }

  lemma SumPositive(m: Amounts)
    requires forall k :: k in m ==> m[k] > 0
    ensures Sum(m) >= 0 && (Sum(m) == 0 <==> m == map[])
  {
    SumNonNegative(m);
    if m != map[] {
      var k :| k in m;
      assert |m| > 0;
    }
  }

  lemma GapAt(s: State)
    requires AuditLog.ItemsOk(s.db) && Covers(AmountsOf(s.db, s.bill.id), s.acked)
    ensures GapOneSided(s)
  {
    assert forall k :: k in AmountsOf(s.db, s.bill.id) ==> AmountsOf(s.db, s.bill.id)[k] > 0;
    RepeatsCost(AmountsOf(s.db, s.bill.id), s.acked);
    SumPositive(Unacked(s));
  }

  /** The total is the stored sum exactly when overlaps added what was never acknowledged; with
      nothing unacknowledged, exactly when nothing overlapped, and the other way round. */
  ghost predicate TotalIsSumExactly(s: State) {
    var sum := Sum(AmountsOf(s.db, s.bill.id));
    && s.bill.total - sum as real == Gap(s) as real
    && (s.bill.total == sum as real <==> RepeatTotal(s.acked) == Sum(Unacked(s)))
    && (Unacked(s) == map[] ==> (s.bill.total == sum as real <==> Repeats(s.acked) == 0))
    && (Repeats(s.acked) == 0 ==> (s.bill.total == sum as real <==> Unacked(s) == map[]))
    && (s.closing.Returned? ==> s.closing.result.total == s.bill.total)
  }

  lemma TotalIsSumAt(s: State)
    requires Identified(s) && Discrepant(s, true) && GapOneSided(s)
    ensures TotalIsSumExactly(s)
  {
  }

  /** Exactly when the workflow's total is the sum of the stored items, in every reachable state
      of runs with D2, D3, D6 and whole amounts. */
  lemma TotalIsSumIff(d: Discipline, input: Input, now: Time, steps: seq<Step>)
    requires input.snapshot.None? && input.seenIds == []
    requires d.ownItems && d.fixedAmounts && d.startedOnce && d.whole
    requires Run(d, Start(input, now), steps)
    ensures TotalIsSumExactly(Exec(d, Start(input, now), steps))
  {
    var s := Reach(d, input, now, steps);
    StoredAtPrice(s);
    DiscrepantAt(s, true);
    GapAt(s);
    TotalIsSumAt(s);
  }

  /** Nothing is counted twice, and what memory lacks is exactly what is not seen: up to half a
      unit for each item, or exactly. */
  ghost predicate CountsOnce(s: State, exact: bool) {
    var missing := Sum(AmountsOf(s.db, s.bill.id)) - Sum(Unacked(s));
    && s.bill.count == |s.seen|
    && -(s.bill.count / 2) <= Round(s.bill.total) - missing <= s.bill.count / 2
    && (exact ==> s.bill.total == missing as real)
  }

  lemma CountsOnceAt(s: State, exact: bool)
    requires Accounted(s) && Repeats(s.acked) == 0 && Discrepant(s, exact) && GapOneSided(s)
    ensures CountsOnce(s, exact)
  {
    OverlapCount(s);
  }

  /** Under D1, D2, D3 and D6. */
  lemma NoOverlapAccounting(d: Discipline, input: Input, now: Time, steps: seq<Step>)
    requires input.snapshot.None? && input.seenIds == []
    requires d.noOverlap && d.ownItems && d.fixedAmounts && d.startedOnce
    requires Run(d, Start(input, now), steps)
    ensures CountsOnce(Exec(d, Start(input, now), steps), d.whole)
  {
    var s := Reach(d, input, now, steps);
    StoredAtPrice(s);
    DiscrepantAt(s, d.whole);
    GapAt(s);
    CountsOnceAt(s, d.whole);
  }

  /** D1 to D6. */
  predicate Strict(d: Discipline) {
    d.noOverlap && d.ownItems && d.fixedAmounts && d.insertsAcked && d.noLateUpdates && d.startedOnce
  }

  /** D1, D2, D5 and D6, and no inserting handler gives up: D3 and D4 follow where they matter. */
  predicate Unabandoned(d: Discipline) {
    d.noOverlap && d.ownItems && d.noLateUpdates && d.startedOnce && d.noneAbandoned
  }

  /** What the workflow returns is what it captured for the close. */
  ghost predicate ResultMatches(s: State) {
    s.closing.Returned? ==>
      s.closing.result == BillResult(s.bill.id, s.closing.input.total, s.bill.currency, s.bill.count, s.closing.input.reason)
  }

  /** The row is closed exactly when a close attempt has committed, acknowledged or not, and then
      it carries the captured total, rounded to the column's scale, the reason and the time. */
  ghost predicate RowMatches(s: State) {
    && (s.bill.id in s.db.bills ==> (s.db.bills[s.bill.id].status == Closed <==> CloseCommitted(s)))
    && (CloseCommitted(s) ==>
          && s.bill.id in s.db.bills
          && s.db.bills[s.bill.id].total == Round(s.closing.input.total)
          && s.db.bills[s.bill.id].currency == s.bill.currency
          && s.db.bills[s.bill.id].closeReason == Some(s.closing.input.reason)
          && s.db.bills[s.bill.id].closedAt == Some(s.closing.input.closedAt))
  }

  predicate IsClosedEvent(s: State, k: int) {
    0 <= k < |s.db.events| && s.db.events[k].bill == s.bill.id && s.db.events[k].payload.BillClosed?
  }

  /** There is a CLOSED event exactly when a close attempt has committed, and each one carries the
      captured exact total and reason. */
  ghost predicate EventsMatch(s: State) {
    && (CloseCommitted(s) <==> exists k :: IsClosedEvent(s, k))
    && (forall k :: IsClosedEvent(s, k) ==>
          && s.db.events[k].payload.total == s.closing.input.total
          && s.db.events[k].payload.reason == s.closing.input.reason)
  }

  /** From the capture on the memory counts the stored items, and the captured total is their sum:
      up to floor(n / 2) units of rounding in general, exactly when the amounts are whole. */
  ghost predicate ItemsMatch(s: State, exact: bool) {
    !s.closing.NotClosing? ==>
      var items := AmountsOf(s.db, s.bill.id);
      var total := s.closing.input.total;
      && s.bill.count == |items|
      && -(|items| / 2) <= Round(total) - Sum(items) <= |items| / 2
      && (exact ==> Round(total) == Sum(items) && total == Sum(items) as real)
  }

  ghost predicate Reconciled(s: State, exact: bool) {
    ResultMatches(s) && RowMatches(s) && EventsMatch(s) && ItemsMatch(s, exact)
  }

  lemma RowMatchesAt(s: State)
    requires Identified(s) && Captured(s) && RowFinal(s) && OwnRow(s)
    ensures ResultMatches(s) && RowMatches(s)
  {
  }

  lemma EventsMatchAt(s: State)
    requires RowFinal(s) && OwnEvents(s)
    ensures EventsMatch(s)
  {
    if CloseCommitted(s) {
      var j :| 0 <= j < |s.db.events| && s.db.events[j].bill == s.bill.id && s.db.events[j].payload.BillClosed?;
      assert IsClosedEvent(s, j);
    }
    forall k | IsClosedEvent(s, k)
      ensures CloseCommitted(s)
      ensures s.db.events[k].payload.total == s.closing.input.total
      ensures s.db.events[k].payload.reason == s.closing.input.reason
    {
      assert OwnEvent(s, s.db.events[k]);
    }
  }

  lemma NothingUnacked(s: State)
    requires Owned(s) && AllSeen(s) && !s.closing.NotClosing?
    ensures Unacked(s) == map[]
  {
    forall id | id in AmountsOf(s.db, s.bill.id) ensures id in s.seen { assert IssuedId(s, id); }
  }

  lemma ItemsMatchAt(s: State, exact: bool)
    requires Inv(s) && AuditLog.ItemsOk(s.db) && (exact ==> AllWhole(s))
    requires Disjoint(s) && Owned(s) && Covers(AmountsOf(s.db, s.bill.id), s.acked) && Captured(s) && AllSeen(s)
    ensures ItemsMatch(s, exact)
  {
    if !s.closing.NotClosing? {
      NothingUnacked(s);
      DiscrepantAt(s, exact);
      GapAt(s);
    }
  }

  lemma ReconciledAt(s: State, exact: bool)
    requires Inv(s) && AuditLog.ItemsOk(s.db) && (exact ==> AllWhole(s))
    requires Disjoint(s) && Owned(s) && Covers(AmountsOf(s.db, s.bill.id), s.acked)
    requires Captured(s) && AllSeen(s) && RowFinal(s) && OwnRecords(s)
    ensures Reconciled(s, exact)
  {
    assert ResultMatches(s) && RowMatches(s) by { RowMatchesAt(s); }
    assert EventsMatch(s) by { EventsMatchAt(s); }
    assert ItemsMatch(s, exact) by { ItemsMatchAt(s, exact); }
  }

  /** Close reconciliation, under D1 to D6, for any interleaving and retry pattern: handlers that
      give up after their insert committed included, as long as a retry is acknowledged in time. */
  lemma CloseReconciles(d: Discipline, input: Input, now: Time, steps: seq<Step>)
    requires input.snapshot.None? && input.seenIds == []
    requires Strict(d) && Run(d, Start(input, now), steps)
    ensures Reconciled(Exec(d, Start(input, now), steps), d.whole)
  {
    var s := Reach(d, input, now, steps);
    StoredAtPrice(s);
    ReconciledAt(s, d.whole);
  }

  /** The same when no inserting handler gives up; items may then change their amount on retry. */
  lemma UnabandonedReconciles(d: Discipline, input: Input, now: Time, steps: seq<Step>)
    requires input.snapshot.None? && input.seenIds == []
    requires Unabandoned(d) && Run(d, Start(input, now), steps)
    ensures Reconciled(Exec(d, Start(input, now), steps), d.whole)
  {
    StartInv(input, now);
    StartConditional(d, input, now);
    NoneAbandonedRun(d, Start(input, now), steps);
    var s := Reach(d.(insertsAcked := true), input, now, steps);
    StoredAtPrice(s);
    ReconciledAt(s, d.whole);
  }

  lemma CloseFits(s: State)
    requires Inv(s) && Reconciled(s, true) && AuditLog.Consistent(s.db) && !s.closing.NotClosing?
    ensures Enabled(s, CloseAttempt)
  {
    assert s.bill.id in s.db.bills;
    if s.db.bills[s.bill.id].status == Open {
      assert s.db.bills[s.bill.id].total == Sum(AmountsOf(s.db, s.bill.id));
    }
    assert Fits(Round(s.closing.input.total));
  }

  /** A captured close can always be written: under D1 to D6 and whole amounts its total is in range
      and its row is there, however often it is attempted. */
  lemma CloseCommits(d: Discipline, input: Input, now: Time, steps: seq<Step>)
    requires input.snapshot.None? && input.seenIds == []
    requires Strict(d) && d.whole && Run(d, Start(input, now), steps)
    ensures var s := Exec(d, Start(input, now), steps);
      !s.closing.NotClosing? ==> Enabled(s, CloseAttempt)
  {
    var s := Reach(d, input, now, steps);
    CloseReconciles(d, input, now, steps);
    if !s.closing.NotClosing? { CloseFits(s); }
  }

  predicate NoAcks(steps: seq<Step>) {
    forall k :: 0 <= k < |steps| ==> !steps[k].AppendAck?
  }

  lemma AfterCaptureStep(s: State, step: Step)
    requires Validated(s) && Enabled(s, step) && !s.closing.NotClosing?
    ensures var s' := Apply(s, step);
      && !s'.closing.NotClosing? && s'.closing.input == s.closing.input
      && (if step.AppendAck? then s'.bill.total > s.bill.total else s'.bill.total == s.bill.total)
  {
  }

  lemma NoAcksInit(steps: seq<Step>)
    requires steps != []
    ensures NoAcks(steps) <==> NoAcks(steps[..|steps| - 1]) && !steps[|steps| - 1].AppendAck?
  {
    var init := steps[..|steps| - 1];
    assert forall k :: 0 <= k < |init| ==> init[k] == steps[k];
  }

  /** The captured total stays what it was, and the memory moves away from it with the first
      acknowledgement. */
  lemma {:induction false} AfterCapture(d: Discipline, s: State, steps: seq<Step>)
    requires Inv(s) && !s.closing.NotClosing? && s.closing.input.total == s.bill.total && Run(d, s, steps)
    ensures var s' := Exec(d, s, steps);
      && !s'.closing.NotClosing? && s'.closing.input == s.closing.input
      && s'.bill.total >= s.bill.total
      && (s'.bill.total == s.closing.input.total <==> NoAcks(steps))
  {
    if steps != [] {
      var init, step := steps[..|steps| - 1], steps[|steps| - 1];
      AfterCapture(d, s, init);
      RunInv(d, s, init);
      AfterCaptureStep(Exec(d, s, init), step);
      NoAcksInit(steps);
    }
  }

  /** The returned total is the captured one, which the row and the CLOSED event carry, exactly when
      no execution was acknowledged after the capture. */
  lemma ResultIsCapturedIff(d: Discipline, s: State, reason: CloseReason, at: Time, steps: seq<Step>)
    requires Inv(s) && Enabled(s, Finalize(reason, at)) && Run(d, Apply(s, Finalize(reason, at)), steps)
    ensures var s' := Exec(d, Apply(s, Finalize(reason, at)), steps);
      && !s'.closing.NotClosing? && s'.closing.input.total == s.bill.total
      && (s'.closing.Returned? ==> (s'.closing.result.total == s'.closing.input.total <==> NoAcks(steps)))
  {
    var captured := Apply(s, Finalize(reason, at));
    InvStep(s, Finalize(reason, at));
    AfterCapture(d, captured, steps);
    RunInv(d, captured, steps);
  }

  /** While the bill is open its row's total is exactly the sum of its stored amounts,
      with no side condition. */
  lemma OpenRowIsSum(d: Discipline, input: Input, now: Time, steps: seq<Step>, b: BillId)
    requires input.snapshot.None? && input.seenIds == []
    requires Run(d, Start(input, now), steps)
    ensures var db := Exec(d, Start(input, now), steps).db;
      b in db.bills && db.bills[b].status == Open ==> db.bills[b].total == Sum(AmountsOf(db, b))
  {
    var s := Reach(d, input, now, steps);
  }

  /** The bill's own identity, and the row's, are the input's. */
  ghost predicate IdentityAgrees(s: State, input: Input, now: Time) {
    && s.bill.id == input.bill && s.bill.account == input.account && s.bill.currency == input.currency
    && (input.bill in s.db.bills ==>
          && s.db.bills[input.bill].account == input.account && s.db.bills[input.bill].currency == input.currency
          && s.db.bills[input.bill].periodStart == input.periodStart
          && s.db.bills[input.bill].periodEnd == input.periodEnd && s.db.bills[input.bill].createdAt == now)
  }

  /** Every stored item is positive, in the bill's currency and one that was scheduled. */
  ghost predicate ItemsAgree(s: State, input: Input) {
    forall id :: id in s.db.items && s.db.items[id].bill == input.bill ==>
      s.db.items[id].amount > 0 && s.db.items[id].currency == input.currency && FromIssued(s, id)
  }

  predicate EventAgrees(e: Event, input: Input) {
    match e.payload
    case Opened(c, from, to) => c == input.currency && from == input.periodStart && to == input.periodEnd
    case ItemAdded(_, _, _, _) => e.actor == input.account
    case BillClosed(_, reason) => e.actor == if reason == PeriodEnd then SYSTEM_ACTOR else input.account
  }

  /** OPENED tells the input's currency and period, ITEM_ADDED actors are the account, and a CLOSED
      event is the system's exactly when the period ended. */
  ghost predicate EventsAgree(s: State, input: Input) {
    input.account != "" && input.account != SYSTEM_ACTOR ==>
      forall k :: 0 <= k < |s.db.events| && s.db.events[k].bill == input.bill ==> EventAgrees(s.db.events[k], input)
  }

  ghost predicate Agreed(s: State, input: Input, now: Time) {
    IdentityAgrees(s, input, now) && ItemsAgree(s, input) && EventsAgree(s, input)
  }

  lemma {:induction false} FirstIsInput(d: Discipline, input: Input, now: Time, steps: seq<Step>)
    requires Run(d, Start(input, now), steps)
    ensures Exec(d, Start(input, now), steps).first == InitialBill(input, now)
  {
    if steps != [] { FirstIsInput(d, input, now, steps[..|steps| - 1]); }
  }

  lemma IdentityAt(s: State, input: Input, now: Time)
    requires input.snapshot.None? && Identified(s) && OwnRow(s) && s.first == InitialBill(input, now)
    ensures IdentityAgrees(s, input, now)
  {
  }

  lemma ItemsAgreeAt(s: State, input: Input)
    requires Validated(s) && OwnItemRows(s) && AuditLog.ItemsOk(s.db)
    requires s.bill.id == input.bill && s.bill.currency == input.currency
    ensures ItemsAgree(s, input)
  {
    forall id | id in s.db.items && s.db.items[id].bill == input.bill
      ensures s.db.items[id].amount > 0 && s.db.items[id].currency == input.currency
    {
      assert FromIssued(s, id);
    }
  }

  lemma EventsAgreeAt(s: State, input: Input, now: Time)
    requires input.snapshot.None? && Identified(s) && OwnEvents(s) && s.first == InitialBill(input, now)
    ensures EventsAgree(s, input)
  {
    forall k | 0 <= k < |s.db.events| && s.db.events[k].bill == input.bill
      && input.account != "" && input.account != SYSTEM_ACTOR
      ensures EventAgrees(s.db.events[k], input)
    {
      assert OwnEvent(s, s.db.events[k]);
    }
  }

  /** Lifetime agreement, under D6 alone. */
  lemma LifetimeAgreement(d: Discipline, input: Input, now: Time, steps: seq<Step>)
    requires input.snapshot.None? && input.seenIds == []
    requires d.startedOnce && Run(d, Start(input, now), steps)
    ensures Agreed(Exec(d, Start(input, now), steps), input, now)
  {
    var s := Reach(d, input, now, steps);
    FirstIsInput(d, input, now, steps);
    IdentityAt(s, input, now);
    ItemsAgreeAt(s, input);
    EventsAgreeAt(s, input, now);
  }
}
