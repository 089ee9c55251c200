/** What every run of the ledger keeps, with no side condition at all: the accounting identity,
    durability before acknowledgement, monotone replies, and consistent tables. */
module Accounting {
  import opened Model
  import opened Money
  import opened Store
  import opened Ledger
  import AuditLog

  /** The memory is exactly the acknowledged executions: their sum, their number, their IDs. */
  ghost predicate Accounted(s: State) {
    && s.bill.total == Total(Prices(s.acked))
    && s.bill.count == |s.acked|
    && s.seen == Ids(s.acked)
  }

  /** Every scheduled append went through the validator. */
  ghost predicate Validated(s: State) {
    && (forall i :: i in s.issued ==>
          && i.bill == s.bill.id && i.actor == s.bill.account && i.item.currency == s.bill.currency
          && i.item.amount > 0.0 && i.item.description != "")
    && (forall k :: 0 <= k < |s.acked| ==> s.acked[k] in s.issued)
    && (forall h :: h in s.inflight ==> h < s.next && s.inflight[h].input in s.issued)
  }

  /** The bill's identity never changes. */
  ghost predicate Constant(s: State) {
    && s.first.status == Open
    && s.bill.id == s.first.id && s.bill.account == s.first.account && s.bill.currency == s.first.currency
    && s.bill.createdAt == s.first.createdAt
    && s.bill.periodStart == s.first.periodStart && s.bill.periodEnd == s.first.periodEnd
  }

  /** Its status follows the main coroutine. */
  ghost predicate Followed(s: State) {
    && (s.closing.NotClosing? ==>
          s.bill.status == Open && s.bill.closedAt == None && s.bill.closeReason == NoReason)
    && (!s.closing.NotClosing? ==>
          && s.bill.status == Closed
          && s.bill.closeReason == s.closing.input.reason != NoReason
          && s.bill.closedAt == Some(s.closing.input.closedAt)
          && s.closing.input.bill == s.bill.id
          && s.closing.input.total <= s.bill.total
          && s.closing.input.actor == (if s.bill.closeReason == Signal then s.bill.account else SYSTEM_ACTOR))
    && (s.closing.Returned? ==> s.closing.result == ResultOf(s.bill, s.bill.closeReason))
  }

  ghost predicate Identified(s: State) {
    Constant(s) && Followed(s)
  }

  /** Acknowledged items are in the table, and so are those whose attempt has committed. */
  ghost predicate StoredFirst(s: State) {
    && (forall k :: 0 <= k < |s.acked| ==> s.acked[k].item.id in s.db.items)
    && (forall h :: h in s.inflight && s.inflight[h].committed ==> s.inflight[h].input.item.id in s.db.items)
  }

  /** The bill's row is there before anything is charged to it. */
  ghost predicate RowFirst(s: State) {
    && (s.creation.Created? || s.creation == Creating(true) ==> s.bill.id in s.db.bills)
    && (s.creation.Creating? || s.creation.CreateFailed? ==> s.closing.NotClosing? && s.issued == {})
  }

  ghost predicate Durable(s: State) {
    StoredFirst(s) && RowFirst(s)
  }

  /** Successful replies never go down, in completion order. */
  ghost predicate Monotone(s: State) {
    && (forall j :: 0 <= j < |s.replies| && s.replies[j].Accepted? ==>
          s.replies[j].total <= s.bill.total && s.replies[j].count <= s.bill.count)
    && (forall i, j :: 0 <= i < j < |s.replies| && s.replies[i].Accepted? && s.replies[j].Accepted? ==>
          s.replies[i].total <= s.replies[j].total && s.replies[i].count <= s.replies[j].count)
  }

  /** What a successful reply says was so: the item was among the first `count` acknowledged ones, and
      their sum was `total`. */
  ghost predicate Told(acked: seq<AppendInput>, r: Reply)
    requires r.Accepted?
  {
    && 1 <= r.count <= |acked|
    && r.itemId in Ids(acked[..r.count])
    && r.total == Total(Prices(acked[..r.count]))
  }

  ghost predicate Truthful(s: State) {
    forall j :: 0 <= j < |s.replies| && s.replies[j].Accepted? ==> Told(s.acked, s.replies[j])
  }

  ghost predicate Inv(s: State) {
    Accounted(s) && Validated(s) && Identified(s) && Durable(s) && Monotone(s) && Truthful(s)
  }

  lemma StartInv(input: Input, now: Time)
    requires input.snapshot.None? && input.seenIds == []
    ensures Inv(Start(input, now)) && AuditLog.Consistent(Start(input, now).db)
  {
    AuditLog.ReplayConsistent([]);
  }

  lemma AckedSums(acked: seq<AppendInput>, i: AppendInput)
    ensures Total(Prices(acked + [i])) == Total(Prices(acked)) + i.item.amount
    ensures Ids(acked + [i]) == Ids(acked) + {i.item.id}
  {
    assert Prices(acked + [i])[..|acked|] == Prices(acked);
    forall id | id in Ids(acked) + {i.item.id} ensures id in Ids(acked + [i]) {
      if id in Ids(acked) {
        var k :| 0 <= k < |acked| && acked[k].item.id == id;
        assert (acked + [i])[k].item.id == id;
      } else {
        assert (acked + [i])[|acked|].item.id == id;
      }
    }
    forall id | id in Ids(acked + [i]) ensures id in Ids(acked) + {i.item.id} {
      var k :| 0 <= k < |acked + [i]| && (acked + [i])[k].item.id == id;
      if k < |acked| { assert acked[k].item.id == id; }
    }
  }

  lemma AccountedStep(s: State, step: Step)
    requires Accounted(s) && Enabled(s, step)
    ensures Accounted(Apply(s, step))
  {
    if step.AppendAck? {
      AckedSums(s.acked, s.inflight[step.handler].input);
    }
  }

  lemma ValidatedStep(s: State, step: Step)
    requires Validated(s) && Enabled(s, step)
    ensures Validated(Apply(s, step))
  {
  }

  lemma ConstantStep(s: State, step: Step)
    requires Constant(s) && Enabled(s, step)
    ensures Constant(Apply(s, step))
  {
  }

  lemma FollowedStep(s: State, step: Step)
    requires Followed(s) && Validated(s) && Enabled(s, step)
    ensures Followed(Apply(s, step))
  {
  }

  lemma IdentifiedStep(s: State, step: Step)
    requires Identified(s) && Validated(s) && Enabled(s, step)
    ensures Identified(Apply(s, step))
  {
    ConstantStep(s, step);
    FollowedStep(s, step);
  }

  /** An append that commits leaves its item in the table, whoever inserted it. */
  lemma AppendStores(db: Db, i: AppendInput)
    requires Commit(db, Append(i)).Some?
    ensures i.item.id in After(db, Append(i)).items
  {
  }

  lemma DbKeeps(s: State, step: Step)
    requires Enabled(s, step)
    ensures AuditLog.Keeps(s.db, Apply(s, step).db)
  {
    if TxOf(s, step).Some? {
      AuditLog.StepKeeps(s.db, TxOf(s, step).value);
    }
  }

  lemma StoredFirstStep(s: State, step: Step)
    requires StoredFirst(s) && Enabled(s, step)
    ensures StoredFirst(Apply(s, step))
  {
    DbKeeps(s, step);
    if step.AppendAttempt? {
      AppendStores(s.db, s.inflight[step.handler].input);
    }
  }

  lemma RowFirstStep(s: State, step: Step)
    requires RowFirst(s) && Identified(s) && Enabled(s, step)
    ensures RowFirst(Apply(s, step))
  {
    DbKeeps(s, step);
  }

  lemma DurableStep(s: State, step: Step)
    requires Durable(s) && Identified(s) && Enabled(s, step)
    ensures Durable(Apply(s, step))
  {
    StoredFirstStep(s, step);
    RowFirstStep(s, step);
  }

  /** A reply that carries the new totals, which are not below the old ones. */
  lemma Replied(s: State, s': State, r: Reply)
    requires Monotone(s) && s'.replies == s.replies + [r]
    requires s.bill.total <= s'.bill.total && s.bill.count <= s'.bill.count
    requires r.Accepted? ==> r.total == s'.bill.total && r.count == s'.bill.count
    ensures Monotone(s')
  {
    assert forall j :: 0 <= j < |s.replies| ==> s'.replies[j] == s.replies[j];
  }

  lemma MonotoneStep(s: State, step: Step)
    requires Monotone(s) && Validated(s) && Enabled(s, step)
    ensures Monotone(Apply(s, step))
  {
    var s' := Apply(s, step);
    if s'.replies != s.replies { Replied(s, s', s'.replies[|s.replies|]); }
  }

  lemma ToldLater(acked: seq<AppendInput>, i: AppendInput, r: Reply)
    requires r.Accepted? && Told(acked, r)
    ensures Told(acked + [i], r)
  {
    assert (acked + [i])[..r.count] == acked[..r.count];
  }

  /** The current totals, told of an item that is among the acknowledged ones. */
  lemma ToldNow(acked: seq<AppendInput>, id: ItemId)
    requires id in Ids(acked)
    ensures Told(acked, Accepted(id, Total(Prices(acked)), |acked|))
  {
    assert acked[..|acked|] == acked;
  }

  lemma TruthfulAck(s: State, h: nat)
    requires Accounted(s) && Truthful(s) && Enabled(s, AppendAck(h))
    ensures Truthful(Apply(s, AppendAck(h)))
  {
    var s', i := Apply(s, AppendAck(h)), s.inflight[h].input;
    forall j | 0 <= j < |s.replies| && s.replies[j].Accepted? ensures Told(s'.acked, s'.replies[j]) {
      ToldLater(s.acked, i, s.replies[j]);
    }
    AccountedStep(s, AppendAck(h));
    ToldNow(s'.acked, i.item.id);
  }

  lemma TruthfulStep(s: State, step: Step)
    requires Accounted(s) && Truthful(s) && Enabled(s, step)
    ensures Truthful(Apply(s, step))
  {
    if step.AppendAck? {
      TruthfulAck(s, step.handler);
    } else if step.Update? && step.update.itemId in s.seen {
      ToldNow(s.acked, step.update.itemId);
    }
  }

  lemma InvStep(s: State, step: Step)
    requires Inv(s) && Enabled(s, step)
    ensures Inv(Apply(s, step))
  {
    AccountedStep(s, step);
    ValidatedStep(s, step);
    IdentifiedStep(s, step);
    DurableStep(s, step);
    MonotoneStep(s, step);
    TruthfulStep(s, step);
  }

  lemma DbStep(s: State, step: Step)
    requires Identified(s) && Enabled(s, step) && AuditLog.Consistent(s.db)
    ensures AuditLog.Consistent(Apply(s, step).db)
  {
    if TxOf(s, step).Some? {
      AuditLog.ConsistentStep(s.db, TxOf(s, step).value);
    }
  }

  /** Accounting identity, durability and monotone replies, in every reachable state of every
      run, with no side condition. */
  lemma {:induction false} RunInv(d: Discipline, s: State, steps: seq<Step>)
    requires Inv(s) && Run(d, s, steps)
    ensures Inv(Exec(d, s, steps))
  {
    if steps != [] {
      var init := steps[..|steps| - 1];
      RunInv(d, s, init);
      InvStep(Exec(d, s, init), steps[|steps| - 1]);
    }
  }

  lemma {:induction false} RunDb(d: Discipline, s: State, steps: seq<Step>)
    requires Inv(s) && AuditLog.Consistent(s.db) && Run(d, s, steps)
    ensures AuditLog.Consistent(Exec(d, s, steps).db)
  {
    if steps != [] {
      var init := steps[..|steps| - 1];
      RunInv(d, s, init);
      RunDb(d, s, init);
      DbStep(Exec(d, s, init), steps[|steps| - 1]);
    }
  }

  /** Once seen, an item is seen and stored, unchanged, in every later state. */
  lemma {:induction false} SeenIsDurable(d: Discipline, s: State, steps: seq<Step>, id: ItemId)
    requires Inv(s) && Run(d, s, steps) && id in s.seen
    ensures var s' := Exec(d, s, steps);
            id in s'.seen && id in s.db.items && id in s'.db.items && s'.db.items[id] == s.db.items[id]
  {
    if steps != [] {
      var init := steps[..|steps| - 1];
      SeenIsDurable(d, s, init, id);
      DbKeeps(Exec(d, s, init), steps[|steps| - 1]);
    } else {
      var k :| 0 <= k < |s.acked| && s.acked[k].item.id == id;
    }
  }

  /** The current totals for a valid duplicate. */
  function DuplicateReply(bill: Bill, u: AddLineItem): Reply {
    match Validate(bill, u)
    case Some(why) => Invalid(why)
    case None => Accepted(u.itemId, bill.total, bill.count)
  }

  /** An update for a seen item, valid or not, is only answered. */
  lemma DuplicateIsInert(s: State, u: AddLineItem, now: Time)
    requires Live(s) && u.itemId in s.seen
    ensures Apply(s, Update(u, now)) == s.(replies := s.replies + [DuplicateReply(s.bill, u)])
  {
  }

  /** Executions of an ID that some earlier execution had already acknowledged. */
  function Repeats(acked: seq<AppendInput>): nat {
    if acked == [] then 0 else
      var init, last := acked[..|acked| - 1], acked[|acked| - 1];
      Repeats(init) + (if last.item.id in Ids(init) then 1 else 0)
  }

  lemma {:induction false} CountIds(acked: seq<AppendInput>)
    ensures |acked| == |Ids(acked)| + Repeats(acked)
  {
    if acked != [] {
      var init, last := acked[..|acked| - 1], acked[|acked| - 1];
      CountIds(init);
      AckedSums(init, last);
      assert acked == init + [last];
      if last.item.id in Ids(init) { assert Ids(acked) == Ids(init); }
    }
  }

  /** count - |seen| is exactly the number of overlapping same-ID executions. */
  lemma OverlapCount(s: State)
    requires Accounted(s)
    ensures s.bill.count - |s.seen| == Repeats(s.acked)
  {
    CountIds(s.acked);
  }

  /** A repeat is counted when a handler resumes after its ID was seen. */
  lemma RepeatStep(s: State, step: Step)
    requires Accounted(s) && Enabled(s, step)
    ensures Repeats(Apply(s, step).acked) ==
            Repeats(s.acked) +
            (if step.AppendAck? && s.inflight[step.handler].input.item.id in s.seen then 1 else 0)
  {
    if step.AppendAck? {
      var i := s.inflight[step.handler].input;
      assert (s.acked + [i])[..|s.acked|] == s.acked;
    }
  }

  /** A successful answer is never given for an item that is not stored. */
  lemma AnsweredIsStored(s: State, j: nat)
    requires Inv(s) && j < |s.replies| && s.replies[j].Accepted?
    ensures s.replies[j].itemId in s.seen && s.replies[j].itemId in s.db.items
  {
    var r := s.replies[j];
    assert Told(s.acked, r);
    var k :| 0 <= k < r.count && s.acked[..r.count][k].item.id == r.itemId;
    assert s.acked[k].item.id == r.itemId;
  }

  function Updates(steps: seq<Step>): nat {
    if steps == [] then 0 else Updates(steps[..|steps| - 1]) + (if steps[|steps| - 1].Update? then 1 else 0)
  }

  function GiveUps(steps: seq<Step>): nat {
    if steps == [] then 0 else GiveUps(steps[..|steps| - 1]) + (if steps[|steps| - 1].AppendGiveUp? then 1 else 0)
  }

  function Failures(replies: seq<Reply>): nat {
    if replies == [] then 0 else
      Failures(replies[..|replies| - 1]) + (if replies[|replies| - 1].NotPersisted? then 1 else 0)
  }

  lemma FailuresAppend(replies: seq<Reply>, r: Reply)
    ensures Failures(replies + [r]) == Failures(replies) + (if r.NotPersisted? then 1 else 0)
  {
    assert (replies + [r])[..|replies|] == replies;
  }

  lemma HandlerLeaves(m: map<nat, Handler>, h: nat)
    requires h in m
    ensures |m - {h}| == |m| - 1
  {
    assert m == (m - {h})[h := m[h]];
  }

  /** The updates answered and those whose handler is open. */
  function Asked(s: State): nat {
    |s.replies| + |s.inflight|
  }

  lemma HandlerArrives(s: State, u: AddLineItem, now: Time)
    requires Validated(s) && Enabled(s, Update(u, now))
    ensures Asked(Apply(s, Update(u, now))) == Asked(s) + 1
  {
    assert s.next !in s.inflight;
  }

  lemma HandlerEnds(s: State, step: Step)
    requires Enabled(s, step) && (step.AppendAck? || step.AppendGiveUp?)
    ensures Asked(Apply(s, step)) == Asked(s)
  {
    HandlerLeaves(s.inflight, step.handler);
  }

  lemma HandlersKept(s: State, step: Step)
    requires Enabled(s, step) && !step.Update? && !step.AppendAck? && !step.AppendGiveUp?
    ensures Asked(Apply(s, step)) == Asked(s)
  {
    assert Apply(s, step).inflight.Keys == s.inflight.Keys;
  }

  lemma HandlersStep(s: State, step: Step)
    requires Validated(s) && Enabled(s, step)
    ensures Asked(Apply(s, step)) == Asked(s) + (if step.Update? then 1 else 0)
  {
    if step.Update? {
      HandlerArrives(s, step.update, step.at);
    } else if step.AppendAck? || step.AppendGiveUp? {
      HandlerEnds(s, step);
    } else {
      HandlersKept(s, step);
    }
  }

  lemma FailuresStep(s: State, step: Step)
    requires Enabled(s, step)
    ensures Failures(Apply(s, step).replies) == Failures(s.replies) + (if step.AppendGiveUp? then 1 else 0)
  {
    var s' := Apply(s, step);
    if s'.replies != s.replies { FailuresAppend(s.replies, s'.replies[|s.replies|]); }
  }

  /** Every update is answered once or still has its handler open, and an error for want of
      persistence is answered exactly where an activity gave up. */
  lemma {:induction false} EveryUpdateAnswered(d: Discipline, s: State, steps: seq<Step>)
    requires Inv(s) && s.replies == [] && s.inflight == map[] && Run(d, s, steps)
    ensures var s' := Exec(d, s, steps);
      |s'.replies| + |s'.inflight| == Updates(steps) && Failures(s'.replies) == GiveUps(steps)
  {
    if steps != [] {
      var init := steps[..|steps| - 1];
      EveryUpdateAnswered(d, s, init);
      RunInv(d, s, init);
      HandlersStep(Exec(d, s, init), steps[|steps| - 1]);
      FailuresStep(Exec(d, s, init), steps[|steps| - 1]);
    }
  }
}
