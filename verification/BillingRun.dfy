/** One run of BillingWorkflow as an object: the captured bill and seen-set, mutated by update
    handlers, the selector's callback and the finalizer. Every method is the step of the ledger
    machine that it stands for. */
module BillingRun {
  import opened Model
  import opened Ledger
  import opened Workflow

  /** What the part of a handler before its await decides. */
  datatype Admission = Refuse(why: Rejection) | Answer(reply: Reply) | Schedule(append: AppendInput)

  class Run {
    const id: BillId
    const account: Account
    const currency: Currency
    const createdAt: Time
    const periodStart: Option<Time>
    const periodEnd: Option<Time>
    var status: Status
    var total: real
    var count: nat
    var closedAt: Option<Time>
    var closeReason: CloseReason
    var seen: set<ItemId>
    var reason: CloseReason
    var settled: bool

    function Memory(): Bill
      reads this
    {
      Bill(id, account, status, currency, total, count, createdAt, closedAt, periodStart, periodEnd, closeReason)
    }

    /** The object holds the memory of a ledger state. */
    ghost predicate Holds(s: State)
      reads this
    {
      Memory() == s.bill && seen == s.seen
    }

    /** initialBill and initialSeen; the seen-set is filled ID by ID. */
    constructor (input: Input, now: Time)
      ensures Memory() == InitialBill(input, now) && seen == InitialSeen(input)
      ensures reason == NoReason && !settled
      ensures input.snapshot.None? && input.seenIds == [] ==> Holds(Start(input, now))
    {
      var b := InitialBill(input, now);
      id, account, currency, createdAt := b.id, b.account, b.currency, b.createdAt;
      periodStart, periodEnd := b.periodStart, b.periodEnd;
      status, total, count, closedAt, closeReason := b.status, b.total, b.count, b.closedAt, b.closeReason;
      var ids: set<ItemId> := {};
      for k := 0 to |input.seenIds|
        invariant ids == set j | 0 <= j < k :: input.seenIds[j]
      {
        ids := ids + {input.seenIds[k]};
      }
      seen := ids;
      reason, settled := NoReason, false;
    }

    /** The validator and the handler up to its await: no field changes. */
    method Admit(u: AddLineItem, now: Time, ghost s: State) returns (a: Admission)
      requires Holds(s) && Live(s)
      ensures var s' := Apply(s, Update(u, now));
        && Holds(s')
        && match a
           case Refuse(why) => s' == s.(replies := s.replies + [Invalid(why)])
           case Answer(reply) => s' == s.(replies := s.replies + [reply])
           case Schedule(i) => s.next in s'.inflight && s'.inflight[s.next] == Handler(i, false)
    {
      if u.caller != account { return Refuse(BillNotFound); }
      if u.currency != currency { return Refuse(CurrencyMismatch); }
      if u.amount <= 0.0 { return Refuse(AmountNotPositive); }
      if u.description == "" { return Refuse(DescriptionMissing); }
      if u.itemId in seen { return Answer(Accepted(u.itemId, total, count)); }
      a := Schedule(AppendInput(id, u.caller, LineItem(u.itemId, u.description, u.amount, u.currency, now)));
    }

    /** The handler after its activity returned without error. */
    method Resume(i: AppendInput, ghost s: State, ghost h: nat) returns (reply: Reply)
      requires Holds(s) && Enabled(s, AppendAck(h)) && s.inflight[h].input == i
      modifies this`total, this`count, this`seen
      ensures Holds(Apply(s, AppendAck(h)))
      ensures Apply(s, AppendAck(h)).replies == s.replies + [reply]
      ensures count == old(count) + 1 && total == old(total) + i.item.amount && i.item.id in seen
    {
      total := total + i.item.amount;
      count := count + 1;
      seen := seen + {i.item.id};
      reply := Accepted(i.item.id, total, count);
    }

    /** The object's settled flag and reason are the machine's selector. */
    ghost predicate Selects(selector: Selector)
      reads this
    {
      && (settled <==> selector.Fired?)
      && reason == if selector.Fired? then selector.reason else NoReason
    }

    /** The first thing the selector coroutine does: a period end in the past settles the run. */
    method StartSelector(now: Time, ghost cfg: Config, ghost c: Chain)
      requires Allowed(cfg, c, SelectorStarts) && Selects(c.selector)
      requires c.now == now && c.input.periodEnd == periodEnd
      modifies this`reason, this`settled
      ensures Selects(Next(cfg, c, SelectorStarts).selector)
    {
      if periodEnd.Some? {
        var delay := periodEnd.value - now;
        if delay <= 0 {
          reason, settled := PeriodEnd, true;
        }
      }
    }

    /** A callback of the selector: the signal was received, or the timer fired. */
    method Settle(bySignal: bool, ghost cfg: Config, ghost c: Chain)
      requires Selects(c.selector) && Allowed(cfg, c, if bySignal then SelectorTakesSignal else SelectorTimerFires)
      modifies this`reason, this`settled
      ensures Selects(Next(cfg, c, if bySignal then SelectorTakesSignal else SelectorTimerFires).selector)
    {
      reason := if bySignal then Signal else PeriodEnd;
      settled := true;
    }

    /** What the wait returns: the reason, or none when the threshold ended it. */
    method WaitResult(ghost cfg: Config, ghost c: Chain) returns (why: CloseReason)
      requires Selects(c.selector) && Allowed(cfg, c, WaitReturns)
      ensures Next(cfg, c, WaitReturns).phase == Draining(why)
    {
      why := reason;
    }

    /** Packs the hand-off: the seen-set in some order, each ID once, and the bill's summary. */
    method ContinueAsNew(input: Input) returns (next: Input)
      ensures Enumerates(next.seenIds, seen)
      ensures next == NextInput(input, Memory(), next.seenIds)
      ensures Memory().status == Open && Memory().closedAt.None? && Memory().closeReason == NoReason ==>
        forall now :: InitialBill(next, now) == Memory()
      ensures InitialSeen(next) == seen
    {
      var seenIds: seq<ItemId> := [];
      var rest := seen;
      while rest != {}
        invariant rest <= seen
        invariant forall k :: 0 <= k < |seenIds| ==> seenIds[k] in seen && seenIds[k] !in rest
        invariant forall x :: x in seen ==> x in rest || x in seenIds
        invariant forall j, k :: 0 <= j < k < |seenIds| ==> seenIds[j] != seenIds[k]
        decreases rest
      {
        var x :| x in rest;
        ghost var before := seenIds;
        seenIds := seenIds + [x];
        rest := rest - {x};
        assert seenIds[|before|] == x;
        assert forall y :: y in before ==> y in seenIds;
      }
      var snapshot := Bill(id, account, status, currency, total, count, createdAt, None, periodStart, periodEnd, NoReason);
      next := Input(input.bill, input.account, input.currency, input.periodStart, input.periodEnd, Some(snapshot), seenIds);
      forall x | x in seen ensures x in InitialSeen(next) {
        var k :| 0 <= k < |seenIds| && seenIds[k] == x;
        assert next.seenIds[k] == x;
      }
    }

    /** Marks the bill closed and captures what the close activity will write. */
    method Finalize(why: CloseReason, now: Time, ghost s: State) returns (c: CloseInput)
      requires Holds(s) && Enabled(s, Step.Finalize(why, now))
      modifies this`status, this`closedAt, this`closeReason
      ensures Holds(Apply(s, Step.Finalize(why, now)))
      ensures Apply(s, Step.Finalize(why, now)).closing == Persisting(c, false)
    {
      status := Closed;
      closedAt := Some(now);
      closeReason := why;
      var actor := SYSTEM_ACTOR;
      if why == Signal { actor := account; }
      c := CloseInput(id, actor, total, now, why);
    }

    /** What the workflow returns once the close activity has succeeded. */
    method Result(why: CloseReason, ghost s: State) returns (r: BillResult)
      requires Holds(s) && Enabled(s, CloseAck) && s.closing.input.reason == why
      ensures Apply(s, CloseAck).closing == Returned(s.closing.input, r) && Holds(Apply(s, CloseAck))
    {
      r := BillResult(id, total, currency, count, why);
    }
  }
}
