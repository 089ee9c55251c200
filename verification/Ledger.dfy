/** The bill as one unbounded run: the workflow's memory, its in-flight update handlers, the
    activities they await, and the tables. It never rolls over; module Workflow shows that every
    chain of runs behaves like it. Transactions of other workflows are `Foreign` steps, so what
    is proved about the bill holds beside any number of other bills. */
module Ledger {
  import opened Model
  import opened Money
  import opened Store
  import AuditLog

  /** BillWorkflowInput: a snapshot and seen IDs are present only after a rollover. */
  datatype Input = Input(
    bill: BillId,
    account: Account,
    currency: Currency,
    periodStart: Option<Time>,
    periodEnd: Option<Time>,
    snapshot: Option<Bill>,
    seenIds: seq<ItemId>)

  function InitialBill(input: Input, now: Time): Bill {
    match input.snapshot
    case Some(b) => b
    case None =>
      Bill(input.bill, input.account, Open, input.currency, 0.0, 0, now, None,
           input.periodStart, input.periodEnd, NoReason)
  }

  function InitialSeen(input: Input): set<ItemId> {
    set i | 0 <= i < |input.seenIds| :: input.seenIds[i]
  }

  datatype Rejection = BillNotFound | CurrencyMismatch | AmountNotPositive | DescriptionMissing

  /** The update validator; it looks at owner and currency but not at the bill's status. */
  function Validate(bill: Bill, u: AddLineItem): Option<Rejection> {
    if u.caller != bill.account then Some(BillNotFound)
    else if u.currency != bill.currency then Some(CurrencyMismatch)
    else if u.amount <= 0.0 then Some(AmountNotPositive)
    else if u.description == "" then Some(DescriptionMissing)
    else None
  }

  datatype Reply = Accepted(itemId: ItemId, total: real, count: nat) | Invalid(why: Rejection) | NotPersisted

  /** A handler waiting for its append activity; `committed` once one of its attempts has. */
  datatype Handler = Handler(input: AppendInput, committed: bool)

  datatype Creation = Creating(committed: bool) | Created | CreateFailed

  /** `input` is what the close activity was scheduled with. */
  datatype Closing =
    | NotClosing
    | Persisting(input: CloseInput, committed: bool)
    | Returned(input: CloseInput, result: BillResult)
    | CloseFailed(input: CloseInput, committed: bool)

  /** `first` is the input of the create activity; `issued` and `acked` record every append
      activity scheduled and, in order, every one whose completion reached the memory. */
  datatype State = State(
    first: Bill,
    bill: Bill,
    seen: set<ItemId>,
    creation: Creation,
    inflight: map<nat, Handler>,
    next: nat,
    closing: Closing,
    db: Db,
    issued: set<AppendInput>,
    acked: seq<AppendInput>,
    replies: seq<Reply>)

  function Start(input: Input, now: Time): State {
    var b := InitialBill(input, now);
    State(b, b, InitialSeen(input), Creating(false), map[], 0, NotClosing, EMPTY, {}, [], [])
  }

  /** One atomic step. An activity attempt that fails leaves no trace and is no step; an attempt
      that commits may be acknowledged later, never, or be repeated. */
  datatype Step =
    | CreateAttempt
    | CreateAck
    | CreateGiveUp
    | Update(update: AddLineItem, at: Time)
    | AppendAttempt(handler: nat)
    | AppendAck(handler: nat)
    | AppendGiveUp(handler: nat)
    | LateAppend(append: AppendInput)
    | Finalize(reason: CloseReason, at: Time)
    | CloseAttempt
    | CloseAck
    | CloseGiveUp
    | Foreign(tx: Tx)

  predicate Live(s: State) {
    s.creation.Created? && (s.closing.NotClosing? || s.closing.Persisting?)
  }

  /** The transaction a step commits, if any. */
  function TxOf(s: State, step: Step): Option<Tx> {
    match step
    case CreateAttempt => Some(Create(s.first))
    case AppendAttempt(h) => if h in s.inflight then Some(Append(s.inflight[h].input)) else None
    case LateAppend(i) => Some(Append(i))
    case CloseAttempt => if s.closing.NotClosing? then None else Some(Close(s.closing.input))
    case Foreign(tx) => Some(tx)
    case _ => None
  }

  predicate Enabled(s: State, step: Step) {
    && (TxOf(s, step).Some? ==> Commit(s.db, TxOf(s, step).value).Some?)
    && match step
       case CreateAttempt => true
       case CreateAck => s.creation == Creating(true)
       case CreateGiveUp => s.creation.Creating?
       case Update(_, _) => Live(s)
       case AppendAttempt(h) => Live(s) && h in s.inflight
       case AppendAck(h) => Live(s) && h in s.inflight && s.inflight[h].committed
       case AppendGiveUp(h) => Live(s) && h in s.inflight
       case LateAppend(i) => i in s.issued
       case Finalize(reason, _) =>
         s.creation.Created? && s.closing.NotClosing? && s.inflight == map[] && reason != NoReason
       case CloseAttempt => !s.closing.NotClosing?
       case CloseAck => s.closing.Persisting? && s.closing.committed
       case CloseGiveUp => s.closing.Persisting?
       case Foreign(tx) => AuditLog.Sane(tx)
  }

  /** The tables after a step. */
  function DbAfter(s: State, step: Step): Db {
    match TxOf(s, step)
    case Some(tx) => After(s.db, tx)
    case None => s.db
  }

  /** The append activity an admitted update schedules. */
  function Scheduled(bill: Bill, u: AddLineItem, now: Time): AppendInput {
    AppendInput(bill.id, u.caller, LineItem(u.itemId, u.description, u.amount, u.currency, now))
  }

  function AckedBill(bill: Bill, amount: real): Bill {
    bill.(total := bill.total + amount, count := bill.count + 1)
  }

  /** An update arrives: rejected, answered from the seen-set, or admitted up to the await. */
  function Arrive(s: State, u: AddLineItem, now: Time): State {
    match Validate(s.bill, u)
    case Some(why) => s.(replies := s.replies + [Invalid(why)])
    case None =>
      if u.itemId in s.seen then
        s.(replies := s.replies + [Accepted(u.itemId, s.bill.total, s.bill.count)])
      else
        var i := Scheduled(s.bill, u, now);
        s.(inflight := s.inflight[s.next := Handler(i, false)], next := s.next + 1, issued := s.issued + {i})
  }

  /** The handler resumes after its activity succeeded. */
  function Resume(s: State, h: nat): State
    requires h in s.inflight
  {
    var i := s.inflight[h].input;
    var b := AckedBill(s.bill, i.item.amount);
    s.(bill := b, seen := s.seen + {i.item.id}, inflight := s.inflight - {h}, acked := s.acked + [i],
       replies := s.replies + [Accepted(i.item.id, b.total, b.count)])
  }

  function FinalBill(bill: Bill, reason: CloseReason, now: Time): Bill {
    bill.(status := Closed, closedAt := Some(now), closeReason := reason)
  }

  function CloseInputOf(bill: Bill, reason: CloseReason, now: Time): CloseInput {
    CloseInput(bill.id, if reason == Signal then bill.account else SYSTEM_ACTOR, bill.total, now, reason)
  }

  function ResultOf(bill: Bill, reason: CloseReason): BillResult {
    BillResult(bill.id, bill.total, bill.currency, bill.count, reason)
  }

  function Apply(s: State, step: Step): State
    requires Enabled(s, step)
  {
    match step
    case CreateAttempt =>
      s.(db := DbAfter(s, step), creation := if s.creation.Creating? then Creating(true) else s.creation)
    case CreateAck => s.(creation := Created)
    case CreateGiveUp => s.(creation := CreateFailed)
    case Update(u, now) => Arrive(s, u, now)
    case AppendAttempt(h) =>
      s.(db := DbAfter(s, step), inflight := s.inflight[h := s.inflight[h].(committed := true)])
    case AppendAck(h) => Resume(s, h)
    case AppendGiveUp(h) => s.(inflight := s.inflight - {h}, replies := s.replies + [NotPersisted])
    case LateAppend(_) => s.(db := DbAfter(s, step))
    case Finalize(reason, now) =>
      s.(bill := FinalBill(s.bill, reason, now), closing := Persisting(CloseInputOf(s.bill, reason, now), false))
    case CloseAttempt =>
      s.(db := DbAfter(s, step),
         closing := if s.closing.Returned? then s.closing else s.closing.(committed := true))
    case CloseAck =>
      s.(closing := Returned(s.closing.input, ResultOf(s.bill, s.closing.input.reason)))
    case CloseGiveUp => s.(closing := CloseFailed(s.closing.input, s.closing.committed))
    case Foreign(_) => s.(db := DbAfter(s, step))
  }

  /** The side conditions on a run, each switched on separately. */
  datatype Discipline = Discipline(
    noOverlap: bool,      // D1: no two in-flight handlers share an item ID
    ownItems: bool,       // D2: no item ID is used by two bills
    fixedAmounts: bool,   // D3: every attempt for an ID carries the same amount
    insertsAcked: bool,   // D4: what this workflow stored is acknowledged before the close total is captured
    noLateUpdates: bool,  // D5: no new item is admitted after the drain
    startedOnce: bool,    // D6: no other workflow runs under this bill ID
    whole: bool,          // amounts have at most ten fractional digits
    noneAbandoned: bool)  // no handler gives up after its insert committed, and none inserts later

  predicate Admits(s: State, step: Step) {
    step.Update? && Validate(s.bill, step.update).None? && step.update.itemId !in s.seen
  }

  predicate NoOverlap(s: State, step: Step) {
    Admits(s, step) ==> forall h :: h in s.inflight ==> s.inflight[h].input.item.id != step.update.itemId
  }

  predicate IssuedId(s: State, id: ItemId) {
    exists i :: i in s.issued && i.item.id == id
  }

  predicate OwnItems(s: State, step: Step) {
    && (Admits(s, step) && step.update.itemId in s.db.items ==> s.db.items[step.update.itemId].bill == s.bill.id)
    && (step.Foreign? && step.tx.Append? && step.tx.append.bill != s.bill.id ==>
          !IssuedId(s, step.tx.append.item.id))
  }

  predicate FixedAmounts(s: State, step: Step) {
    Admits(s, step) ==>
      forall i :: i in s.issued && i.item.id == step.update.itemId ==> i.item.amount == step.update.amount
  }

  /** A handler may give up after its insert committed, provided a later execution of the item is
      acknowledged before the capture; after the capture no leftover attempt may insert. */
  predicate InsertsAcked(s: State, step: Step) {
    && (step.Finalize? ==>
          forall id :: id in s.db.items && s.db.items[id].bill == s.bill.id && IssuedId(s, id) ==> id in s.seen)
    && (step.LateAppend? && !s.closing.NotClosing? ==> step.append.item.id in s.db.items)
  }

  predicate NoLateUpdates(s: State, step: Step) {
    Admits(s, step) ==> s.closing.NotClosing?
  }

  predicate StartedOnce(s: State, step: Step) {
    step.Foreign? ==> Target(step.tx) != s.bill.id
  }

  predicate WholeAmounts(s: State, step: Step) {
    Admits(s, step) ==> IsWhole(step.update.amount)
  }

  /** Stronger than D4: the handler that inserts an item is the one that acknowledges it. */
  predicate NoneAbandoned(s: State, step: Step) {
    && (step.AppendGiveUp? && step.handler in s.inflight ==> !s.inflight[step.handler].committed)
    && (step.LateAppend? ==> step.append.item.id in s.db.items)
  }

  predicate Obeys(d: Discipline, s: State, step: Step) {
    && (d.noOverlap ==> NoOverlap(s, step))
    && (d.ownItems ==> OwnItems(s, step))
    && (d.fixedAmounts ==> FixedAmounts(s, step))
    && (d.insertsAcked ==> InsertsAcked(s, step))
    && (d.noLateUpdates ==> NoLateUpdates(s, step))
    && (d.startedOnce ==> StartedOnce(s, step))
    && (d.whole ==> WholeAmounts(s, step))
    && (d.noneAbandoned ==> NoneAbandoned(s, step))
  }

  /** Runs from s, newest step last. */
  predicate Run(d: Discipline, s: State, steps: seq<Step>)
    decreases |steps|, 0
  {
    steps == [] ||
    (var init, last := steps[..|steps| - 1], steps[|steps| - 1];
     Run(d, s, init) && Enabled(Exec(d, s, init), last) && Obeys(d, Exec(d, s, init), last))
  }

  function Exec(d: Discipline, s: State, steps: seq<Step>): State
    requires Run(d, s, steps)
    decreases |steps|, 1
  {
    if steps == [] then s else Apply(Exec(d, s, steps[..|steps| - 1]), steps[|steps| - 1])
  }

  lemma RunExtend(d: Discipline, s: State, steps: seq<Step>, step: Step)
    requires Run(d, s, steps) && Enabled(Exec(d, s, steps), step) && Obeys(d, Exec(d, s, steps), step)
    ensures Run(d, s, steps + [step]) && Exec(d, s, steps + [step]) == Apply(Exec(d, s, steps), step)
  {
    assert (steps + [step])[..|steps|] == steps;
  }

  function Ids(acked: seq<AppendInput>): set<ItemId> {
    set k | 0 <= k < |acked| :: acked[k].item.id
  }

  function Prices(acked: seq<AppendInput>): (xs: seq<real>)
    ensures |xs| == |acked| && forall k :: 0 <= k < |acked| ==> xs[k] == acked[k].item.amount
  {
    seq(|acked|, k requires 0 <= k < |acked| => acked[k].item.amount)
  }
}
