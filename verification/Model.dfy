/** The entities of the billing service, as values. */
module Model {
  type BillId = string
  type ItemId = string
  type Account = string
  type Currency = string
  type Time = int

  /** The actor recorded for events without a human caller. */
  const SYSTEM_ACTOR: Account := "system"

  datatype Option<T> = None | Some(value: T)

  datatype Status = Open | Closed

  datatype CloseReason = NoReason | Signal | PeriodEnd

  /** The in-memory aggregate the workflow keeps for a bill. */
  datatype Bill = Bill(
    id: BillId,
    account: Account,
    status: Status,
    currency: Currency,
    total: real,
    count: nat,
    createdAt: Time,
    closedAt: Option<Time>,
    periodStart: Option<Time>,
    periodEnd: Option<Time>,
    closeReason: CloseReason)

  datatype LineItem = LineItem(
    id: ItemId,
    description: string,
    amount: real,
    currency: Currency,
    createdAt: Time)

  /** Payload of the AddLineItem update. */
  datatype AddLineItem = AddLineItem(
    itemId: ItemId,
    description: string,
    amount: real,
    currency: Currency,
    caller: Account)

  datatype AppendInput = AppendInput(bill: BillId, actor: Account, item: LineItem)

  datatype CloseInput = CloseInput(bill: BillId, actor: Account, total: real, closedAt: Time, reason: CloseReason)

  /** What a completed workflow returns. */
  datatype BillResult = BillResult(
    bill: BillId,
    total: real,
    currency: Currency,
    count: nat,
    reason: CloseReason)
}
