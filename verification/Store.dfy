/** The three tables and the transactions of the activities over them. A transaction is a
    function of the tables: it either commits a new value or is rolled back by a constraint. */
module Store {
  import opened Model
  import opened Money
  import opened Sums

  datatype BillRow = BillRow(
    account: Account,
    status: Status,
    currency: Currency,
    total: int,
    createdAt: Time,
    closedAt: Option<Time>,
    periodStart: Option<Time>,
    periodEnd: Option<Time>,
    closeReason: Option<CloseReason>)

  datatype ItemRow = ItemRow(bill: BillId, description: string, amount: int, currency: Currency, createdAt: Time)

  /** Event payloads carry exact decimals, not the rounded column values. */
  datatype Payload =
    | Opened(currency: Currency, periodStart: Option<Time>, periodEnd: Option<Time>)
    | ItemAdded(itemId: ItemId, description: string, amount: real, currency: Currency)
    | BillClosed(total: real, reason: CloseReason)

  datatype Event = Event(bill: BillId, actor: Account, payload: Payload)

  /** `line_items.id` is one key space for all bills; `events` is in commit order. */
  datatype Db = Db(bills: map<BillId, BillRow>, items: map<ItemId, ItemRow>, events: seq<Event>)

  const EMPTY: Db := Db(map[], map[], [])

  datatype Tx = Create(bill: Bill) | Append(append: AppendInput) | Close(close: CloseInput)

  function Target(tx: Tx): BillId {
    match tx
    case Create(b) => b.id
    case Append(i) => i.bill
    case Close(c) => c.bill
  }

  /** An empty close reason is stored as NULL. */
  function Nullable(r: CloseReason): Option<CloseReason> {
    if r == NoReason then None else Some(r)
  }

  /** An event without a caller is recorded as the system's. */
  function ActorName(actor: Account): Account {
    if actor == "" then SYSTEM_ACTOR else actor
  }

  function EventOf(bill: BillId, actor: Account, payload: Payload): Event {
    Event(bill, ActorName(actor), payload)
  }

  function CreateTx(db: Db, b: Bill): Option<Db> {
    if b.id in db.bills then
      Some(db)  // ON CONFLICT DO NOTHING: no row and no event
    else
      var row := BillRow(b.account, b.status, b.currency, 0, b.createdAt, None, b.periodStart, b.periodEnd, None);
      var event := EventOf(b.id, b.account, Opened(b.currency, b.periodStart, b.periodEnd));
      Some(Db(db.bills[b.id := row], db.items, db.events + [event]))
  }

  /** The column constraints on a line item hold for the rounded amount. */
  predicate StorableItem(amount: real) {
    0 < Round(amount) && Fits(Round(amount))
  }

  /** CHECK and NUMERIC range are tested before the conflict clause, the foreign key after it. */
  function AppendTx(db: Db, i: AppendInput): Option<Db> {
    if !StorableItem(i.item.amount) then
      None
    else if i.item.id in db.items then
      Some(db)
    else if i.bill !in db.bills then
      None
    else
      var row := db.bills[i.bill];
      var total := Round(row.total as real + i.item.amount);
      if !Fits(total) then None else
        var item := ItemRow(i.bill, i.item.description, Round(i.item.amount), i.item.currency, i.item.createdAt);
        var event := EventOf(i.bill, i.actor, ItemAdded(i.item.id, i.item.description, i.item.amount, i.item.currency));
        Some(Db(db.bills[i.bill := row.(total := total)], db.items[i.item.id := item], db.events + [event]))
  }

  /** Closing a missing bill updates no row and then fails the event's foreign key. */
  function CloseTx(db: Db, c: CloseInput): Option<Db> {
    if c.bill !in db.bills || !Fits(Round(c.total)) then
      None
    else
      var row := db.bills[c.bill].(
        status := Closed, total := Round(c.total), closedAt := Some(c.closedAt), closeReason := Nullable(c.reason));
      var event := EventOf(c.bill, c.actor, BillClosed(c.total, c.reason));
      Some(Db(db.bills[c.bill := row], db.items, db.events + [event]))
  }

  function Commit(db: Db, tx: Tx): Option<Db> {
    match tx
    case Create(b) => CreateTx(db, b)
    case Append(i) => AppendTx(db, i)
    case Close(c) => CloseTx(db, c)
  }

  /** The tables after an attempt that is not disturbed from outside. */
  function After(db: Db, tx: Tx): Db {
    match Commit(db, tx)
    case Some(next) => next
    case None => db
  }

  function Replay(db: Db, txs: seq<Tx>): Db {
    if txs == [] then db else After(Replay(db, txs[..|txs| - 1]), txs[|txs| - 1])
  }

  /** The amounts stored for one bill. */
  function AmountsOf(db: Db, b: BillId): (m: Amounts)
    ensures forall k :: k in m <==> k in db.items && db.items[k].bill == b
    ensures forall k :: k in m ==> m[k] == db.items[k].amount
  {
    map k | k in db.items && db.items[k].bill == b :: db.items[k].amount
  }

  predicate Inserts(db: Db, tx: Tx) {
    tx.Append? && tx.append.item.id !in db.items && Commit(db, tx).Some?
  }

  /** The total a new line item leaves in its bill's row. */
  lemma AppendTotal(db: Db, i: AppendInput)
    requires i.bill in db.bills && db.bills[i.bill].total >= 0
    requires StorableItem(i.item.amount)
    ensures Round(db.bills[i.bill].total as real + i.item.amount) == db.bills[i.bill].total + Round(i.item.amount)
    ensures i.item.amount > 0.0
  {
    RoundPositive(i.item.amount);
    RoundShift(db.bills[i.bill].total, i.item.amount);
  }
}
