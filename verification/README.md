# Verified model of the billing service

A Dafny 4.11 model of the bill lifecycle: a workflow per bill that keeps a running total, an item
count and a seen-set in memory, three transactional activities over the tables `bills`,
`line_items` and `bill_events`, the keyset-paginated lists over those tables, and the two
read-through caches. Run `dafny verify dfyconfig.toml`.

## How it is modelled

- **Money** (`Money`, `Sums`). Amounts count units of 10^-10. The workflow adds exact decimals, so
  an amount is a `real`; a `NUMERIC(30,10)` column is an `int` below 10^30, rounded half away from
  zero. "At most ten fractional digits" is `IsWhole`.
- **Tables** (`Model`, `Store`, `AuditLog`, `Delivery`, `Capacity`). An activity attempt is one transaction, a
  function of the tables that commits or is rolled back by a constraint (positive amount, NUMERIC
  range, foreign key). `Activities` has the activities as methods that change the tables statement
  by statement inside a transaction, with the five-attempt retry loop among the transactions of
  others, proved against those functions. `AuditLog`, `Delivery` and `Capacity` are about every sequence of transactions.
- **Ledger** (`Ledger`, `Accounting`, `Reconciliation`, `Settlement`). The bill as one unbounded
  run: memory, update handlers in flight at their await, activities whose attempts commit, are
  acknowledged, give up, or commit late, and the tables. Everything other workflows do is a
  `Foreign` transaction, so the theorems hold beside any number of other bills.
- **Workflow** (`Workflow`, `Arbitration`, `Progress`, `Outcome`, `Origin`). The chain of runs: create, wait, drain, roll
  over or close, with the selector coroutine, signals and the clock. `ChainRefinesLedger` shows
  that a rollover changes nothing the ledger sees, so what is proved about the ledger holds for
  every chain. `BillingRun` is one run as an object whose methods are the machine's steps.
- **Lists** (`Base64`, `Cursor`, `Rfc3339`, `Calendar`, `Keyset`). A query result is specified as SQL specifies it (sorted,
  filtered, beyond the cursor, at most n rows, nothing skipped); the endpoint's row loop and cursor
  are methods and functions over that.
- **Caches** (`Cache`). One machine for both caches, over every interleaving; the client cache keeps
  absences, the currency registry does not and has refreshes.

The side conditions of a run are named in `Ledger.Discipline`, each a condition on single steps: D1
no two in-flight handlers share an item ID, D2 no item ID is used by two bills, D3 every attempt for
an ID carries one amount, D4 what the workflow stored is acknowledged before the close total is
captured (and no leftover attempt inserts after it), D5 no new item is admitted after the drain, D6
no other workflow runs under the bill's ID. D4 allows a handler to give up after its insert
committed, provided a later execution of the item is acknowledged in time; `noneAbandoned` does not.

Scheduling assumption, used only where stated (`Workflow.CODE`): the selector and the update handlers
run only after the main coroutine has yielded, the selector first, and `Await` tests its condition
before yielding. The main coroutine spawns the selector and then blocks in the wait; every coroutine
runs until it blocks before an activity of a handler can complete, and what a handler does before its
await does not touch what the selector reads.

## What the proofs found

- The row, the CLOSED events, the workflow result and the items of a closed bill agree under D1 to D6,
  and each of the six is necessary: module `Witnesses` has a history of the code for each that keeps
  the five others and ends with totals that differ. They also agree, with no D3 and D4, when no
  handler gives up after its insert committed. The agreement is about the committed close, so it
  holds as well when the close's acknowledgement never arrives.
- Under D2, D3 and D6 the workflow's total differs from the sum of the items by exactly what overlaps
  added minus what was never acknowledged: to the unit when the amounts are whole, and otherwise up
  to the half-units that rounding each amount may move.
- The comment at bill/endpoints.go:96-99 says a retried creation hits the running workflow. Once the
  bill has closed nothing is running, a second run starts under the same ID, and its close overwrites
  the row's total with its own.
- README.md says a bill total is never double-counted. That holds for the row while the bill is
  open; the workflow's total, which overwrites the row at close, counts an item twice when two
  updates with the same ID overlap.
- The comment at bill/workflow.go:11-15 calls the threshold a cap per run. The wait tests the count
  carried across runs, so after its first rollover a bill never waits again, rolls over for ever and
  never closes. A bill can be stranded so exactly when its period is not over at its start: a
  backdated bill fires its selector before its first item. With a counter per run the number of
  rollovers is at most items / 1000.
- A bill whose creation did not fail can still be closed exactly as long as its wait has not returned
  without a reason, and is not about to do so before its selector has run: in particular while it
  waits with fewer than a thousand items.
- A close signal can be lost exactly when the selector takes it after the wait has returned without a
  reason: then the drain can end in a rollover. Taken while the run waits, it is the reason of the
  close. A period end is not lost.
- The returned total is the captured one, which the row and the CLOSED event carry, exactly when no
  item is acknowledged after the capture.
- A repeated close attempt that commits writes another CLOSED event.
- The cursor round trip holds exactly for years of at most four digits.
- `lookupClient` can return a nil client with a nil error, exactly when the re-check inside a flight
  hits a cached absence; and an invalidation can be overtaken by a load that read before it: it is
  immediate exactly when no load under way holds a row that is no longer the table's.
- If each item keeps one bill and one amount, the order and multiplicity of append attempts do not
  matter exactly when the items that fit into the NUMERIC range one at a time fit together;
  otherwise the order decides which of them are stored.

## Model

| member | source | states |
|---|---|---|
| `Money.RoundNear` | bill/migrations/1_create_bills.up.sql:5-14 | a stored amount is within half a unit of the exact one, halves going up |
| `Money.RoundOdd` | bill/migrations/1_create_bills.up.sql:5-14 | both signs are rounded alike, so halves go away from zero |
| `Money.LimitDigits` | bill/migrations/1_create_bills.up.sql:5-14 | the range is twenty integer and ten fractional digits |
| `Money.RoundShift` | bill/activities.go:98-101 | adding to a total already on the grid rounds only the addend |
| `Money.RoundingBound` | bill/activities.go:130-137 | one rounding of the exact sum of n amounts differs from the sum of n rounded amounts by at most floor(n/2) units |
| `Money.RoundingBoundIsTight` | bill/migrations/1_create_bills.up.sql:5-14 | for every n the bound is reached |
| `Money.WholeTotals` | bill/workflow.go:185 | with at most ten fractional digits nothing is rounded |
| `Store.AppendTotal` | bill/activities.go:98-101 | a new item raises the row's total by its own stored amount |
| `AuditLog.LogDeterminesRow` | bill/activities.go:36-66 | after any sequence of transactions, reading a bill's events gives its row's status, currency, total and close reason |
| `AuditLog.ReplayConsistent` | bill/activities.go:30-152 | OPENED once and first, ITEM_ADDED in bijection with items and equal to them, CLOSED row iff CLOSED event, a close time iff closed, open totals are sums of items, no event without an actor |
| `AuditLog.ClosedEventsCountCommits` | bill/activities.go:129-151 | the number of CLOSED events is the number of committed close attempts |
| `AuditLog.AuditShape` | bill/migrations/6_bill_events.up.sql:18-31 | one close commit and nothing after it: the log is OPENED ITEM_ADDED* CLOSED |
| `AuditLog.LastCloseStands` | bill/activities.go:124-152 | after the last committed close of a bill its row keeps that close's time and reason, whatever else commits later |
| `AuditLog.ReplayKeeps` | bill/migrations/6_bill_events.up.sql:18-31 | later transactions keep items, events and bill identity and never reopen a closed row |
| `Delivery.DeliverForm` | bill/activities.go:81-116 | the stored items and ITEM_ADDED multiset after any delivery are a function of the set of distinct lines |
| `Delivery.RoomySubset` | bill/activities.go:98-101 | if one delivery order fits the NUMERIC range, every delivery of its lines does |
| `Delivery.DeliveryIsIdempotent` | bill/activities.go:69-117 | order and multiplicity of append attempts do not matter for amounts and events, closed and missing bills included, within the NUMERIC range |
| `Delivery.OpenDeliveryIsIdempotent` | bill/activities.go:98-101 | for open bills one sequence within the range is enough, and the totals agree too |
| `Capacity.DeliveriesAgreeIff` | bill/activities.go:81-116 | all deliveries of a set of lines agree exactly when, on each bill, the lines that fit beside its non-negative total one at a time fit together; then they agree in amounts, events and totals |
| `Capacity.DeliverKeeps` | bill/activities.go:81-116 | any delivery stores some of the fitting lines and nothing else, logs exactly those, and moves each total by exactly their amounts |
| `Capacity.AppendCommitsIff` | bill/activities.go:74-117 | an append attempt commits exactly if its amount is positive and storable and the item is there already, whoever's it is, or its bill is and has room |
| `Capacity.RangeNeeded` | bill/migrations/1_create_bills.up.sql:5-14 | an instance on an open bill: two items that do not fit together, and the order decides which one is stored |
| `Activities.Tables.AppendEvent` | bill/activities.go:157-169 | appends one event, an empty actor becoming system, and fails without its bill |
| `Activities.Tables.CreateBill` | bill/activities.go:30-67 | all or nothing: the tables are those after the create transaction or those before it |
| `Activities.Tables.AppendLineItem` | bill/activities.go:74-117 | all or nothing: the tables are those after the append transaction or those before it |
| `Activities.Tables.CloseBill` | bill/activities.go:124-152 | all or nothing: the tables are those after the close transaction or those before it |
| `Activities.RepeatIsNoop` | bill/activities.go:25-29 | a create or an append that has committed is a no-op ever after, whatever commits in between |
| `Activities.Tables.Execute` | bill/workflow.go:33-44 | among any transactions of others the tables have seen exactly the attempts that reached their commit, at most five, the last one acknowledged or none; a create or an append took effect at most once, and once if it succeeded |
| `Accounting.RunInv` | bill/workflow.go:150-194 | in every reachable state: total, count and seen-set are exactly the acknowledged executions; what is acknowledged is stored; every successful reply names one of the first `count` acknowledged items and their exact total; replies never decrease; the bill's identity is constant |
| `Accounting.EveryUpdateAnswered` | bill/workflow.go:151-194 | every update is answered once or has its handler open, and as many answers are errors for want of persistence as activities gave up |
| `Workflow.AnswersAreTrue` | bill/workflow.go:181-193 | in every chain a successful answer is true of the acknowledged items, and its item is seen and stored |
| `Workflow.UpdateDecided` | bill/workflow.go:151-219 | in every chain an update that does not fit the bill's input is refused for its first fault and changes nothing else, a seen one is answered, and any other opens a handler for exactly what it asks |
| `Origin.AckedWasRequested` | bill/workflow.go:161-187 | every acknowledged item was asked for by some update of the history, with that amount, description, currency and caller, and is stamped with the clock of that moment |
| `Origin.StoredWasRequested` | bill/workflow.go:161-183 | under D6 every stored item of the bill was asked for so |
| `Accounting.RunDb` | bill/activities.go:30-152 | every run of the ledger leaves consistent tables |
| `Accounting.SeenIsDurable` | bill/workflow.go:169-187 | a seen item is stored, stays stored unchanged and stays seen |
| `Workflow.SeenForEver` | bill/workflow.go:151-159 | over any number of rollovers a seen item stays seen and stored unchanged, and every later update with its ID is answered with the totals of its moment and changes nothing else |
| `Accounting.OverlapCount` | bill/workflow.go:185-187 | count minus the number of seen IDs is the number of overlapping executions |
| `Reconciliation.RepeatNeedsOverlap` | bill/workflow.go:153-187 | in a run that counts an item twice some update was admitted while a handler of the same item ID was in flight |
| `Reconciliation.RunConditional` | bill/workflow.go:85-99 | which invariants each side condition keeps along every run |
| `Settlement.Discrepancy` | bill/workflow.go:181-187 | under D2, D3 and D6, in every reachable state: count minus rows is repeats minus unacknowledged items, and total minus stored sum is their amounts, up to floor(n/2) units, exactly for whole amounts |
| `Settlement.TotalIsSumIff` | bill/workflow.go:253-288 | under D2, D3, D6 and whole amounts the total is the stored sum exactly when overlaps equal unacknowledged items; alone, exactly when there are none |
| `Settlement.NoOverlapAccounting` | bill/workflow.go:153-187 | under D1, D2, D3 and D6: count is the number of seen IDs, and memory is the stored items that are seen, up to floor(n/2) units, exactly for whole amounts |
| `Settlement.CloseReconciles` | bill/workflow.go:253-288 | under D1 to D6: the row is closed, and there is a CLOSED event, exactly when a close attempt committed, acknowledged or not; row, CLOSED events, captured total, result and items agree, up to floor(n/2) units, exactly for whole amounts, and the count is the number of rows |
| `Settlement.UnabandonedReconciles` | bill/workflow.go:169-183 | the same without D3 and D4 when no handler gives up after its insert committed |
| `Settlement.ResultIsCapturedIff` | bill/workflow.go:253-288 | the returned total is the captured one exactly when no execution was acknowledged after the capture |
| `Settlement.CloseCommits` | bill/activities.go:124-152 | under D1 to D6 and whole amounts every attempt of a captured close commits |
| `Settlement.OpenRowIsSum` | bill/activities.go:98-101 | while a bill is open its row's total is exactly the sum of its stored amounts |
| `Settlement.LifetimeAgreement` | bill/workflow.go:264-276 | under D6: row and items keep the input's account, currency and period; actors are the account, or system exactly for a period end |
| `Workflow.HandoffIsIdentity` | bill/workflow.go:221-251 | the next run's bill and seen-set equal the old ones, for any order of the seen IDs |
| `Workflow.ChainRefinesLedger` | bill/workflow.go:57-100 | any chain of runs is one unbounded run with the same memory, tables and replies |
| `Workflow.PlaySound` | bill/workflow.go:57-100 | phases and ledger stay in step, and the accounting invariants hold in every reachable state of every chain |
| `Workflow.ChainReconciles` | bill/workflow.go:85-99 | close reconciliation under D1 to D6 for every chain, scheduling and number of rollovers |
| `Workflow.UnabandonedChainReconciles` | bill/workflow.go:85-99 | likewise without D3 and D4 when no inserting handler gives up |
| `Workflow.ChainDiscrepancy` | bill/workflow.go:85-99 | the exact discrepancy, when it is zero, and what is missing without overlaps, for every chain |
| `Workflow.ChainAgrees` | bill/workflow.go:221-251 | lifetime agreement for every chain |
| `Witnesses.WithoutNoOverlap` | bill/workflow.go:153-187 | dropping D1 alone: row and result 2, items 1 |
| `Witnesses.WithoutOwnItems` | bill/activities.go:83-94 | dropping D2 alone: row and result 1, no items |
| `Witnesses.WithoutFixedAmounts` | bill/workflow.go:169-187 | dropping D3 alone: after a give-up the retry carries 2, row and result 2, items 1 |
| `Witnesses.WithoutInsertsAcked` | bill/workflow.go:169-183 | dropping D4 alone: row and result 0, items 1 |
| `Witnesses.StoredTooLate` | bill/workflow.go:169-183 | the same when the attempt commits only after its handler gave up |
| `Witnesses.RetriedInTime` | bill/workflow.go:169-174 | a handler gives up after its insert committed, the retry is acknowledged before the close: no condition is broken, row, result and items 1 |
| `Witnesses.WithoutNoLateUpdates` | bill/workflow.go:196-216 | dropping D5 alone: row 0, result and items 1 |
| `Witnesses.WithoutStartedOnce` | bill/endpoints.go:92-104 | dropping D6 alone: the bill ID is started again after its first run closed with one item; row and result 0, items 1 |
| `Arbitration.CloseIsBacked` | bill/workflow.go:106-144 | a captured close says SIGNAL only if the run consumed a signal, PERIOD_END only if captured at or after the period end |
| `Origin.ClosedWhenCaptured` | bill/workflow.go:253-276 | in every history a close carries the clock, total and reason of the very move that captured it; a signalled one is not earlier than its signal was taken, one for the period not earlier than its end |
| `Origin.AllAnsweredAtHandoff` | bill/workflow.go:85-93 | whenever a run rolls over or captures its close, every update the chain has taken has been answered |
| `Arbitration.ReasonWrittenOnce` | bill/workflow.go:109-136 | in every history the selector of a run fires at most once, and its reason is set exactly when it did |
| `Arbitration.ReasonStands` | bill/workflow.go:109-143 | once written the reason does not change until the run ends |
| `Arbitration.DrainSelectorForgotten` | bill/workflow.go:89-97 | what the selector did during the drain has no effect on the next run; the period end is carried |
| `Arbitration.LostSignalStaysLost` | bill/workflow.go:242-250 | without a period end, a run holding no signal never closes until another one arrives |
| `Outcome.SignalIsLostIff` | bill/workflow.go:85-99 | in every reachable state: a run whose selector takes the signal can roll over exactly when the wait had returned without a reason |
| `Outcome.SignalWinsWait` | bill/workflow.go:109-143 | a signal taken while the run waits: no continuation rolls over, and a captured close says SIGNAL |
| `Progress.SignalLostInDrain` | bill/workflow.go:89-97 | a disciplined history in which the only signal is taken in the drain and lost |
| `Progress.CountNeverFalls` | bill/workflow.go:230-240 | the item count at the end of a history is at least the count after any prefix, rollovers included |
| `Progress.NeverClosesAfterRollover` | bill/workflow.go:138-143 | after a rollover no state is blocked in the wait and the close is never scheduled |
| `Outcome.CanStillCloseIff` | bill/workflow.go:85-143 | in every reachable state the close can still be captured exactly unless creation failed, the wait returned without a reason, or it will before the selector runs; so after a rollover never, and while waiting with fewer than a thousand items always |
| `Outcome.PeriodCloses` | bill/workflow.go:123-134 | a waiting bill with a period that nothing has settled can close for PERIOD_END exactly at the period's end, or at once if that has passed |
| `Outcome.CapturedReturns` | bill/workflow.go:264-287 | under D1 to D6 and whole amounts a captured bill is closed and returns by one attempt and its acknowledgement |
| `Progress.SpinForever` | bill/workflow.go:138-143 | with a full count, n more rollovers without an item or a wait, for every n |
| `Progress.StrandedBill` | bill/workflow.go:11-16 | every bill whose period is not over at its start has a disciplined history of a thousand items and then n empty runs, for every n |
| `Progress.StrandedIff` | bill/workflow.go:123-129 | a bill can roll over exactly when its period is not over at its start |
| `Progress.PerRunCounterBoundsRollovers` | bill/workflow.go:11-16 | with a per-run counter rollovers are at most items / 1000 |
| `BillingRun.Run.constructor` | bill/workflow.go:290-311 | starts from the input's bill and seen IDs |
| `BillingRun.Run.Admit` | bill/workflow.go:151-219 | the validator and the handler up to its await take the machine's step and change no field |
| `BillingRun.Run.Resume` | bill/workflow.go:185-193 | the handler after its activity takes the machine's acknowledgement step and replies with it |
| `BillingRun.Run.StartSelector` | bill/workflow.go:123-134 | takes the machine's first selector step: a period end in the past settles the run at once |
| `BillingRun.Run.Settle` | bill/workflow.go:117-133 | the signal and timer callbacks take the machine's selector steps |
| `BillingRun.Run.WaitResult` | bill/workflow.go:138-143 | the wait returns what the machine drains with |
| `BillingRun.Run.ContinueAsNew` | bill/workflow.go:221-251 | the hand-off lists each seen ID once and restores bill and seen-set |
| `BillingRun.Run.Finalize` | bill/workflow.go:253-276 | marks the bill closed and captures the close activity's input |
| `BillingRun.Run.Result` | bill/workflow.go:281-287 | the result is read from the memory after the close activity |
| `Base64.RoundTrip` | bill/endpoints.go:793-795 | decoding undoes encoding for every byte string |
| `Base64.EncodedGroups` | bill/endpoints.go:793-795 | the j-th group of an encoding is the four base-64 digits of its three bytes read as one number, padded at the end |
| `Base64.SymbolIsAlphabet` | bill/endpoints.go:793-795 | the digits are written in the URL-safe alphabet |
| `Base64.DecodesIff` | bill/endpoints.go:949-953 | exactly the texts of whole groups with padding at the very end decode, line breaks aside |
| `Cursor.StampRoundTrip` | bill/endpoints.go:962-965 | printing and parsing a timestamp of a four-digit year is the identity |
| `Rfc3339.PrintedShape` | bill/endpoints.go:793-795 | what is printed has the fields of the timestamp at the positions of RFC 3339, the shortest fraction and the zone |
| `Rfc3339.ParsedReads` | bill/endpoints.go:962-965 | what is accepted is a valid reading whose date and time stand in the text |
| `Rfc3339.ParsedTail` | bill/endpoints.go:962-965 | and whose fraction and zone are all the rest of it |
| `Rfc3339.CursorText` | bill/endpoints.go:793-795 | a cursor is the printed timestamp, a bar and the ID, in base64 |
| `Rfc3339.AcceptedCursor` | bill/endpoints.go:949-967 | a cursor that is accepted is padded base64 of a text with a timestamp before its first bar and the ID after it |
| `Calendar.DayNumberIsGregorian` | bill/endpoints.go:962-965 | the day count of valid dates is the Gregorian one, by the closed form of the March-based year |
| `Calendar.EveryDay` | bill/endpoints.go:962-965 | every day number from the first on is that of a valid date |
| `Calendar.EveryInstant` | bill/endpoints.go:962-965 | every instant from the first day on has a valid reading at every offset of less than a day |
| `Calendar.OneReading` | bill/endpoints.go:962-965 | and only one |
| `Calendar.FourCenturies` | bill/endpoints.go:962-965 | the calendar repeats every 146097 days |
| `Cursor.CursorRoundTripIff` | bill/endpoints.go:946-967 | a cursor decodes to its instant and ID, bars included, exactly when the year has at most four digits, and is refused otherwise |
| `Cursor.CursorInjective` | bill/endpoints.go:793-795 | distinct keys have distinct cursors, for years of any length |
| `Cursor.InstantOrder` | bill/endpoints.go:908-937 | instants of readings with one offset are ordered as the readings, by date and then by clock |
| `Keyset.ClampLimit` | bill/endpoints.go:594-608 | negative limits are refused, zero is the default, the cap is 500 |
| `Keyset.CursorKeyRoundTrip` | bill/endpoints.go:786-795 | the cursor sent back is the key of its row, whatever offset its timestamp was read in |
| `Keyset.CursorWithoutId` | bill/endpoints.go:612-625 | a cursor without an ID means the beginning |
| `Keyset.CollectPage` | bill/endpoints.go:645-674 | the row loop with one extra row answers the request: the next page for its cursor, and a new cursor, naming the last row, exactly when something is left |
| `Keyset.TraversalOfFixedTable` | bill/endpoints.go:827-884 | following the cursor returns the sorted filtered scan in max(1, ceil(n/limit)) pages |
| `Keyset.ListedInTime` | bill/endpoints.go:610-640 | over all pages and under writes line items and events come oldest first and bills newest first, by date and time of day, rows of one reading in dictionary order of their IDs |
| `Keyset.ListedIsOwned` | bill/endpoints.go:908-937 | every returned row has the requested owner and status |
| `Keyset.ListedExactly` | bill/endpoints.go:908-937 | on a fixed table exactly the rows of the requested owner and status are returned |
| `Keyset.TraversalTerminates` | bill/endpoints.go:594-674 | a traversal of a fixed table has at most one more page than rows |
| `Keyset.TraversalUnderWrites` | bill/endpoints.go:908-937 | while rows are inserted and statuses change, no row is returned twice and a row that stays is returned exactly once, in both directions |
| `Keyset.BrowseIsTraversal` | bill/endpoints.go:786-795 | the answers to a client that sends back each cursor string are a traversal |
| `Keyset.BrowseUnderWrites` | bill/endpoints.go:786-795 | so such a client sees no ID twice and a staying row exactly once by the time the cursor comes back empty |
| `Cache.BoundedStaleness` | bill/clients.go:65-99 | every answer was true at most TTL plus its load's duration ago, over every interleaving |
| `Cache.StalenessInSeconds` | bill/clients.go:35-47 | if no load takes longer than a bound, every answer was true at most five minutes (clients) or an hour (currencies) and that bound ago |
| `Cache.NilOnlyFromRecheck` | bill/clients.go:73-98 | nil without an error exactly when the re-check hits a cached absence |
| `Cache.NilReached` | bill/clients.go:73-98 | the interleaving that gives it |
| `Cache.RegistryNeverNil` | bill/registry.go:43-69 | the registry caches no absence, so it never does |
| `Cache.FailedExactly` | bill/registry.go:43-69 | an error is answered exactly to those waiting in a flight whose load fails, or finds no row where absences are not cached |
| `Cache.AlwaysFound` | bill/registry.go:43-69 | while the row is there and no load fails, every answer of either cache is a row |
| `Cache.EveryLookupAnswered` | bill/clients.go:65-99 | every lookup is answered once or still on its way |
| `Cache.OneLoadAtATime` | bill/clients.go:73-91 | of the loads that misses lead to at most one is under way |
| `Cache.ServedForTtl` | bill/clients.go:65-99 | what a load cached is served at once for its whole TTL, and not a second longer |
| `Cache.InvalidationIsImmediateIff` | bill/clients.go:112-119 | whatever was cached, right after an invalidation every later answer of every interleaving is at least as new exactly when no load under way holds a cacheable row other than the table's |
| `Cache.InvalidationOvertaken` | bill/clients.go:89-90 | an interleaving from the empty cache in which both answers after an invalidation tell the row replaced before it |
| `Cache.Slot.Lookup` | bill/clients.go:66-71 | a hit answers from the entry, a cached absence as not found |
| `Cache.Slot.Finish` | bill/clients.go:80-90 | the load's result enters the cache and is everyone's answer |
| `Cache.Slot.Remove` | bill/clients.go:117-119 | the entry is dropped |
| `Cache.FillRegistry` | bill/registry.go:103-117 | the row loop builds exactly the map of the rows, and an empty table is an error |

## Left out

- HTTP requests and responses, authentication, error classification, the spelling of the status
  filter, views, metrics, start-up.
- Temporal beyond step rules: backoff timing, replay determinism, cancellation, and the delivery of
  signals to a run that is about to roll over (any number of the unconsumed ones may carry over).
- Failures that leave no trace (timeouts, UUID syntax of IDs, the currency and client foreign keys)
  are attempts that do not happen; an item ID that is not a UUID is one that never commits.
- Deriving bill IDs from account and idempotency key: bill IDs are opaque.
- Item counts are unbounded; Go's 64-bit wrap-around is not modelled.
- The event table's own IDs and `created_at`: the log is in commit order, and nothing is claimed
  about `created_at` order.
- Zone offsets with seconds, which RFC 3339 cannot print, and years before 0.
- Parse: models the strict RFC 3339 reading, not the laxer fallback (comma before the fraction), which no
  cursor printed by the encoder reaches.
- LRU eviction is an entry that may disappear at any time, together with invalidation.
- The wait and drain of the main coroutine and the single flight are values of a machine, not
  methods, because they span awaits.
