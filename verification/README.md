# Verified protocols of mezze_bridge

`mezze_bridge` turns an Odoo installation into the server of a restaurant point of sale.
Most of it is request plumbing. This project models the protocols inside it whose
correctness spans many requests, and proves what each of them keeps over every run:

- **Refunds** (`RefundRules`, `RefundResolve`, `RefundProtocol`, `RefundSnapshots`,
  `RefundDesk`): clients refunding one original order concurrently, under a lock, a quantity
  ceiling per line and a money ceiling per order, with rounding in between.
- **Offline sync** (`SyncWorld`, `SyncPush`, `SyncProtocol`, `SyncContents`,
  `SyncConvergence`, `SyncPull`):
  terminals resend batches of events that must take effect exactly once, whose deltas must
  converge, and page through configuration by watermark.
- **Replay protection** (`ReplayGuard`): clock window, single-use nonces, and their clean-up.
- **Table orders** (`TableLocks`, `StationTickets`, `TableOrders`, `TableRuns`,
  `TableLedger`, `TableRequests`): fire, transfer and merge under ordered locks.
- **Money at the till** (`Tender`, `Drift`, `Credit`, `CreditSnapshots`): partial tenders,
  loops in which the last item absorbs the rounding, and the customer credit gate.
- **Settings** (`SettingDefs`, `Settings`, `SettingsService`, `SettingsLaws`,
  `SettingsRule`): the cascade of seven scopes with locks, saving and resetting.
- **Lifecycles** (`KdsTicket`, `OrderFsm`, `OrderGuard`): kitchen tickets, the order state
  machine, and the guard between it and live operations.

What the source changes in place is a class whose methods are proved against functions of
the old state; what it interleaves is a machine whose steps are one lock, read, check, write
or commit. `Rounding` holds the two rounding rules and `Common` two small datatypes.
`dafny verify dfyconfig.toml` checks everything.

## Where code and documentation disagree

The model follows the code in each case.

- `controllers/sync.py` (133) and `models/mezze_sync_applied.py` (16) promise that one bad event never blocks a
  terminal. The second event without a `res_uuid` does: its ledger row repeats the key
  `(none)` outside the savepoint (`SyncProtocol.SecondNamelessEventBlocksForEver`).
- `models/api_nonce.py` (50) calls a retention greater than the replay window sufficient. It must
  cover twice the skew, because a request may be stamped that far ahead, and the time a claim
  lags behind its window check; and a request that is rolled back and run again on its cached
  verdict leaves no nonce at all (`ReplayGuard.ReplaySafeExactlyWhen`).
- `order_pay` says its policy runs before any financial effect, but a discount line is
  written first and stays when the call is refused (`Tender.RefusedPayChangesOrderExactlyWhen`).
- The pull watermark is echoed in whole seconds while write dates are finer, so rows of one
  second can be sent again, and a crowded second stops the loop from ending
  (`SyncPull.Pull.EndsUnlessCrowded`).
- Fire claims to be idempotent; an all-negative cart makes no ticket, and its repeat is
  appended again (`TableLedger.ReplayIsNoopExactlyWhen`). A checkout, the one caller that
  defers the kitchen, takes a fresh identity each time, so a checkout sent again appends again.
- A fire whose combo or split pizza cannot be sold answers with an error after it has written
  the plain lines and the grafts before it, and that stays: the kitchen gets no ticket, the
  snapshot and part of the total are left behind, and a retry appends once more
  (`TableRuns.FireKeepsCachesExactlyWhen`, `TableLedger.FailedFireAppendsAgain`).
- The guard's operation map reads every tender as a full payment and every fire as a send, so
  a split bill and an ordinary second round are no accepted lifecycle logs
  (`OrderGuard.LiteralLogAcceptedExactlyWhen`).
- A timestamp that reads as not-a-number is outside no window, since no comparison with it
  holds (`ReplayGuard.ReplayableExactlyWhen`).
- Refunds and account charges are said to be safe because a lock is held while they read. With
  snapshots taken at the first query the lock refreshes nothing, and safety rests on the
  commits the database refuses (`RefundSnapshots.SafeExactlyWhenNeverExposed`,
  `CreditSnapshots.LimitHoldsExactlyWhenRefused`).
- The last tender of a split bill is said to absorb rounding drift. It absorbs any difference:
  earlier tenders past the target are recorded in full, and the last one as a negative amount
  (`Drift.BuildPayments`).
- A bound is said to limit what lower scopes may pick. The first value a user saves takes it out
  of that user's resolved locks (`SettingsLaws.SaveDropsBoundExactlyWhen`).

## Model
| member | source | states |
|---|---|---|
| RefundRules.CheckRefund | addons/mezze_bridge/domain/refund.py:79-96 | a requested amount passes iff it is positive and at most paid minus already refunded; the remainder is reported in every case |
| RefundRules.CheckLineQuantity | addons/mezze_bridge/domain/refund.py:51-66 | the same ceiling per line in quantity units |
| RefundRules.PowersOfTen | addons/mezze_bridge/domain/refund.py:69-76 | digits are factors of ten and add up, so minor units and quantity units are what the precision says |
| RefundRules.AcceptedQuantityBound | addons/mezze_bridge/domain/refund.py:41-66 | an accepted quantity check bounds the true, unrounded quantity by sold plus 1.5 units, and by sold exactly on the unit grid |
| RefundResolve.CollectRequests | addons/mezze_bridge/controllers/main.py:3488-3511 | the payload loop computes the aggregated request per source line, or the first failure |
| RefundResolve.CollectMeans | addons/mezze_bridge/controllers/main.py:3488-3511 | aggregation succeeds iff every payload line is readable; each source line then carries the sum of all its payload entries, however often it is repeated |
| RefundResolve.ReadLineMeans | addons/mezze_bridge/controllers/main.py:3488-3511 | an entry reads as the quantity, without its sign, of the line it names (the whole line if none is sent); each of the five failures has its exact condition |
| RefundResolve.ResolveRefundLines | addons/mezze_bridge/controllers/main.py:3460-3558 | the whole resolution loop computes the specified plan or the first rejection |
| RefundResolve.ResolveAccepts | addons/mezze_bridge/controllers/main.py:3460-3558 | a refund is accepted iff currency, company, every line ceiling and the money ceiling hold; its total is then the proportional worth of the payload rounded once |
| RefundResolve.ResolveReasons | addons/mezze_bridge/controllers/main.py:3460-3558 | why a refund is refused, the checks in their order: currency, company, no entry, the first entry that cannot be read, a line asked too little or too much of, the money |
| RefundResolve.PlanTakesBackWhatWasAsked | addons/mezze_bridge/controllers/main.py:3514-3543 | an accepted plan has exactly one line for each source line the payload names, taking back the sum of what was asked there |
| RefundResolve.ResolvedIsFaithful | addons/mezze_bridge/controllers/main.py:3531-3543 | every refund line links to a distinct line of this original and books that line's own product, unit price, discount and taxes, and of both subtotals what is proportional to the quantity, whatever the client sent |
| RefundDesk.Desk.OrderRefund | addons/mezze_bridge/controllers/main.py:3565-3689 | a uuid of any known order answers with that order and changes nothing; then the lifecycle guard may forbid; otherwise the refund is stored iff it is acceptable |
| RefundProtocol.CommitIsSafe | addons/mezze_bridge/controllers/main.py:3516-3558 | committing a plan checked against a reading that covers the present history keeps both ceilings |
| RefundProtocol.EveryInterleavingIsSafe | addons/mezze_bridge/controllers/main.py:3451-3558 | over every interleaving of any number of refunding clients, aborts included: refunded money stays within paid money (also when discount lines are refunded through `abs`), no line is refunded more than 1.5 units past sold, no uuid is stored twice, every stored line links to this original |
| RefundProtocol.AloneStoresWhenAcceptable | addons/mezze_bridge/controllers/main.py:3565-3689 | a client that nobody disturbs stores its refund iff it is acceptable and leaves the rest as it was; the lock is free again |
| RefundProtocol.GridRefundsNeverExceedSold | addons/mezze_bridge/controllers/main.py:3514-3529 | with quantities on the unit grid, refunded units never pass sold units, over every interleaving |
| RefundProtocol.DriftIsHalfAUnitPerRefund | addons/mezze_bridge/controllers/main.py:3545-3558 | n refunds move the money at most n/2 minor units from the exact amount |
| RefundProtocol.SplitRefundStaysProportional | addons/mezze_bridge/controllers/main.py:3531-3558 | before rounding, the parts of a split line refund add up to the line's proportional amount |
| RefundProtocol.SplitRefundsStayClose | addons/mezze_bridge/controllers/main.py:3531-3558 | over every interleaving that refunds one line, n settled refunds leave the money within n/2 minor units of the line's proportional amount |
| RefundSnapshots.SafeExactlyWhenNeverExposed | addons/mezze_bridge/controllers/main.py:3451-3458 | when a transaction keeps the snapshot of its first query, the ceilings hold over every run iff no run brings a client to commit, unrefused, a plan that breaks one on an outdated snapshot |
| RefundSnapshots.RefusingTheBreaksSuffices | addons/mezze_bridge/controllers/main.py:3451-3558 | so it is enough that the database refuses the outdated commits that break a ceiling |
| RefundSnapshots.RefusalIsNeeded | addons/mezze_bridge/controllers/main.py:3451-3558 | and it must, on every original: of any two refunds that fit alone but not together, the second on a snapshot without the first has to be refused |
| RefundSnapshots.NoRefusalIsUnsafe | addons/mezze_bridge/controllers/main.py:3451-3458 | the lock alone does not protect the ceilings: without refusals one sold unit is refunded twice |
| Rounding.RoundHalfEvenUnique | addons/mezze_bridge/domain/refund.py:69-76 | the rounding the server uses is the only integer within one half, ties going to the even side |
| SyncPush.CloudServer.PushBatch | addons/mezze_bridge/controllers/sync.py:127-193 | one push request: the new cloud and the counters are those of the specification, or the whole batch aborts and nothing changes |
| SyncPush.AscendingUnique | addons/mezze_bridge/controllers/sync.py:144 | a strictly ascending arrangement of a batch is unique, so the order in which a batch arrives does not matter |
| SyncPush.StepAllDelivers | addons/mezze_bridge/controllers/sync.py:148-187 | on events above the cursor with fresh identities the loop does exactly one in-order delivery of each, poison events recorded without effect |
| SyncContents.SaleIsStored | addons/mezze_bridge/controllers/sync.py:228-269 | a fresh sale stores one order: this terminal's, with just the lines sent, their total, the payments sent or else one of the total by the default method, and the reference sent or else the minted one; nothing else changes |
| SyncContents.SaleTotalLaws | addons/mezze_bridge/controllers/sync.py:243 | a sale's total: nothing for no line, quantity times price for one, and lines add up |
| SyncContents.SaleIsNotStored | addons/mezze_bridge/controllers/sync.py:228-243 | a stored sale is skipped; one without a branch or with an unknown product is dead-lettered without effect |
| SyncContents.UnknownIsDeadLettered | addons/mezze_bridge/controllers/sync.py:152-175 | an event without identity, readable payload or known model is recorded as failed without effect |
| SyncContents.StockIsMoved | addons/mezze_bridge/controllers/sync.py:275-294 | a stock event moves exactly the cell it names, at its location or else the branch's, by its delta, and is flagged iff that leaves it negative; naming none it is dead-lettered |
| SyncContents.PointsAreBooked | addons/mezze_bridge/controllers/sync.py:296-317 | a loyalty event books its points on its partner's card, issued or used by sign, flagged iff the balance ends negative; without a known partner or programme it is dead-lettered |
| SyncContents.PushIsReported | addons/mezze_bridge/controllers/sync.py:147-193 | a push reports what it did to the ledger: failed, flagged and applied are the rows it added, and each event above the cursor is counted once |
| SyncProtocol.StepAllOutcome | addons/mezze_bridge/controllers/sync.py:148-187 | when the loop gets through, what its cursor and ledger are: the largest sequence number seen and the identities met |
| SyncProtocol.PushAbortsWhen | addons/mezze_bridge/controllers/sync.py:152-163 | a batch aborts iff it holds an event without identity above the cursor while another such event is recorded or precedes it |
| SyncProtocol.PushDelivers | addons/mezze_bridge/controllers/sync.py:144-193 | a contiguous slice delivers exactly the events of the log that were not delivered before |
| SyncProtocol.EveryRunIsExactlyOnce | addons/mezze_bridge/controllers/sync.py:144-193 | over every run of reordered, overlapping, repeated or aborted contiguous batches of any number of terminals, the cloud equals one in-order delivery of each log up to its cursor |
| SyncProtocol.RepushIsNoop | addons/mezze_bridge/controllers/sync.py:148-163 | pushing any accepted batch again changes nothing, contiguous or not |
| SyncProtocol.SkippedEventIsLost | addons/mezze_bridge/controllers/sync.py:148-151 | an event left out of an accepted batch that held a later one is never applied afterwards |
| SyncProtocol.SecondNamelessEventBlocksForEver | addons/mezze_bridge/controllers/sync.py:152-159 | after a first event without identity, a second one in the log is never passed: the cursor stays below it over every run |
| SyncConvergence.EffectsCommute | addons/mezze_bridge/controllers/sync.py:206-317 | any two events that are not sales under one identity commute |
| SyncConvergence.PermutationsAgree | addons/mezze_bridge/controllers/sync.py:206-317 | every permutation of a history with unique sales folds to the same stock, cards and orders |
| SyncConvergence.RunsConverge | addons/mezze_bridge/controllers/sync.py:206-317 | two runs that acknowledged the same part of every log end in the same world |
| SyncConvergence.SchedulesConverge | addons/mezze_bridge/controllers/sync.py:144-317 | the same stated over request schedules from an unused cloud |
| SyncConvergence.OnHandIsStartPlusDeltas | addons/mezze_bridge/controllers/sync.py:275-294 | on-hand is the start value plus every applied delta, per product and location |
| SyncConvergence.StockRowIsFlagged | addons/mezze_bridge/controllers/sync.py:284-294 | the ledger row of a stock event with a known target is flagged iff on-hand ends negative, and its delta counts either way; without a target it is dead-lettered without effect |
| SyncConvergence.EarnAndRedeemMean | addons/mezze_bridge/controllers/main.py:4768-4856 | earnings and covered redemptions change the partner's card by just their points, and nothing else |
| SyncConvergence.BalanceIsIssuedMinusUsed | addons/mezze_bridge/controllers/main.py:4768-4792 | over any mix of synced transactions, earnings and redemptions, each card's balance is issued minus used |
| SyncPull.PullUntilComplete | addons/mezze_bridge/controllers/sync.py:322-345 | unless a second is crowded the terminal's loop terminates and collects the pages up to the first short one; with whole-second dates and no split tie it returns the whole table above the watermark |
| SyncPull.PageMeans | addons/mezze_bridge/controllers/sync.py:382-394 | one answer: the first rows above the watermark, at most a page, the second of the last one, and whether the page is full |
| SyncPull.Pull.EndsUnlessCrowded | addons/mezze_bridge/controllers/sync.py:382-394 | the loop ends iff no second above the first watermark holds a full page of rows with sub-second dates; with whole-second dates it always ends |
| SyncPull.Pull.GapIsTie | addons/mezze_bridge/controllers/sync.py:389-394 | the rows jumped over between two pages are exactly those that tie with the last row of a full page |
| SyncPull.Pull.DeliveredUnlessTied | addons/mezze_bridge/controllers/sync.py:382-394 | when the loop has ended, a row above the first watermark was delivered iff it did not tie past the end of a full page |
| SyncPull.Pull.WholeSecondsNeverRepeat | addons/mezze_bridge/controllers/sync.py:389-394 | with whole-second dates no row is delivered twice |
| SyncPull.Pull.WholeTableDelivered | addons/mezze_bridge/controllers/sync.py:322-394 | with whole-second dates and no split tie the loop delivers the table above the watermark exactly once, in order |
| ReplayGuard.NonceStore.Claim | addons/mezze_bridge/models/api_nonce.py:23-35 | a nonce is claimed iff both parts are given and the pair was not claimed before |
| ReplayGuard.NonceStore.Gc | addons/mezze_bridge/models/api_nonce.py:38-46 | clean-up removes only rows older than the cut-off, at most `limit` of them when a limit is set |
| ReplayGuard.NonceStore.Verify | addons/mezze_bridge/controllers/main.py:452-509 | each of the nine answers of the gate with its exact condition on the request, the window and the nonces, not-a-number and infinities included; only an accepted request claims its nonce, and one that passed once passes again without a claim |
| ReplayGuard.ReplaySafeExactlyWhen | addons/mezze_bridge/controllers/main.py:485-509 | for numeric timestamps, over every interleaving of window checks, claims, commits, rollbacks, re-runs, clock ticks and clean-ups, no proof takes effect twice iff the skew is negative, or no handler is run again within its request, a claim lags at most L whole seconds behind its check, and the retention is at least twice the skew plus L |
| ReplayGuard.ReplayableExactlyWhen | addons/mezze_bridge/controllers/main.py:485-509 | a given principal, timestamp and nonce can take effect twice in some run iff both names are given and the timestamp is not a number, or is a number and that condition fails |
| ReplayGuard.StepKeepsInv | addons/mezze_bridge/controllers/main.py:485-509 | under that condition every step keeps each proof that took effect either past any further claim or guarded by a committed nonce |
| ReplayGuard.CollectionReplays | addons/mezze_bridge/models/api_nonce.py:38-57 | the run in which a clean-up between check and claim lets a second copy through: for every shorter retention, for every retention if the lag is unbounded or the timestamp is not a number |
| ReplayGuard.RerunReplays | addons/mezze_bridge/controllers/main.py:466-508 | the run in which a rolled back and re-run request leaves no nonce, so a second copy takes effect at any retention |
| ReplayGuard.ShippedSettings | addons/mezze_bridge/models/api_nonce.py:49-57 | 300 s and 3600 s are safe iff nothing is run again and claims lag at most 3000 s; 301 s, though greater than the window, never is |
| TableLocks.LockOrder | addons/mezze_bridge/controllers/main.py:3982-3988 | the locks are taken strictly ascending, without repeats, and are exactly the given non-empty ids |
| TableLocks.StepsMean | addons/mezze_bridge/controllers/main.py:3982-3988 | a transaction can take its next lock iff no other live one holds it, and holds it then; ending it holds nothing |
| TableLocks.StepKeepsExclusion | addons/mezze_bridge/controllers/main.py:3982-3988 | no step lets two live transactions hold one lock |
| TableLocks.NoWaitCycle | addons/mezze_bridge/controllers/main.py:3982-3988 | in no valid state do transactions wait for each other in a circle |
| TableLocks.DeadlockFree | addons/mezze_bridge/controllers/main.py:3982-3988 | while a transaction is unfinished, some transaction has a useful step, and every step uses up work |
| TableLocks.ServerNeverDeadlocks | addons/mezze_bridge/controllers/main.py:1796-1800 | however many fires, transfers and merges start together, after every legal run some unfinished one can step, and runs are bounded |
| StationTickets.MakeTickets | addons/mezze_bridge/controllers/main.py:1747-1774 | the grouping loop makes one ticket per station from the positive items |
| StationTickets.NothingLostOrDoubled | addons/mezze_bridge/controllers/main.py:1762-1773 | the tickets of a fire hold every positive item exactly once |
| StationTickets.OneTicketPerStation | addons/mezze_bridge/controllers/main.py:1762-1773 | no two tickets of a fire share a station, none is empty, and each keeps its items' order |
| TableRequests.KitchenGetsTheDishes | addons/mezze_bridge/controllers/main.py:1747-1774 | the tickets a fire adds hold its dishes and its grafts' items with a positive quantity, each with its product, station, quantity and note as often as it was keyed, and nothing else; each item is on its own station's ticket |
| TableRequests.DishIsOnItsTicket | addons/mezze_bridge/controllers/main.py:1889-1912 | a dish to cook is on exactly the ticket of its station |
| TableRequests.FireTickets | addons/mezze_bridge/controllers/main.py:1889-1912 | a fire's tickets are all on its order, under its identity and course, labelled with the order's table; a deferred fire adds none |
| TableOrders.RebuildSnapshot | addons/mezze_bridge/controllers/main.py:1914-1919 | the loop computes the snapshot of the lines |
| TableOrders.SnapshotMeans | addons/mezze_bridge/controllers/main.py:3995-4003 | the snapshot lists exactly the products with a positive held quantity, each with its whole sum |
| TableOrders.Floor.FireCourse | addons/mezze_bridge/controllers/main.py:1781-1928 | one fire in place: idempotency, search, append or open, plain lines and their total, grafts up to the first bad one, retotal, tickets, snapshot |
| TableRequests.FireAnswers | addons/mezze_bridge/controllers/main.py:1803-1843 | when a fire is a repeat, refused, fails or gets through |
| TableRequests.FireWrites | addons/mezze_bridge/controllers/main.py:1826-1919 | a fire writes on the table's open order, else on the open order of its name, else on a new one; which fields change and how, and that no other order does |
| TableRequests.GraftsAppend | addons/mezze_bridge/controllers/main.py:1877-1886 | grafts are written one after the other |
| TableOrders.GraftAll | addons/mezze_bridge/controllers/main.py:1600-1704 | grafting writes the combos and split pizzas before the first one that cannot be sold, and succeeds iff there is none |
| TableOrders.Floor.Transfer | addons/mezze_bridge/controllers/main.py:4007-4045 | one transfer in place, with its five refusals in the source's order |
| TableOrders.Floor.Merge | addons/mezze_bridge/controllers/main.py:4053-4127 | one merge in place: transfer when the target is free, the payment guard, re-homing, retotal, removal |
| TableRequests.TransferMeans | addons/mezze_bridge/controllers/main.py:4007-4045 | a transfer moves the source's open order, tickets following, to a known free table; each refusal has its condition and changes nothing |
| TableRequests.MergeMeans | addons/mezze_bridge/controllers/main.py:4053-4127 | a merge joins lines and guests of two open orders unless money is on either and nobody confirmed, everything else of the target staying; onto a free table it is a transfer; each refusal has its condition |
| TableRuns.StepKeepsInv | addons/mezze_bridge/controllers/main.py:1781-1928 | every fire (through, refused or failed half-way), transfer, merge (confirmed or not), payment and closing keeps names, tables, tickets, fire identity, courses and paid amounts in order |
| TableRuns.FireKeepsCachesExactlyWhen | addons/mezze_bridge/controllers/main.py:1844-1919 | a fire that reaches an order keeps all totals and snapshots in agreement with the lines iff its grafts all resolve, or what it leaves behind is worth nothing and has no positive quantity |
| TableRuns.StepKeepsCaches | addons/mezze_bridge/controllers/main.py:1781-1928 | every other step, and every harmless fire, keeps totals and snapshots in agreement with the lines |
| TableRuns.FailedFireBreaksCaches | addons/mezze_bridge/controllers/main.py:1852-1919 | the two failing inputs: plain lines left outside the snapshot, and a grafted combo left outside the total |
| TableLedger.EveryRunIsSound | addons/mezze_bridge/controllers/main.py:1826-1919 | after any run from an empty floor: unique uuids, one open order per table and session, every ticket on a live order of its table, each fire on one order, courses bounded, the paid amount the sum of the payments or reset to 0; and if every fire was harmless, totals and snapshots agree with the lines |
| TableLedger.NewCourseIsLater | addons/mezze_bridge/controllers/main.py:1889-1912 | a new fire's course is above every course already on its order, merges included |
| TableLedger.CookedFireIsNeverRepeated | addons/mezze_bridge/controllers/main.py:1803-1817 | a fire that made a ticket is answered as a repeat, without any change, at every later time, pointing at the one order that then holds its tickets |
| TableLedger.ReplayIsNoopExactlyWhen | addons/mezze_bridge/controllers/main.py:1803-1919 | an accepted fire can be repeated at once without effect iff it reached the kitchen or added no line |
| TableLedger.FailedFireAppendsAgain | addons/mezze_bridge/controllers/main.py:1844-1886 | a fire that failed half-way fails again when repeated, and writes its lines a second time if it had any |
| TableLedger.MergeConserves | addons/mezze_bridge/controllers/main.py:4053-4127 | a merge keeps all lines and their worth, all kitchen content, the guests and, where the stored totals agreed, the grand total; it keeps the payments iff the emptied order has none or nothing was merged, and losing some needs the confirmation |
| TableLedger.RunBooks | addons/mezze_bridge/controllers/main.py:4007-4127 | over any run with unconfirmed merges the floor holds its old lines, payments and guests plus exactly what fires, failed ones included, and payments added; the stored totals add up to the worth of the lines if every fire was harmless |
| Tender.PosOrder.Pay | addons/mezze_bridge/controllers/main.py:2088-2226 | one call of the pay route in place, each answer and the whole new order |
| Tender.PayAnswers | addons/mezze_bridge/controllers/main.py:2088-2226 | when each answer of the pay route is given: repeat, state, policy, amount, credit, and what is left after the tender |
| Tender.PayWrites | addons/mezze_bridge/controllers/main.py:2088-2226 | what each call leaves on the order: customer, total, payments under their key, paid amount, state |
| Tender.EveryRunIsSound | addons/mezze_bridge/controllers/main.py:2088-2226 | over every run each key pays at most once, payments are positive, and a closed order was paid within one minor unit of its total |
| Tender.ClosedOnce | addons/mezze_bridge/controllers/main.py:2206-2219 | a run closes an open order at most once |
| Tender.RetryIsNoop | addons/mezze_bridge/controllers/main.py:2090-2097 | a keyed tender that was taken is answered as a repeat at every later time |
| Tender.RefusedPayChangesOrderExactlyWhen | addons/mezze_bridge/controllers/main.py:2101-2184 | a refused call changes the order iff it passed the state check and brought a non-zero discount or the first customer |
| Tender.ClosableExactlyWhen | addons/mezze_bridge/controllers/main.py:2166-2219 | an open order can be closed by some undiscounted call iff it is not overpaid, and by the default amount iff something is outstanding |
| Tender.PayKeepsOwingExactlyWhen | addons/mezze_bridge/controllers/main.py:2109-2226 | one call keeps an owing order owing iff it is a repeat or the order is closed, or it will be taken, or there is no payment yet, or its discount leaves more than one unit |
| Tender.OwingExactlyWhen | addons/mezze_bridge/controllers/main.py:2109-2226 | an open order with payments owes more than one unit all along a run iff every call met that condition |
| Tender.StartedOrdersOwe | addons/mezze_bridge/controllers/main.py:2166-2226 | under that condition an open order with payments owes more than one unit and the next default tender closes it |
| Tender.RefusedDiscountStrandsOrder | addons/mezze_bridge/controllers/main.py:2109-2124 | a refused discount can leave an open order that no undiscounted tender can close |
| Tender.OutstandingFalls | addons/mezze_bridge/controllers/main.py:2166-2226 | without discounts the outstanding amount falls by at least one unit per tender taken |
| Drift.ChildPrices | addons/mezze_bridge/controllers/main.py:1533-1572 | combo child prices add up to list price plus extras exactly; each but the last is within half a unit of its share, the last within (n-1)/2 |
| Drift.ShareMeans | addons/mezze_bridge/controllers/main.py:1547-1556 | a child's part is to the list price as its base is to all bases |
| Drift.LastChildCanBeNegative | addons/mezze_bridge/controllers/main.py:1550-1558 | that last bound is reached: four equal groups at a price of 2 units are priced 1, 1, 1 and -1 |
| Drift.BuildPayments | addons/mezze_bridge/controllers/main.py:1121-1164 | payments add up to the target plus the card's part, every tender but the last stands as sent, the last is positive iff the earlier ones, rounded, stay below the target, and the card is refused or keeps a balance of at least 0 |
| Drift.AppliedMeans | addons/mezze_bridge/controllers/main.py:1133-1134 | the card pays at most what was asked, what it holds and the rounded bill, and one of them in full |
| Drift.FilteredLaws | addons/mezze_bridge/controllers/main.py:1144-1145 | only positive tenders count, in the order sent |
| Drift.PaymentsMatchBillExactlyWhen | addons/mezze_bridge/controllers/main.py:1133-1143 | the payments equal the rounded bill iff the bill is not negative, the card's part is a whole number of units, and that number is even or the bill is not half-way between two units |
| Credit.SumInSession | addons/mezze_bridge/models/mezze_customer_credit.py:56-66 | the charges of open sessions are summed as specified |
| Credit.GateAnswers | addons/mezze_bridge/controllers/main.py:2009-2061 | when each answer of the credit gate is given, by limit, exposure and policy |
| Credit.AloneChargesWhenPassed | addons/mezze_bridge/controllers/main.py:2009-2061 | a register that nobody disturbs charges what it asked for iff the gate lets it pass, and nothing otherwise |
| Credit.OutsideSteps | addons/mezze_bridge/models/mezze_customer_credit.py:84-110 | a settlement lowers what is owed by its amount, and a limit change owes nothing more |
| Credit.CloseKeepsExposure | addons/mezze_bridge/models/mezze_customer_credit.py:44-68 | closing a session posts its charges and leaves the exposure as it was |
| Credit.EveryRunStaysWithin | addons/mezze_bridge/controllers/main.py:2009-2061 | over every interleaving of registers, settlements, closings and limit changes, exposure is at most the larger of start and highest limit, plus the charges that were let past or met no limit |
| Credit.LimitIsNeverPassed | addons/mezze_bridge/controllers/main.py:2009-2061 | with an active limit that only rises and the blocking policy, exposure is at most the larger of start and limit |
| CreditSnapshots.LimitHoldsExactlyWhenRefused | addons/mezze_bridge/controllers/main.py:2021-2029 | when a transaction keeps the snapshot of its first query, a blocking limit holds over every run iff the database refuses each charge that fits its outdated snapshot but, on top of what is owed by then, no longer the limit |
| SettingDefs.BooleansReadBack | addons/mezze_bridge/models/config_platform.py:101-117 | an accepted boolean is read back as the boolean that was sent |
| SettingDefs.KindsMean | addons/mezze_bridge/models/config_platform.py:101-122 | what each kind of setting accepts and how its text is read |
| SettingDefs.NumbersReadBack | addons/mezze_bridge/models/config_platform.py:108-112 | a written number reads as itself, with or without a sign |
| SettingDefs.StoredFailsExactlyWhen | addons/mezze_bridge/models/config_platform.py:101-117 | when the text that is stored fails the check that the text that was validated passed |
| Settings.FoldIsTheRule | addons/mezze_bridge/models/config_platform.py:306-340 | the fold over scopes picks the earliest locked contribution, else the latest contribution, else none |
| SettingsRule.ResolvedByName | addons/mezze_bridge/models/config_platform.py:25-341 | a key has the value, source and policy of the scope that rules it by name: no scope above it in platform, organization, brand, branch, role, user, device locks the key, and unless it locks it itself none below says anything; it has its default iff no scope speaks |
| SettingsRule.SaysAt | addons/mezze_bridge/models/config_platform.py:278-321 | what a scope says for a caller: its own row under the caller's reference for that scope, else the last line of the last published template in force |
| SettingsRule.BranchBeatsBrand | addons/mezze_bridge/models/config_platform.py:25-341 | a free branch row stands over a free brand row |
| Settings.LockHolds | addons/mezze_bridge/models/config_platform.py:323-340 | no later scope changes a key that a scope locked |
| SettingsService.Service.Gather | addons/mezze_bridge/models/config_platform.py:313-321 | a scope contributes its direct row, else the last published template line |
| SettingsService.Service.Resolve | addons/mezze_bridge/models/config_platform.py:290-350 | value, source, lock and overrides of every key are those of the rule |
| SettingsService.Service.SaveUser | addons/mezze_bridge/models/config_platform.py:354-387 | accepted values are stored together and reported, or nothing is |
| SettingsService.Service.ResetUser | addons/mezze_bridge/models/config_platform.py:390-404 | exactly the user's own rows of the section go, and their number is returned |
| SettingsLaws.SavedValueResolves | addons/mezze_bridge/models/config_platform.py:354-387 | a saved key resolves to the saved value, or to the device's own, and stays unlocked |
| SettingsLaws.SaveChangesNothingElse | addons/mezze_bridge/models/config_platform.py:354-387 | a key that was not saved resolves as before for everyone, and every key does for every other user |
| SettingsLaws.SaveKeepsLocks | addons/mezze_bridge/models/config_platform.py:354-387 | saving keeps the set of locked keys |
| SettingsLaws.SavedPolicy | addons/mezze_bridge/models/config_platform.py:332-340 | a saved key ends with the policy of the device if it contributes, else of the user's earlier row, else free |
| SettingsLaws.SaveDropsBoundExactlyWhen | addons/mezze_bridge/models/config_platform.py:335-340 | a bound set above is lost for the one who saves iff there was no row of theirs and the device says nothing |
| SettingsLaws.ResetUndoesSave | addons/mezze_bridge/models/config_platform.py:354-404 | save, then full reset, from no user rows restores the store |
| SettingsLaws.ResetIsLocal | addons/mezze_bridge/models/config_platform.py:390-404 | a reset removes the user's rows of its section and changes nothing outside it |
| SettingsRule.ResetMeans | addons/mezze_bridge/models/config_platform.py:390-404 | which rows a reset removes, and that every other row stays |
| KdsTicket.Board.SetState | addons/mezze_bridge/models/kds_ticket.py:78-112 | one transition in place, with its reply |
| KdsTicket.Board.Recall | addons/mezze_bridge/models/kds_ticket.py:114-126 | one recall in place, with its reply |
| KdsTicket.BumpMeans | addons/mezze_bridge/models/kds_ticket.py:94-112 | which stages a bump may reach from which, its replies, and which stages it stamps |
| KdsTicket.RecallMeans | addons/mezze_bridge/models/kds_ticket.py:114-126 | where a recall leads from each stage |
| KdsTicket.Board.CancelForOrder | addons/mezze_bridge/models/kds_ticket.py:129-156 | the loop cancels exactly the live tickets of the order and reports them |
| KdsTicket.CancelAbsorbs | addons/mezze_bridge/models/kds_ticket.py:94-112 | a cancelled ticket never changes again |
| KdsTicket.StampsAreWrittenOnce | addons/mezze_bridge/models/kds_ticket.py:107-110 | a stamp keeps its first time over every run |
| KdsTicket.ForwardOnly | addons/mezze_bridge/models/kds_ticket.py:94-112 | without recalls every change raises the stage, so there are at most five, and served is final |
| KdsTicket.ServedIsLeftByRecallOnly | addons/mezze_bridge/models/kds_ticket.py:114-126 | a step leaves the served stage iff it is a recall |
| KdsTicket.StampsFollowFlow | addons/mezze_bridge/models/kds_ticket.py:107-110 | without recalls stamps follow the flow |
| KdsTicket.RecallDisordersStamps | addons/mezze_bridge/models/kds_ticket.py:107-126 | with recalls they need not: a ticket prepared after it was ready |
| KdsTicket.LiveAfterVoidExactlyWhen | addons/mezze_bridge/models/kds_ticket.py:129-156 | however a void interleaves with other screens, once it ends a ticket of the order is still live iff it was recalled from served when the void had passed it or never listed it, and no later step finished it |
| KdsTicket.RecallBehindTheVoid | addons/mezze_bridge/models/kds_ticket.py:114-156 | such a run, and the one in which the same recall comes before the void and is cancelled |
| KdsTicket.SecondVoidIsNoop | addons/mezze_bridge/models/kds_ticket.py:129-156 | a second void finds and changes nothing |
| OrderFsm.FoldLog | addons/mezze_bridge/domain/order_fsm.py:160-169 | the replay loop computes the fold, refusing at the first forbidden event |
| OrderFsm.EventsMean | addons/mezze_bridge/domain/order_fsm.py:69-130 | for each event, the states it is allowed in and where it leads |
| OrderFsm.PaidNeverUnpaid | addons/mezze_bridge/domain/order_fsm.py:116-138 | after a settled prefix no later state is pre-payment or cancelled |
| OrderFsm.PaidOnceRefundedOnce | addons/mezze_bridge/domain/order_fsm.py:69-130 | an accepted log past pre-payment holds either one full payment or one cancel, never both; a settled one was paid once; there is at most one refund |
| OrderFsm.ProgressIsBounded | addons/mezze_bridge/domain/order_fsm.py:69-130 | at most ten events of an accepted log neither repeat a state nor hold and resume |
| OrderFsm.Reachable | addons/mezze_bridge/domain/order_fsm.py:177-186 | the worklist terminates with exactly the states some log ends in |
| OrderGuard.BlocksExactlyWhen | addons/mezze_bridge/domain/order_guard.py:58-110 | which operations the guard blocks, in which mode |
| OrderGuard.VerdictsMean | addons/mezze_bridge/domain/order_guard.py:58-110 | the verdict that goes with each evaluation |
| OrderGuard.LiveRunsFollowLifecycle | addons/mezze_bridge/domain/order_guard.py:19-110 | up to the first refund, what the attempts let through amounted to (a part tender a partial payment, a refused call nothing, fires aside) is an accepted log ending in the state the stored state stands for |
| OrderGuard.LiteralLogAcceptedExactlyWhen | addons/mezze_bridge/domain/order_guard.py:33-110 | the events the guard checked form an accepted log iff nothing follows a refund, a cancel or a pay that left the order open, no fire or line follows a fire, and no close a close |
| OrderGuard.SecondTenderIsNotAccepted | addons/mezze_bridge/controllers/main.py:2098-2226 | two tenders that share a bill both pass the guard, which checked two full payments |
| OrderGuard.PayRouteEnds | addons/mezze_bridge/controllers/main.py:2098-2226 | a pay call on an open order that is no repeat settles it, takes part of it, or leaves it open, as its ending says |
| OrderGuard.SecondRoundIsNotAccepted | addons/mezze_bridge/domain/order_guard.py:33-43 | fire, add, fire is let through and is not an accepted log |

## Left out
- Requests as text: HTTP, JSON, authentication, approvals, audit rows, broadcasts and the outbox have no invariant here.
- Database isolation: `RefundProtocol`, `Credit`, the table runs and the kitchen void read every earlier commit under their locks, as the source intends; at REPEATABLE READ a row lock on a row changed since the snapshot fails and the request is retried instead. The two snapshot modules say which commits have to be refused; whether PostgreSQL refuses them for these writes is not part of this model.
- Table requests are one step each, under their locks; two fires that reach one order through different lock keys (a table and a uuid) are not interleaved.
- Floating point: money and quantities are integers in the smallest unit, or exact reals where rounding is the point.
- Odoo's own logic (taxes, `sync_from_ui`, `add_payment`, `action_pos_order_paid`, stock moves, postings) is an abstract update of the fields it writes; its own refusal to close an order one unit short is not modelled.
- In enforce mode a tender on an order that is not open is answered as forbidden instead of already paid; `Tender` has one answer, as neither changes anything.
- Signatures: a valid signature is a predicate on the request.
- Ad-hoc refunds without an original have no ceiling in the source; the second refund constraint in `models/pos_order.py` can only reject more.
- Drafts written by `order_sync` with a table, and comps or discounts on a table order, can bypass the cached totals and snapshots, so the table runs exclude them; `Tender` treats discounts.
- Payments of the table runs are abstract amounts; their rules are in `Tender`, whose runs take the outcomes of the payment policy and the credit gate as inputs.
- A ticket's station, guest count, server name and partner are carried by the request or dropped; session lookup is assumed to succeed.
- Tenders of a split bill are those that name a payment method; the source drops the others first.
- Python's `int()` also reads spaces and underscores, which `SettingDefs.ParseInt` does not; an empty catalogue table falls back to constants, which is not modelled.
- Bounded options are reported with a setting but not enforced by the source, so nothing is claimed about them.
- Tickets created while a void runs are not in its list; the void theorem speaks of the tickets it found.
- Delivery, drive-thru and aggregator lifecycles are not part of this model.
- Reservations, cash machines, printing, redaction, reports, go-live checks and capability tables are not part of this model.
