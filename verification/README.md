# Verification of LoPOS

LoPOS is an offline-first till. A browser keeps a local database of products,
customers and sales, and pushes its sales to a Django server whenever it can. This
project models both halves and the protocol between them, and proves what the shop
relies on: no sale is lost or booked twice, every total can be recomputed from its rows,
and every rounding is bounded.

## How the model is built

The server's tables are one value, `Tables.Db`. Each `transaction.atomic` service is a
method on the class `Tables.Database`, proved equal to a specification function on `Db`
(`Complete` and `CompleteSpec`, `CancelSale` and `CancelSaleSpec`, and so on). A service
that raises leaves every table as it was. `Services.Step` is the state machine whose steps
are all the services, the online sale, the replayed sale and a request that commits after
others slipped in; `Invariants` and `Histories` state what holds after every sequence of
steps from the empty database.

The till's tables are one value, `LocalTables.Till`, and each Dexie transaction is a
method on `LocalTables.TillDb` proved equal to a function on `Till`. `Browser` runs them
from several tabs with crashes, late heartbeats and arbitrary answers. `Protocol` puts any
number of tills, a server and a hostile network together: any event ever put in a batch may
arrive at any time, any number of times or never, and so may any answer ever given.

Services without a loop restate their source branch by branch; what matters about them is
what the theorems say of their functions. They are, on the server, the stock services
`Inventory.ReceiveStock`, `AdjustStock` and `SetStockUnitCost`
(backend/apps/inventory/services.py:112-251), the ledger services
`Customers.RecordOpeningBalance`, `RecordAdjustment`, `ReverseLedgerEntry` and
`RecordCustomerPayment` (backend/apps/customers/services.py:205-441), the sessions
`CashDesk.OpenCashSession`, `CloseCashSession` and `DrawerNow`
(backend/apps/cash/services.py:33-325), the expenses `Expenses.CreateExpense` and
`CancelExpense` (backend/apps/expenses/services.py:82-211); and on the till the lease
`SyncLock.LeaseRow` (frontend/src/db/syncLock.ts:22-61), the carts `Carts.CartDb`
(frontend/src/db/carts.ts:47-155), `LocalSales.MarkLocalSaleConflict` and
`RequeueRetryableConflicts` (frontend/src/db/sales.ts:386-434), `SyncEngine.ApplyResult` and
`SyncRuns.Engine.ScheduleRetry` (frontend/src/sync/syncEngine.ts:71-119).

Units are integers: cents on the server, whole FCFA on the till, thousandths of a sale unit
for quantities, ten-thousandths for costs. Identifiers are natural numbers. Money reaches
the services already on the cent grid, as the serializers guarantee. All lemmas have
automatic induction switched off, so that each proof spells out its own induction.

| files | subject |
|---|---|
| `Sums`, `Rounding`, `Tables` | totals over rows, exact rounding, the server's tables |
| `Inventory`, `Customers`, `CashDesk`, `Sales`, `Returns`, `Expenses`, `Sync` | the services |
| `Services`, `Invariants`, `Histories` | the server as a state machine and what every history keeps |
| `SaleRules`, `Rules` | when each service accepts a request, and what it writes, read off the request and the tables |
| `CreditSales`, `DebtFirst`, `LateSales` | what becomes of a debt when a sale is cancelled or returned; sales synchronised after the closing |
| `Tender`, `Dashboards` | which total, drawer and figure each amount goes to |
| `LocalTables`, `LocalSales`, `Catalogue`, `SyncEngine`, `SyncRuns` | the till and its synchronisation pass |
| `SyncLock`, `Browser`, `Passes` | the lease between tabs, the pending index, final statuses, a pass as a run |
| `Counters`, `TillStock` | how wrong a pending counter can be, and what the till lets out of its stock |
| `TillRecords`, `Requeues` | a sale as it is kept, sent and booked; refusals of former servers |
| `Replay`, `Protocol` | one replayed event, and exactly-once over every interleaving |
| `Agreement`, `Debt`, `DebtRuns` | till and server agreeing on totals, and on debts over whole runs |
| `Shop`, `StaleBooks`, `TabRuns` | runs of one small shop, from nothing, that reach each failure |
| `Carts`, `Decimals`, `Quantity`, `Money`, `Pull` | carts, codecs, catalogue pagination |

## Where the code and its comments disagree

The model follows the code; each disagreement has a lemma.

- "A sync success is terminal" (frontend/src/db/sales.ts:281): `markLocalSaleConflict` does
  not look at the status. A synchronised sale changes exactly when a running pass brings a
  refusal for a sale it listed and that was synchronised since (`Browser.SyncedKeptIff`; over
  whole runs `Browser.SyncedForEverIff`). Passes that renew their lease in time never do
  (`Browser.RunsAreSafe`); a frozen tab may (`TabRuns.WithoutTimelyRenewal`), and the server can
  give both answers (`StaleBooks.LateRefusalReverts`).
- A pending sale "exists nowhere on the server" (frontend/src/db/sales.ts:338-341): false when
  it was delivered and the answer lost (`Shop.LostAnswerThenCancel`), and when a request already
  sent arrives after the cancellation (`Shop.CancelThenLateRequest`). A cancelled sale ends up
  on the server exactly as `Protocol.CancelledIsHeldIff` says; one whose event was never put in
  a batch never does (`Protocol.CancelledBeforeSending`).
- The pending credit is the debt "the server does not know yet"
  (frontend/src/db/sales.ts:398-403): a book of balances is downloaded at one moment and saved at
  another, while sales travel on their own. What is then shown is exactly `DebtRuns.SavedLater`:
  a debt may show twice (`StaleBooks.DebtShownTwice`) or not at all (`StaleBooks.DebtNotShown`).
  A late refusal of a synchronised sale counts its credit twice (`Debt.RefusingExcess`).
- "Same rules as the server" (frontend/src/db/sales.ts:70-71): the till rounds to whole FCFA,
  the server to cents. `Agreement.TillSaleSettlesIff` says when both accept, and
  `Shop.WeighedSaleRefused` is a sale the till took and the server refuses.
- The cursor "never misses a product" (backend/apps/sync/services.py:239-243): it does when a
  page ends inside a group of equal instants. `Pull.DeliversAllIff` is the exact condition.
- A catalogue refresh falls back on the old counter of a product no unsynced sale mentions
  (frontend/src/db/products.ts:46-60), which is right only if that counter is zero
  (`Catalogue.RefreshRightIff`, whatever the tables contain). After every run of carts of
  positive quantities it is, and a refresh puts every counter of its store right
  (`Counters.RefreshAfterEveryRun`). A cart with a negative line, which the quantity reader never
  yields and `createLocalSale` does not refuse, leaves a counter no refresh corrects
  (`TabRuns.StaleCounterKept`).
- A refresh refuses a whole store when one product's stock is negative
  (`Catalogue.RefreshSucceedsIff`), as after an offline sale beyond stock
  (`Shop.OversoldListRefused`).
- A cart with the same product twice counts only its last line in the pending counter
  (`LocalSales.CreateKeepsIndexIffDistinct`, `Shop.DuplicateCart`).
- `cancel_sale` does not look at the drawer: it is the only step that can leave it negative
  (`Histories.DrawersInEveryHistory`, `Shop.CancellationCanOverdraw`).

## Model

| member | source | states |
|---|---|---|
| Protocol.ExactlyOnce | backend/apps/sync/services.py:78-167 | whatever is lost, repeated, delayed or reordered and whichever tabs push at once: at most one server sale per local sale, with the pushed content, its stock and ledger effects journalled exactly once, and every local sale marked synced is on the server |
| Protocol.RetryRecovers | backend/apps/sync/services.py:78-86 | once the server holds a sent sale, any later push of it by anyone answers "already processed" with that sale and changes nothing, so a lost answer is always recovered |
| Protocol.CancelledBeforeSending | frontend/src/db/sales.ts:337-383 | a pending sale cancelled before it was ever put in a batch never reaches the server in any continuation |
| Protocol.CancelledIsHeldIff | frontend/src/db/sales.ts:337-383 | a cancelled pending sale stays off every till, and after any continuation is on the server if and only if it was there at the cancellation or some later request or late commit of its event found the server ready to book it |
| Protocol.CancelledAfterDelivery | frontend/src/db/sales.ts:347-383 | the case of one delivery whose answer is lost: the cancelled sale is on no till, and on the server if and only if the server accepts the event |
| Protocol.DeliveredAfterCancel | frontend/src/db/sales.ts:347-383 | the case of a request arriving after the cancellation |
| Shop.LostAnswerThenCancel | frontend/src/db/sales.ts:337-383 | a run from an empty shop that ends with a sale on no till and booked on the server |
| Shop.CancelThenLateRequest | frontend/src/db/sales.ts:337-383 | the same with the cancellation before the request arrives |
| Protocol.MoveKeeps | frontend/src/sync/syncEngine.ts:71-106 | every move of tills, network and server keeps the system invariant: known contents, true answers, synced sales held |
| Protocol.ServerIsItsLog | backend/apps/sync/services.py:128-146 | in the whole system the server's database is what its log of services makes of an empty one, so all server theorems apply to it |
| Replay.ReplayOutcome | backend/apps/sync/services.py:126-167 | a replay books the sale and its processed event together or nothing, and says "already processed" only of what the server has |
| Replay.BookedMatches | backend/apps/sales/services.py:526-598 | a booked sale carries the event's session, date, customer, credit, legs and total, one line per product with quantities added and the event's price |
| Sync.ProcessSaleCompletedEvent | backend/apps/sync/services.py:46-223 | the handler: lookup, session and access checks, one transaction, refusal codes, races decided by the unique keys |
| Sync.ProcessUnseen | backend/apps/sync/services.py:126-146 | a new event is booked if and only if it is acceptable, a matter of its items, legs, customer and session alone, with its whole effect |
| SaleRules.ReplayAnswer | backend/apps/sync/services.py:78-223 | the answer to a new event from someone allowed, reason by reason: incoherent items, session closed before it, unknown customer, money that does not fit, or success |
| SaleRules.UnknownProductAnswer | backend/apps/sync/services.py:169-199 | a product the server does not know is answered as such |
| SaleRules.EventRecorded | backend/apps/sync/services.py:126-146 | a booked event is recorded once, with who pushed it and whether it left a product below zero |
| LateSales.LateSale | backend/apps/sales/services.py:562-567 | a sale the server would book with its session open is booked after the closing, with the same effect, if and only if it was made by then; else it is a conflict |
| LateSales.ClosingThenLateSale | backend/apps/cash/services.py:275-325 | one that would be booked just before a closing is booked after it if and only if it was made no later |
| LateSales.LateSaleFromNothing | backend/apps/sales/services.py:562-567 | from the empty database: the shop opens, closes, and the late sale arrives |
| LateSales.OnlineNeedsOpenSession | backend/apps/sales/services.py:470-525 | an online sale is booked in an open session only |
| Sync.RunIsBooking | backend/apps/sales/services.py:553-598 | any run of pushes is the booking of its admitted events, computed from the state it started in |
| Sync.OrderIndependence | backend/apps/sales/services.py:526-598 | the same events in any order with any repetitions end in the same sales, stock, average costs, ledger and sessions |
| Sync.SameBooksSameTotals | backend/apps/cash/services.py:168-239 | the same books have the same balances, session totals and expected cash |
| Browser.RunsAreSafe | frontend/src/db/syncLock.ts:22-79 | in every run of timely passes and fair carts: one pass at a time, the pending index right, synced sales unchanged for ever |
| Browser.ExclusionKept | frontend/src/db/syncLock.ts:22-61 | timely renewal keeps every running body alone with a live lease |
| Browser.StaleOwnerIsHarmless | frontend/src/db/syncLock.ts:41-61 | a renewal or release by anyone else leaves the current owner's lease alone |
| Browser.BeginsIff | frontend/src/db/syncLock.ts:22-39 | a pass begins if and only if no other owner's lease is alive |
| Browser.BarsForThirtySeconds | frontend/src/db/syncLock.ts:5-61 | whatever happens after an owner's last sign of life, a crash included, its lease stays as it is for 30 seconds, and while it is there another owner begins if and only if 30 seconds have passed |
| Browser.FinishFreesTheLease | frontend/src/db/syncLock.ts:55-61 | a pass that ends gives the lease back, and anyone may begin |
| Browser.SyncedIsTerminal | frontend/src/db/sales.ts:281-289 | under that exclusion a synced sale keeps its record through every action |
| Browser.SyncedKeptIff | frontend/src/db/sales.ts:386-396 | an action keeps every synchronised sale if and only if it is not a refusal brought by a running pass for a sale it listed and that is synchronised already |
| Browser.CanRevertIff | frontend/src/sync/syncEngine.ts:94-106 | some action would revert a synchronised sale if and only if a running pass still waits for the answer of one |
| Browser.SyncedForEverIff | frontend/src/db/sales.ts:281-289 | over any run, timely or not, synchronised sales stay so for ever if and only if no such late refusal occurs |
| TabRuns.WithoutTimelyRenewal | frontend/src/db/sales.ts:386-396 | from an empty till: a tab frozen past its lease brings a late refusal, the synchronised sale reverts to conflict and the index breaks |
| StaleBooks.LateRefusalReverts | frontend/src/sync/syncEngine.ts:71-84 | from an empty shop, with answers the server gave: a refusal taken after the confirmation reverts a sale the server holds, breaks the index and shows the debt twice |
| LocalSales.CreateLocalSale | frontend/src/db/sales.ts:122-217 | the created sale and counters, or the first refusal met and no change |
| LocalSales.RecordedPaymentsSettle | frontend/src/db/sales.ts:65-116 | payments are recorded exactly when they settle; they then add up with the credit to the total, and no change is given on a credit sale |
| TillStock.RecordedIff | frontend/src/db/sales.ts:122-170 | a cart is recorded if and only if it is not empty, has a customer if on credit, its payments settle its prices, its identifier is new, and the cached stock covers every line |
| TillStock.CreationWithin | frontend/src/db/sales.ts:149-160 | a recorded cart of distinct products takes no more than the known levels hold |
| TillStock.WithinInEveryRun | frontend/src/db/sales.ts:149-160 | in every run of fair carts between two refreshes a known level less its counter stays at or above zero |
| TillRecords.RecordedSale | frontend/src/db/sales.ts:122-217 | the record: pending, dated, one item for each line, one payment for each leg, a customer only on credit |
| TillRecords.SentSale | frontend/src/sync/syncEngine.ts:37-69 | the event is the sale in cents |
| TillRecords.BookedAsSold | backend/apps/sales/services.py:526-598 | what the server books is what the till recorded: identity, instant, amounts by method, credit, each product once at its price |
| LocalSales.CreateKeepsIndexIffDistinct | frontend/src/db/sales.ts:207-213 | creation keeps the pending index if and only if no product appears twice |
| Shop.DuplicateCart | frontend/src/db/sales.ts:207-213 | a concrete cart with one product twice that the till records, breaking the index |
| LocalSales.MarkLocalSaleSynced | frontend/src/db/sales.ts:282-335 | the whole new till: counters lowered, status, server identifier, debt moved to the cached balance |
| LocalSales.SyncedKeepsIndex | frontend/src/db/sales.ts:303-327 | marking a sale synced keeps the index |
| LocalSales.LoweredCounter | frontend/src/db/sales.ts:312-321 | where the index holds, lowering a counter is exact and the clamp at zero never fires |
| LocalSales.CancelPendingLocalSale | frontend/src/db/sales.ts:347-383 | deletes a pending sale and lowers its counters, or refuses and changes nothing |
| LocalSales.CancelsLocallyIff | frontend/src/db/sales.ts:347-383 | a sale leaves the till exactly while it is pending, and nothing else of the outbox or the customers moves |
| LocalSales.MarkedLocally | frontend/src/db/sales.ts:282-396 | a confirmation synchronises any other sale, a refusal puts any sale in conflict with its reason, and neither touches another |
| LocalSales.CancelKeepsIndex | frontend/src/db/sales.ts:347-383 | cancelling keeps the index |
| LocalSales.ConflictKeepsIndexIff | frontend/src/db/sales.ts:386-396 | a conflict mark keeps the index exactly when the sale was unsynced or takes nothing from a cached product |
| LocalSales.RequeueKeepsIndex | frontend/src/db/sales.ts:428-434 | requeueing keeps the index |
| LocalSales.RequeuedIff | frontend/src/db/sales.ts:419-434 | exactly the refusals for a session not owned become pending again |
| Requeues.RequeueingIsIdle | frontend/src/db/sales.ts:419-434 | the present server never refuses so: in every run from nothing requeueing changes nothing |
| Catalogue.SaveProductCatalog | frontend/src/db/products.ts:65-117 | the store's products replaced with their counters, other stores untouched, or the first unreadable product and no change |
| Catalogue.RefreshKeepsIndex | frontend/src/db/products.ts:24-63 | a refresh keeps the index |
| Catalogue.RefreshRightIff | frontend/src/db/products.ts:46-60 | whatever the tables contain, a refreshed counter is right if and only if a sale mentions the product, it was not cached, or its old counter was zero |
| Catalogue.RefreshSucceedsIff | frontend/src/db/products.ts:16-57 | a refresh goes through if and only if all prices are whole FCFA and no stock is negative |
| TillRecords.RefreshedCatalogue | frontend/src/db/products.ts:24-117 | after a refresh the store has the listed products, at their prices and levels, and no others; other stores are untouched |
| TabRuns.StaleCounterKept | frontend/src/db/products.ts:46-60 | from an empty till, a cart with a negative line cancelled leaves a wrong counter that a refresh keeps and the repair corrects |
| Counters.CautiousInEveryRun | frontend/src/db/sales.ts:203-213 | in every run of carts of positive quantities, with repeated products, late refusals and crashes, no counter exceeds what the unsynced sales take or is negative |
| Counters.RefreshAfterEveryRun | frontend/src/db/products.ts:24-63 | after any such run a refresh that goes through leaves every counter of its store right |
| Shop.OversoldListRefused | frontend/src/db/products.ts:16-57 | from an empty shop, an offline sale beyond stock is booked and the price list that follows is refused whole |
| Catalogue.RepairPendingSoldQuantities | frontend/src/db/recovery.ts:16-42 | every counter recomputed, or a refusal exactly when some unsynced quantity is not positive |
| Catalogue.RepairEstablishesIndex | frontend/src/db/recovery.ts:16-42 | the repair establishes the index from any state and is idempotent |
| Catalogue.RepairChangesIffWrong | frontend/src/db/recovery.ts:35-40 | it changes a counter if and only if the index did not hold |
| SyncRuns.Chunk | frontend/src/sync/syncEngine.ts:86-92 | the batches of a list |
| SyncRuns.ChunksCover | frontend/src/sync/syncEngine.ts:86-92 | batches joined are the list, none is empty, all but the last are full |
| SyncRuns.FiftyAtATime | frontend/src/sync/syncEngine.ts:86-92 | a list is pushed fifty sales at a time |
| SyncRuns.BackoffGrows | frontend/src/sync/syncEngine.ts:108-111 | delays of one, two and five seconds, then ten |
| SyncEngine.AnswerTaken | frontend/src/sync/syncEngine.ts:71-84 | a pending sale becomes synchronised, or in conflict with its reason, or stays pending when nothing is known |
| SyncRuns.ListPendingLocalSales | frontend/src/db/sales.ts:246-253 | all the pending sales, each once, in order of creation |
| SyncRuns.PushBatch | frontend/src/sync/syncEngine.ts:94-106 | the till and counters after the answers of a batch |
| SyncRuns.CountsAddUp | frontend/src/sync/syncEngine.ts:94-106 | synced and conflicts never exceed attempted, and reach it exactly when every sale got a result |
| SyncRuns.Engine.RunSync | frontend/src/sync/syncEngine.ts:121-177 | batches up to the first unanswered one applied, counters, failure count, planned retry |
| SyncRuns.Engine.SyncPendingSales | frontend/src/sync/syncEngine.ts:180-195 | with the lock one pass over the pending sales; without it nothing changes and a retry is planned |
| SyncRuns.PassSettles | frontend/src/sync/syncEngine.ts:137-165 | after a pass each sale of an answered batch is settled by its own answer and every other listed sale is untouched |
| Passes.PassIsARun | frontend/src/sync/syncEngine.ts:121-177 | a pass that holds the lock does to the till what a run of the browser does: begin, requeue, list, one answer for each sale of an answered batch, finish |
| Passes.PassIsSafe | frontend/src/sync/syncEngine.ts:121-177 | so a pass of the engine keeps the index right and every synchronised sale as it is, whatever the server answers |
| Agreement.TillSaleSettlesIff | backend/apps/sales/services.py:214-266 | a sale the till accepts passes the server's zero-tolerance rule if and only if its line gaps add up to zero |
| Agreement.LinesTotalItems | backend/apps/sales/services.py:320-383 | the server's total of lines in identifier order is the total of the items as scanned |
| Agreement.WholeUnitSalesSettle | frontend/src/utils/quantity.ts:36-41 | sales by the unit always agree |
| Agreement.WeighedGoodsMayNotSettle | frontend/src/utils/quantity.ts:36-41 | a concrete weighed line on which till and server differ by 50 cents |
| Shop.WeighedSaleRefused | backend/apps/sales/services.py:214-266 | from an empty shop, the server answers a weighed credit sale of the till with success if its rounding agrees and with "invalid sale" if it does not |
| Shop.SomeWeights | frontend/src/utils/quantity.ts:36-41 | a kilo at 500 FCFA agrees, a kilo and a half at 333 FCFA does not |
| Rounding.LineAgreement | frontend/src/utils/quantity.ts:36-41 | line totals agree exactly when price × thousandths mod 1000 is below 5 or at least 995, and never differ by more than 50 cents |
| Rounding.HalfUpError | backend/apps/sales/services.py:90-91 | rounding moves a value by at most half a step |
| Debt.PendingCreditByCustomer | frontend/src/db/sales.ts:404-417 | for every customer of the store, the credit of the unsynced sales |
| Debt.BookSavedWhole | frontend/src/db/customers.ts:42-63 | a saved book leaves the customers of the book at their balances, to half an FCFA, and no others |
| Debt.PaymentWrittenBack | frontend/src/db/customers.ts:168-178 | a repayment is written back to a cached customer only |
| Debt.MarkingKeepsDisplayed | frontend/src/db/sales.ts:291-301 | the debt shown does not move when a sale is marked synced |
| Debt.BookingExcess | backend/apps/sales/services.py:435-444 | when the server books a sale of this till, shown debt minus real debt is unchanged; a sale booked for the customer from elsewhere is a debt not shown |
| Debt.MarkingKeepsExcess | frontend/src/db/sales.ts:282-335 | nor when it is marked afterwards |
| Debt.CreatingKeepsExcess | frontend/src/db/sales.ts:122-217 | nor when it is created |
| Debt.CancellingExcess | frontend/src/db/sales.ts:347-383 | cancelling on the till hides exactly the credit of a sale the server has booked |
| Debt.RefusingExcess | frontend/src/db/sales.ts:386-396 | a refusal of a synchronised sale counts its credit a second time, any other refusal is neutral |
| Debt.RequeueingExcess | frontend/src/db/sales.ts:419-434 | requeueing conflicts is neutral |
| DebtRuns.ExcessInEveryRun | frontend/src/db/sales.ts:398-417 | over every run of tills, network, server and customer books, shown debt minus real debt is what the named moves left: services on the balance, foreign bookings, cancellations of booked sales, late refusals, balances saved |
| DebtRuns.UndisturbedRun | frontend/src/db/sales.ts:282-335 | in every run without those moves, whatever is recorded, pushed, booked, lost, repeated, marked or requeued, it does not change |
| Debt.SavedLate | frontend/src/features/customers/queries.ts:30-36 | a balance read in one state and put in the cache in a later one: the exact difference with the real debt |
| DebtRuns.SavedLater | frontend/src/features/customers/queries.ts:30-36 | a book downloaded, then saved after any run, shows in excess the credit booked before the download and unsynchronised at the save, less the credit booked after the download and marked before the save, less what else changed the balance, plus its rounding |
| DebtRuns.SavedLaterIsRightIff | frontend/src/db/customers.ts:42-63 | with whole balances and nothing else changing them, the debt is shown right if and only if those two credits are equal |
| StaleBooks.DebtShownTwice | frontend/src/features/customers/queries.ts:30-47 | a run from an empty shop in which a debt is shown twice: booked, then downloaded and saved before its answer |
| StaleBooks.DebtNotShown | frontend/src/features/customers/queries.ts:30-47 | a run in which a debt is not shown: downloaded, then booked and marked, then saved |
| Histories.LedgerInEveryHistory | backend/apps/customers/services.py:30-35 | in every history balances are nonnegative sums of standing entries, nothing is reversed twice, repayment snapshots are sound |
| Customers.BalanceIsStanding | backend/apps/customers/services.py:277-309 | a balance is the sum of entries neither reversals nor reversed |
| Customers.ReverseKeepsLedger | backend/apps/customers/services.py:277-309 | a reversal keeps the ledger sound |
| Histories.OpeningInEveryHistory | backend/apps/customers/services.py:205-242 | in every history a customer has one opening balance at most |
| Rules.OpeningBalanceIff | backend/apps/customers/services.py:205-242 | it is accepted if and only if it is positive and the first, and is then owed |
| Rules.AdjustsIff | backend/apps/customers/services.py:245-274 | an adjustment is accepted if and only if it has an amount and a reason and leaves no negative balance; it moves that balance only |
| Rules.ReversesIff | backend/apps/customers/services.py:277-309 | an entry is reversed if and only if it is no reversal, not reversed, a reason is given and the balance covers it; it then counts for nothing |
| Customers.RepaymentSnapshot | backend/apps/customers/services.py:405-426 | a new repayment photographs the balance before and after, never below zero |
| Rules.RepaysIff | backend/apps/customers/services.py:350-414 | a new repayment is accepted if and only if it is made in the open session of its author, by a customer of the store, up to what he owes, with enough cash or none in hand |
| Rules.RepaymentKeyAnswers | backend/apps/customers/services.py:312-327 | a used key answers the request it was used for and refuses any other |
| Histories.StockInEveryHistory | backend/apps/inventory/services.py:137-150 | in every history each stock quantity is the sum of its movements |
| Histories.AverageCostInEveryHistory | backend/apps/inventory/services.py:63-96 | in every history the average and all frozen costs lie between the least and greatest cost received or set |
| Histories.KnownCostStaysKnown | backend/apps/inventory/services.py:63-85 | a known average cost never becomes unknown |
| Histories.RowIsItsJournal | backend/apps/inventory/services.py:63-150 | over any history in which nobody sets its cost by hand, a stock row, quantity and average cost, is the former row carried through the movements journalled since |
| Inventory.ValuationDrift | backend/apps/inventory/services.py:78-85 | through any journal the valuation moves by the worth of what came in and went out, within half a quantum per unit held at each rounding |
| Histories.ValuationInEveryHistory | backend/apps/inventory/services.py:63-96 | the same over every history of the services |
| Inventory.TakeAndGiveBack | backend/apps/sales/services.py:660-670 | giving units back at the cost they left at restores quantity and average exactly, even from zero or below |
| Inventory.ReceiptsIff | backend/apps/inventory/services.py:112-150 | a receipt is accepted if and only if product, quantity and cost are valid; its units are added and no other stock moves |
| Inventory.CostOfReceipt | backend/apps/inventory/services.py:63-85 | into an empty stock goods come in at the cost typed, else at the last purchase price unless that is zero |
| Inventory.TypedCostIsRemembered | backend/apps/inventory/services.py:152-160 | a cost typed once is that of the next lot that comes without one |
| Inventory.CountsIff | backend/apps/inventory/services.py:171-207 | a count sets the quantity and leaves the average and every other stock |
| Inventory.CorrectionsIff | backend/apps/inventory/services.py:211-251 | a cost correction needs a stock, a positive cost and a reason to replace another; it is audited unless it changes nothing |
| Inventory.PostAllWithin | backend/apps/inventory/services.py:63-96 | inbound goods within cost bounds keep the average within them |
| Sales.AggregateItems | backend/apps/sales/services.py:94-162 | quantities added by product with the first item's terms, refused exactly when some item is unacceptable or two disagree |
| Sales.ValidatePayments | backend/apps/sales/services.py:214-266 | accepted exactly when legs and credit settle the total |
| Sales.ExecuteSale | backend/apps/sales/services.py:299-466 | the database after the sale, or the first refusal and no change |
| Sales.Complete | backend/apps/sales/services.py:470-598 | online and replayed completion, session rule included |
| Sales.StockAfterSale | backend/apps/sales/services.py:342-368 | each product loses exactly its line; online nothing goes below zero; offline the discrepancy is reported exactly when something does |
| SaleRules.BookedIff | backend/apps/sales/services.py:299-598 | online or replayed, a sale is booked if and only if its items, session, customer and money fit, its identifier is new and, online, the stock covers it |
| SaleRules.BookedRow | backend/apps/sales/services.py:299-466 | the booked sale carries the terms of the request, one row for each product at its frozen cost, one payment for each leg, the total of its products |
| SaleRules.LineAt | backend/apps/sales/services.py:94-162 | each line is that of one product, in identifier order: all that is asked of it, at its price, catalogue price and name |
| SaleRules.StockAfterBooking | backend/apps/sales/services.py:404-433 | each stock of the store gives all that is asked of its product and keeps its average; no other moves |
| SaleRules.JournalAfterBooking | backend/apps/sales/services.py:446-466 | the journal gains one outgoing movement for each row, at its frozen cost |
| Sales.CancelSale | backend/apps/sales/services.py:602-689 | stock back at frozen costs, credit reversed, or its refusal |
| Sales.CancelUndoesSale | backend/apps/sales/services.py:657-670 | a sale cancelled at once leaves every quantity and average cost as before it |
| CreditSales.CancelsIff | backend/apps/sales/services.py:602-655 | a sale is cancelled if and only if it stands without returns, the user is staff or the cashier of its open session, and its debt, if any, stands whole in the book |
| CreditSales.CancellingErasesTheDebt | backend/apps/sales/services.py:639-655 | a cancellation lowers the balance of the sale's customer by its credit, and no other, and its debt no longer stands |
| CreditSales.SellingOwes | backend/apps/sales/services.py:435-444 | a sale raises the balance of its customer by its credit, and no other |
| CreditSales.SaleThenCancellation | backend/apps/sales/services.py:602-689 | a sale can be cancelled at once by whoever may cancel in its session, and every balance is as before |
| CreditSales.DrawersComeBack | backend/apps/sales/services.py:602-689 | and so is every drawer |
| Returns.CreateSaleReturn | backend/apps/sales/services.py:717-854 | the return, its restocking and ledger entry, its replay, or its refusal |
| Returns.CheckLines | backend/apps/sales/services.py:758-790 | lines accepted exactly when distinct and returnable, priced at the sale's price |
| Returns.RefundDrift | backend/apps/sales/services.py:780-790 | refunds of a line stay within half a cent per return line of its exact price |
| Returns.LinesAreReturns | backend/apps/sales/services.py:758-775 | return lines and returns count the same, a return naming a line at most once |
| Returns.WholeUnitRefunds | backend/apps/sales/services.py:780-790 | whole-unit refunds are exact |
| DebtFirst.ReturnsIff | backend/apps/sales/services.py:717-828 | a new return is accepted if and only if its goods are still out, in the open session of its author and the store of the sale, and the money left after the debt can be given back; one the debt covers needs no method |
| DebtFirst.DebtErasedFirst | backend/apps/sales/services.py:792-801 | the credit erased is the least of the total, what is left of the credit of the sale, and what its customer owes |
| DebtFirst.BalanceAfterReturn | backend/apps/sales/services.py:825-829 | the balance of the sale's customer falls by exactly that, and no other |
| DebtFirst.MoneyLast | backend/apps/sales/services.py:800-807 | money is given back, by the method asked for, only once the credit is used up or nothing is owed |
| DebtFirst.DrawerAfterReturn | backend/apps/sales/services.py:808-818 | the drawer of the session gives the rest if it is given in cash, and no other drawer moves |
| DebtFirst.StockAfterReturn | backend/apps/sales/services.py:836-858 | stock grows by the lines to restock and by nothing else |
| Histories.ReturnsInEveryHistory | backend/apps/sales/services.py:758-833 | over all returns of a sale: no line over-returned, credit erased within credit granted, refunds within half a cent per return naming the line, and exact when the quantities returned are whole |
| Histories.EffectsOnceInEveryHistory | backend/apps/sales/services.py:404-466 | a sale identifier names one sale and its effects are journalled exactly once, even after cancellation |
| CashDesk.SessionIdentity | backend/apps/cash/services.py:173-200 | net sales of a session are net money by method plus net credit |
| CashDesk.DashboardIdentity | backend/apps/dashboard/services.py:362-399 | the same for any dashboard period and store |
| Tender.SaleTotals | backend/apps/cash/services.py:168-239 | a sale adds each leg to the total of its own method in its session, its credit to the credit, and nothing elsewhere |
| Tender.CancellationTotals | backend/apps/cash/services.py:168-239 | a cancellation takes all of it out again |
| Tender.ReturnTotals | backend/apps/cash/services.py:168-239 | a return gives its money back from the session it is made in, by the method asked for, the rest being credit |
| Tender.RepaymentTotals | backend/apps/customers/services.py:416-431 | a repayment goes to the method it was made by, in its session, and nowhere else |
| Tender.RepaymentDrawer | backend/apps/customers/services.py:416-431 | the drawer gains it exactly when it is made in cash; received amount and change are recorded |
| Tender.RepaymentBalance | backend/apps/customers/services.py:405-431 | its customer owes that much less, and no one else |
| Tender.ExpenseTotals | backend/apps/expenses/services.py:82-172 | an expense goes to the method it is paid by, in its session, and nowhere else |
| Tender.ExpenseCancelledTotals | backend/apps/expenses/services.py:176-211 | a cancelled expense comes out of the total it was in |
| Tender.OpeningTotals | backend/apps/cash/services.py:33-91 | a session opens with its float in the drawer, for its cashier, on its register, in its store |
| Dashboards.PeriodsAddUp | backend/apps/dashboard/services.py:362-399 | the figures of adjacent periods add up |
| Dashboards.DashboardAfterSale | backend/apps/dashboard/services.py:362-399 | a sale counts in the period it was made in, for its store and for all, each leg under its own method |
| Dashboards.DashboardAfterReturn | backend/apps/dashboard/services.py:362-399 | a return counts in the period it is made in, for the store it is made in |
| Rules.OpensIff | backend/apps/cash/services.py:33-91 | a session opens if and only if the float is not negative, its register is active, free and open to the cashier, and its identifier new |
| Rules.ClosesIff | backend/apps/cash/services.py:275-325 | an open session closes on a count, storing it with what was expected, the difference and the instant; nothing else changes |
| Histories.AccountsInEveryHistory | backend/apps/dashboard/services.py:362-399 | both identities in every history |
| Histories.DrawerMoves | backend/apps/cash/services.py:144-165 | how much each step puts into or takes from a drawer |
| Histories.DrawersInEveryHistory | backend/apps/expenses/services.py:150-157 | without cancellations no drawer is ever expected below zero |
| Histories.CancellationAndDrawer | backend/apps/sales/services.py:602-689 | a cancellation lowers its session's drawer by its cash legs, negative exactly when the drawer held less |
| Shop.CancellationCanOverdraw | backend/apps/sales/services.py:602-689 | a history from the empty database after which a staff cancellation leaves the drawer negative by a whole sale |
| Histories.AfterClosing | backend/apps/sales/services.py:562-567 | after closing, only a late offline sale or a staff cancellation changes the totals, and the stored closing never changes |
| Histories.ReturnReplay | backend/apps/sales/services.py:698-747 | the key of a return replayed after anything gives back the original row and changes nothing |
| Histories.RepaymentReplay | backend/apps/customers/services.py:312-327 | the same for a repayment |
| Histories.ExpenseReplay | backend/apps/expenses/services.py:57-78 | the same for an expense, cancelled since or not |
| Rules.ReturnKeyAnswers | backend/apps/sales/services.py:698-714 | a used return key answers the request it was used for and refuses any other |
| Rules.ExpenseKeyAnswers | backend/apps/expenses/services.py:57-78 | the same for an expense |
| Rules.SpendsIff | backend/apps/expenses/services.py:82-172 | a new expense is accepted if and only if it is positive, in the open session of its author, in an active category, described if need be, and covered by the drawer if in cash |
| Rules.UnspendsIff | backend/apps/expenses/services.py:176-211 | an expense is cancelled if and only if a reason is given, by its author or staff, once, while its session is open |
| Histories.KeysInEveryHistory | backend/apps/expenses/services.py:108-131 | in every history each key names at most one row |
| Services.StepApplies | backend/apps/sales/services.py:299-466 | every service does one of fourteen named effects and nothing else, sales being booked and undone only by those who may |
| Services.ReferenceStays | backend/apps/inventory/services.py:152-166 | no service but administration changes customers, categories, registers, access or products, save the last purchase price of a product received |
| Invariants.RunKeeps | backend/apps/customers/services.py:85-90 | every history keeps the whole server invariant |
| Carts.OneActiveInEveryRun | frontend/src/db/carts.ts:47-155 | every run keeps at most one active cart per session |
| Carts.NothingDiscarded | frontend/src/db/carts.ts:100-143 | no move but typing changes a non-empty active cart: it stays active or on hold with its items |
| Carts.SameCartIff | frontend/src/db/carts.ts:63-155 | one move keeps a non-empty cart, active or on hold, if and only if it does not type into it, take it back from hold or delete it there |
| Carts.StaysThroughoutIff | frontend/src/db/carts.ts:47-155 | over every run with fresh identifiers a non-empty cart stays with its items throughout if and only if no move of the run touches it |
| Carts.HoldThenResume | frontend/src/db/carts.ts:100-143 | holding then resuming with the same items gives the cart back and touches no other |
| Carts.FillingAfterSave | frontend/src/db/carts.ts:63-73 | what is typed is what the session then has |
| Carts.FillingAfterHold | frontend/src/db/carts.ts:100-112 | an empty cart takes the place of the one put on hold |
| Carts.FillingAfterResume | frontend/src/db/carts.ts:120-143 | a cart taken back brings the items it is taken back with |
| Carts.FillingAfterDelete | frontend/src/db/carts.ts:145-155 | deleting a held cart leaves the one being filled |
| Carts.AdoptedOnce | frontend/src/db/carts.ts:47-61 | a cart of the former storage is adopted once, whatever follows |
| Quantity.BackendRoundTrip | frontend/src/utils/quantity.ts:3-23 | a transmitted quantity reads back as itself |
| Quantity.DisplayRoundTrip | frontend/src/utils/quantity.ts:3-29 | so does a displayed one, comma and dropped zeros included |
| Quantity.RefusesLongFractions | frontend/src/utils/quantity.ts:3-9 | more than three digits after the separator are refused |
| Quantity.ReadsStockIff | frontend/src/utils/quantity.ts:11-17 | a stock level is read back if and only if it is not negative |
| Money.FormattedReadsBack | frontend/src/utils/money.ts:30-47 | whatever is typed, what is shown reads as the number its digits denote, up to the greatest amount |
| Money.FormattingKeepsAmounts | frontend/src/utils/money.ts:30-47 | formatting keeps every amount that parses |
| Money.FormattingIsIdempotent | frontend/src/utils/money.ts:44-47 | grouping twice is grouping once |
| Money.ShownInGroups | frontend/src/utils/money.ts:44-47 | what is shown has no useless zero in front, and a space before every third digit from the right only |
| Money.BackendMoneyIsCents | frontend/src/utils/money.ts:49-51 | a transmitted amount is a hundred times as many cents |
| Pull.DeliversAllIff | backend/apps/sync/services.py:231-271 | following the cursor delivers every changed product once and in order if and only if no group of equal instants is cut by a page |
| Pull.NeverTwice | backend/apps/sync/services.py:246-269 | nothing is delivered twice or without having changed |
| Pull.SecondRound | backend/apps/sync/services.py:231-271 | a second round over a catalogue changed since delivers the changed rows and nothing else, as long as no page cuts a group |
| Pull.PageOfAThousand | backend/apps/sync/services.py:231-271 | a page has a thousand rows at most, and fewer only if nothing more has changed |
| Pull.BulkUpdateSkips | backend/apps/sync/services.py:266-269 | a concrete catalogue whose last product is never delivered |

## Left out

- Protocol.CancelledBeforeSending: says nothing of sales whose event was sent; that case is CancelledIsHeldIff.
- Browser.RunsAreSafe: asks that passes renew in time and carts hold each product once in positive quantity; SyncedForEverIff and CreateKeepsIndexIffDistinct say when it holds without.
- SyncRuns.Engine.SyncPendingSales: callers that share a pass in flight get the same promise; here they get no outcome.
- SaleRules.ReplayAnswer: does not say which answer comes first when a request has both an unknown product and a fraction of a unit.
- TillStock.WithinInEveryRun: holds between refreshes; a refresh brings new levels, which other tills may have drawn on.
- Passes.PassIsARun: takes the pass alone, with no other tab acting in between; RunsAreSafe covers every interleaving.
- Counters.CautiousInEveryRun: asks for carts of positive quantities; StaleCounterKept shows what a negative line does.
- Inventory.ValuationDrift: asks that goods coming in at a known cost find stock above zero, where the average is weighted; elsewhere the incoming cost replaces it.
- DebtRuns.ExcessInEveryRun: follows a customer who stays in the books of the store, on a till whose sales are made in sessions of their store.
- DebtRuns.SavedLaterIsRightIff: asks for a balance in whole FCFA that nothing but the till's own sales changes; SavedLater is the exact difference in every case.
- Catalogue.SaveProductCatalog: leaves out the metadata row with the number of products and the time of the refresh.
- Services.StepApplies: says nothing of products, customers, categories, registers and access; ReferenceStays does.
- Views, serializers, pages and permissions: only what they guarantee to the services is used, and store access is one set of pairs.
- Type checks on service arguments, and the document reference a category may require of an expense.
- Row locks and their order, deadlocks, Dexie and PostgreSQL internals: a transaction is one step and unique keys are guards.
- The Web Lock branch of the inter-tab lock: the browser serialises the passes itself.
- Decimal precision limits and JavaScript floats: integers are exact, and the safe-integer limit appears only in the quantity reader.
- Identifier generation: new identifiers are assumed fresh.
- Credit entries carry no date, and returns, repayments and expenses are identified by their idempotency key.
- Customer names, receipt texts, analytics, CSV files, migrations, stock valuation reports and dashboard alerts.
