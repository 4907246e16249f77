# Water depot orders and delivery trips — a Dafny model

This project models the decision-making core of a water-depot ordering app. Sales staff use it to take orders for refill and gallon products. Operators group the orders into delivery trips. Finance records payments.

The model covers:

- **Trip assignment.** Two boards are modelled:
  - the shared, persisted trip board of the operator's Trips page (`TripsPage.SharedTripBoard`);
  - the older per-branch, in-memory board of the operator module (`OperatorModule.BranchTripBoard`).

  For each board the model states how an order is assigned, removed, reordered and completed, and what that does to the trip's roster (its ordered list of order ids) and to the orders' delivery status.
- **Order pricing and the sales order form** (`Pricing`, `OrderPage`): line discounts, totals, the customer search, customer creation, and the ordered writes of creating or editing an order.
- **Payments** (`Payments`, `PaymentPage`, `Finance`): the mark-paid update record, the receivable, the paid/unpaid summary, and the evidence guard of the finance screen.
- **Status views** (`OperatorOrdersPage`, `DeliveryPage`): branch scoping, status groups, filters, counts and icons.

How the store and UI are represented:

- **Store writes.** Every store write the source performs is a separate step. Whether it succeeded is a boolean parameter, and later steps depend on it exactly as the source's `if (error) return` chains do.
- **Loop writes.** Where the source writes in a loop and ignores individual failures, the failing order ids are a set parameter.
- **Store state.** The `orders` and `trips` tables are sequence-valued fields of the page classes. A reload after a write is modelled as the table the write leaves behind.
- **Inputs from the environment.** Dates ("today") and the confirmation dialog's answer are parameters. Uploaded evidence is an opaque optional string.

Statuses:

- Order status and payment status are kept as strings, because the pages compare them with string literals and some filters pass an arbitrary status through. The constants are `"pending"`, `"scheduled"`, `"delivered"`, `"paid"` and `"unpaid"`.
- A trip's status is the closed type `TripPending | InProgress | Completed`.

One consequence is proved in `DeliveryPage.DeliveredWritesShowDate`. The shared board's completion writes `delivered` without a `delivered_date`. So the sales delivery view's "Delivered on" line appears for such an order only if an earlier write had dated it. The per-branch board's completion always dates its writes.

## Model

| member | source | states |
|---|---|---|
| Trips.TripName | src/components/operator/TripsPage.js:48-50 | Definition of the auto-numbered name "Trip n"; `TripNamesDistinct` proves it injective |
| Trips.TripNamesDistinct | src/components/operator/TripsPage.js:48-50 | Auto-numbered trip names "Trip n" differ whenever the numbers differ |
| Trips.FindTrip | src/components/operator/TripsPage.js:96 | Trip lookup by id returns the first trip with that id, and nothing exactly when no trip has it |
| Trips.UnassignedMembership | src/components/OperatorModule.js:184-189 | An order is unassigned iff it is listed, pending and in no trip's roster |
| Trips.RemoveFromRoster | src/components/operator/TripsPage.js:127 | Definition of `order_ids.filter(id => id !== orderId)`; `RemoveFromRosterSpec` states what it keeps |
| Trips.RemoveFromRosterSpec | src/components/operator/TripsPage.js:127 | Removing an id deletes all its occurrences, keeps every occurrence of every other id in relative order, and changes nothing when absent |
| Trips.ExclusiveAfterAppend | src/components/operator/TripsPage.js:102 | Appending an id held by no roster keeps every id in at most one roster, at most once |
| Trips.ExclusiveAfterShrink | src/components/operator/TripsPage.js:170-180 | Replacing a roster by a duplicate-free selection of its own ids keeps the assignment exclusive |
| Trips.ExclusiveAfterRemove | src/components/operator/TripsPage.js:127-132 | Removing an id from one roster keeps the assignment exclusive |
| TripsPage.UnassignedForBranch | src/components/operator/TripsPage.js:72-79 | Definition of the unassigned list over the caller's scope; `UnassignedForBranchMembership` gives its membership |
| TripsPage.UnassignedForBranchMembership | src/components/operator/TripsPage.js:72-79 | Unassigned = caller-scope orders (all for "All", else same branch) that are pending and in no trip's roster |
| TripsPage.UnassignedIsSubsequence | src/components/operator/TripsPage.js:72-79 | The unassigned list keeps the order of the scoped order list |
| TripsPage.TripOrders | src/components/operator/TripsPage.js:81-84 | Definition of a trip's order list, [] for an empty roster; `TripOrdersMembership` gives its membership |
| TripsPage.TripOrdersMembership | src/components/operator/TripsPage.js:81-84 | A trip's order list holds exactly the caller-scope orders whose id is in the roster |
| TripsPage.MyOrdersCount | src/components/operator/TripsPage.js:86-89 | Definition of the tab count, 0 for an empty roster; `MyOrdersCountSpec` ties it to the order list |
| TripsPage.MyOrdersCountSpec | src/components/operator/TripsPage.js:86-89 | The tab count equals the length of the trip's order list and the number of scoped orders in the roster, and is 0 for an empty roster |
| TripsPage.AssignFromUnassignedKeepsExclusive | src/components/operator/TripsPage.js:72-102 | Assigning an order taken from the unassigned list keeps the assignment exclusive |
| TripsPage.CompletionRemainder | src/components/operator/TripsPage.js:170-172 | The roster left by a completion holds no completed id, keeps every occurrence of every other id, and keeps their order |
| TripsPage.CompletionKeepsExclusive | src/components/operator/TripsPage.js:170-180 | Completing a trip keeps the assignment exclusive |
| TripsPage.DeleteRemovesOnlyThatTrip | src/components/operator/TripsPage.js:206 | Deleting a trip makes its id unfindable and keeps every other trip findable |
| TripsPage.SharedTripBoard.constructor | src/components/operator/TripsPage.js:7 | The board holds the loaded shared trips and the order table |
| TripsPage.SharedTripBoard.WriteOrderStatus | src/components/operator/TripsPage.js:114-117 | One order status write changes that row's status only, and only on success |
| TripsPage.SharedTripBoard.CreateTrip | src/components/operator/TripsPage.js:47-70 | A successful insert appends one trip named "Trip n+1" with today's date, empty roster, status pending and branch "Shared"; a failed insert changes nothing |
| TripsPage.SharedTripBoard.AddOrderToTrip | src/components/operator/TripsPage.js:91-121 | Unknown trip: nothing changes. Otherwise the roster gets the id appended and the status becomes in-progress; the order becomes scheduled only after the trip write succeeded |
| TripsPage.SharedTripBoard.RemoveOrderFromTrip | src/components/operator/TripsPage.js:123-144 | The roster loses every occurrence of the id and keeps its status; the order becomes pending only after the trip write succeeded |
| TripsPage.SharedTripBoard.WriteDelivered | src/components/operator/TripsPage.js:163-168 | Each of the trip's scoped orders is set delivered (no delivered date), except those whose write failed |
| TripsPage.SharedTripBoard.CompleteTrip | src/components/operator/TripsPage.js:146-185 | No scoped orders: nothing changes. A declined confirmation: nothing changes. Otherwise those orders become delivered, the roster becomes the rest in order, and the status is completed iff the rest is empty, else in-progress |
| TripsPage.SharedTripBoard.UpdateDriver | src/components/operator/TripsPage.js:187-193 | A successful write sets that trip's driver and nothing else |
| TripsPage.SharedTripBoard.DeleteTrip | src/components/operator/TripsPage.js:195-214 | Unknown trip or non-empty roster: refused and the trip stays. Declined or failed: nothing changes. Otherwise exactly that trip is removed |
| OperatorModule.IndexOf | src/components/OperatorModule.js:124 | `indexOf`: the first position of the id, and -1 exactly when it is absent |
| OperatorModule.Reordered | src/components/OperatorModule.js:120-144 | Definition of an up/down move by a neighbour swap; `ReorderedIsPermutation` and `ReorderedPositions` state its effect |
| OperatorModule.ReorderedIsPermutation | src/components/OperatorModule.js:120-144 | A move keeps the roster's length and is a permutation of it |
| OperatorModule.ReorderedPositions | src/components/OperatorModule.js:126-139 | Up swaps with the predecessor and down with the successor; the first cannot move up, the last cannot move down; every other position is unchanged |
| OperatorModule.ReorderedExample | src/components/OperatorModule.js:126-139 | On [A, B, C]: A up and C down are no-ops, and B up gives [B, A, C] |
| OperatorModule.UnassignedOrders | src/components/OperatorModule.js:184-189 | Definition over the flattened rosters of all trips; `UnassignedOrdersSpec` gives its membership |
| OperatorModule.UnassignedOrdersSpec | src/components/OperatorModule.js:184-189 | Pending and in no roster of any trip, visible or not, and equal to the per-trip definition |
| OperatorModule.FilteredTrips | src/components/OperatorModule.js:177-182 | Definition of the visible trips; `FilteredTripsSpec` states them |
| OperatorModule.FilteredTripsSpec | src/components/OperatorModule.js:177-182 | Visible trips are all trips for admins and "All" users, else those of the user's branch, in order |
| OperatorModule.AssignTargets | src/components/OperatorModule.js:490-493 | Definition of the assign menu's trips; `AssignTargetsSpec` states them |
| OperatorModule.AssignTargetsSpec | src/components/OperatorModule.js:492 | The assign menu lists exactly the visible trips that are not completed |
| OperatorModule.BranchTripBoard.constructor | src/components/OperatorModule.js:18-69 | Five trips "Trip 1".."Trip 5", ids 1..5, pending, empty rosters, branch = the user's branch, or "Jakarta" for "All" |
| OperatorModule.BranchTripBoard.UpdateOrderStatus | src/components/OperatorModule.js:72-87 | A successful write sets the status, and a delivered date of today exactly when the status is delivered |
| OperatorModule.BranchTripBoard.AddOrderToTrip | src/components/OperatorModule.js:89-103 | Only the target trip gets the id appended; its status becomes in-progress iff the roster was empty; the order becomes scheduled |
| OperatorModule.BranchTripBoard.RemoveOrderFromTrip | src/components/OperatorModule.js:105-118 | Only the target roster loses the id, its status is kept, and the order becomes pending |
| OperatorModule.BranchTripBoard.ReorderInTrip | src/components/OperatorModule.js:120-144 | The target roster becomes the moved roster, computed by an in-place swap on a copy; other trips and an unknown trip are unchanged |
| OperatorModule.BranchTripBoard.DeliverAll | src/components/OperatorModule.js:161-163 | Every rostered order is set delivered with today's date, except those whose write failed |
| OperatorModule.BranchTripBoard.CompleteTrip | src/components/OperatorModule.js:146-169 | An unknown trip, an empty roster or a declined confirmation changes nothing; otherwise the orders are delivered and dated, and the trip is completed with its roster kept |
| OperatorModule.BranchTripBoard.UpdateTrip | src/components/OperatorModule.js:171-175 | Sets the driver or the date of that trip only |
| Orders.BranchScope | src/components/operator/OrdersPage.js:7-10 | Definition of the caller's scope; `BranchScopeAll` and `BranchScopeMembership` state it |
| Orders.Receivable | src/components/sales/PaymentPage.js:72-74 | Definition: the sum of the unpaid orders' totals; the `Payments` lemmas state how a payment changes it |
| Orders.BranchScopeAll | src/components/operator/OrdersPage.js:7-10 | The "All" scope is the whole order list |
| Orders.BranchScopeMembership | src/components/operator/OrdersPage.js:7-10 | An order is in scope iff listed and the branch is "All" or its own |
| Orders.UpdateStatus | src/components/operator/TripsPage.js:114-117 | A status write by id changes only the matching rows, and only their status and delivered date |
| Orders.UpdateStatusCompose | src/components/operator/TripsPage.js:163-168 | Sequential status writes equal one write over the union of their ids |
| Pricing.LineAmount | src/components/operator/OrdersPage.js:64 | Definition: (unit price - discount, 0 when missing) x quantity; `MissingDiscountCountsAsZero` states the missing case |
| Pricing.Total | src/components/sales/OrderPage.js:210-216 | Definition of `calculateTotalAmount` as the sum of line amounts; `TotalAppend`, `TotalSnoc` and `TotalRemoveAt` state how it changes |
| Pricing.TotalAppend | src/components/sales/OrderPage.js:210-216 | The total of concatenated line lists is the sum of their totals |
| Pricing.TotalSnoc | src/components/sales/OrderPage.js:201 | Appending a line adds exactly its amount |
| Pricing.TotalRemoveAt | src/components/sales/OrderPage.js:205-208 | Removing line i takes exactly its amount off |
| Pricing.RemoveAt | src/components/sales/OrderPage.js:206 | Dropping index i keeps the lines before it and shifts the later ones down; an index out of range changes nothing |
| Pricing.MissingDiscountCountsAsZero | src/components/operator/OrdersPage.js:64 | A line without a discount costs unit price x quantity |
| Pricing.TotalExample | src/components/sales/OrderPage.js:210-216 | 3 refills at 10000 with 2000 discount plus 2 gallons at 5000 total 34000 |
| OrderPage.SearchCustomers | src/components/sales/OrderPage.js:65-79 | Definition of the dropdown filter; `SearchCustomersSpec` states what it suggests |
| OrderPage.SearchCustomersSpec | src/components/sales/OrderPage.js:65-79 | Blank text suggests nobody; otherwise a customer is suggested iff the lowercased name or address, or the whatsapp, contains the lowercased text, in list order |
| OrderPage.NewCustomerBranch | src/components/sales/OrderPage.js:136-139 | The user's own branch, unless "All"; then the order branch, else the first branch; never "All" when neither input is |
| OrderPage.FindCustomer | src/components/sales/OrderPage.js:185 | A listed customer with that id, and none exactly when no customer has it |
| OrderPage.FindProduct | src/components/sales/OrderPage.js:184 | A listed product with that name, and none exactly when no product has it |
| OrderPage.LineDiscount | src/components/sales/OrderPage.js:192-199 | Definition: the customer's discount on a refill, else 0 |
| OrderPage.OrderLine | src/components/sales/OrderPage.js:192-199 | Definition of the line `handleAddItemToOrder` builds; `OrderLineAmount` states its amount |
| OrderPage.OrderLineAmount | src/components/sales/OrderPage.js:192-199 | A refill line costs (price - customer discount) x quantity, any other line price x quantity; only refills carry a non-zero discount |
| OrderPage.CleanItems | src/components/sales/OrderPage.js:336-342 | Definition of the field-for-field copy of the lines; `EditKeepsTotal` shows it is the identity |
| OrderPage.EditKeepsTotal | src/components/sales/OrderPage.js:336-342 | Lines copied into the form for editing equal the stored ones, so the recomputed total equals the stored total |
| OrderPage.CreatedRowSpec | src/components/sales/OrderPage.js:286-308 | Creating appends one row that holds exactly the form's lines, with total = Total(lines) |
| OrderPage.EditedRowSpec | src/components/sales/OrderPage.js:249-275 | Update, delete and insert leave the edited row with exactly the form's lines and a matching total; other rows are untouched |
| OrderPage.CreateKeepsUniqueIds | src/components/sales/OrderPage.js:286-308 | Creating with a fresh id keeps order ids unique |
| OrderPage.MyOrders | src/components/sales/OrderPage.js:388 | Definition of "My Orders"; `MyOrdersSpec` gives its membership |
| OrderPage.MyOrdersSpec | src/components/sales/OrderPage.js:388 | "My Orders" holds exactly the orders the user created, in order |
| OrderPage.OrderForm.constructor | src/components/sales/OrderPage.js:15-37 | The page starts with a blank form over the loaded tables |
| OrderPage.OrderForm.TypeSearch | src/components/sales/OrderPage.js:82-95 | Typing sets the search text and drops a selected customer; blank text suggests nobody, and every suggestion is a listed customer |
| OrderPage.OrderForm.SelectCustomer | src/components/sales/OrderPage.js:98-107 | Picking selects the customer and takes the customer's branch when it has one |
| OrderPage.OrderForm.AddCustomer | src/components/sales/OrderPage.js:124-171 | Missing name, address or whatsapp: refused. A failed insert: nothing changes. Otherwise one customer is appended (unparsable discount = 0, branch per `NewCustomerBranch`) and selected |
| OrderPage.OrderForm.AddItem | src/components/sales/OrderPage.js:173-203 | A missing field, no customer, or an unknown product or customer: refused with the lines unchanged. Otherwise exactly one line is appended, with the refill discount rule |
| OrderPage.OrderForm.RemoveItem | src/components/sales/OrderPage.js:205-208 | Exactly line i is dropped, the rest keep their order, and the total falls by its amount |
| OrderPage.OrderForm.Reset | src/components/sales/OrderPage.js:363-377 | The form becomes blank and the tables are kept |
| OrderPage.OrderForm.EditOrder | src/components/sales/OrderPage.js:321-346 | A delivered order is refused with the form unchanged; otherwise the form takes the order's customer, branch, date and a field-for-field copy of its lines |
| OrderPage.OrderForm.CreateOrder | src/components/sales/OrderPage.js:218-319 | Refused without customer, date or line, or with an unknown customer. Branch = chosen branch, else the customer's. Edit: update, delete (failure ignored), insert. Create: insert row, insert lines. A failed write stops with earlier writes kept; success resets the form |
| Payments.WritePayment | src/components/sales/PaymentPage.js:41-44 | The mark-paid write changes only that order's payment status, paid date and evidence; the evidence is replaced only when the record carries some, and kept otherwise |
| Payments.MarkPaidReceivable | src/components/sales/PaymentPage.js:72-74 | After marking order id paid, the receivable is what the other orders owe |
| Payments.MarkPaidLowersReceivable | src/components/FinanceModule.js:11-13 | With a unique id, marking an unpaid order paid lowers the receivable by its amount, and an already paid one leaves it unchanged |
| Payments.ReceivableWithoutOne | src/components/FinanceModule.js:11-13 | Leaving one order out lowers the receivable by its amount if it is unpaid |
| Payments.PaidUnpaidSummary | src/components/sales/PaymentPage.js:360-382 | When every order is paid or unpaid, the two counts sum to the order count and the two sums to the total amount |
| Payments.MarkPaidViews | src/components/FinanceModule.js:211-250 | A paid order offers no pay actions, and shows "paid but not yet delivered" iff it is not delivered |
| PaymentPage.FilteredPayments | src/components/sales/PaymentPage.js:64-70 | Definition of the list filter; `FilteredPaymentsSpec` gives its membership |
| PaymentPage.FilteredPaymentsSpec | src/components/sales/PaymentPage.js:64-70 | Listed iff the lowercased name or address contains the lowercased term and the filter is "all" or the payment status; in list order |
| PaymentPage.FilteredPaymentsEverything | src/components/sales/PaymentPage.js:64-70 | An empty search with the "all" filter lists every order |
| PaymentPage.MarkPaidRecord | src/components/sales/PaymentPage.js:32-39 | The record is paid and dated today, with evidence iff asked for and present |
| PaymentPage.PaymentDesk.constructor | src/components/sales/PaymentPage.js:13-18 | Starts with the loaded orders and a closed, empty dialog |
| PaymentPage.PaymentDesk.Owed | src/components/sales/PaymentPage.js:72-74 | The receivable of the loaded orders; `MarkAsPaid` states how a payment changes it |
| PaymentPage.PaymentDesk.OpenDialog | src/components/sales/PaymentPage.js:305-306 | Opens the dialog for that order |
| PaymentPage.PaymentDesk.UploadEvidence | src/components/sales/PaymentPage.js:20-29 | A chosen file becomes the evidence; no file changes nothing |
| PaymentPage.PaymentDesk.MarkAsPaid | src/components/sales/PaymentPage.js:31-55 | A successful write applies the record, clears the dialog, and leaves owed what the other orders owe; a failure changes nothing |
| Finance.MarkPaidRecord | src/components/FinanceModule.js:16-23 | The record is paid and dated today, with evidence exactly when evidence was passed |
| Finance.FinanceDesk.constructor | src/components/FinanceModule.js:6-9 | Starts with the loaded orders and a closed, empty dialog |
| Finance.FinanceDesk.Owed | src/components/FinanceModule.js:11-13 | The headline receivable; `MarkAsPaid` states how a payment changes it |
| Finance.FinanceDesk.OpenDialog | src/components/FinanceModule.js:220-222 | Opens the dialog for that order |
| Finance.FinanceDesk.UploadEvidence | src/components/FinanceModule.js:41-50 | A chosen file becomes the evidence; no file changes nothing |
| Finance.FinanceDesk.MarkAsPaid | src/components/FinanceModule.js:15-39 | A successful write applies the record to the order (none when no order is selected), clears the dialog, and lowers the headline to what the other orders owe; a failure changes nothing |
| Finance.FinanceDesk.ConfirmPayment | src/components/FinanceModule.js:52-58 | No evidence: refused with nothing written. Otherwise the selected order is marked paid with exactly that evidence; a failed write leaves the dialog and every field as it was |
| OperatorOrdersPage.Groups | src/components/operator/OrdersPage.js:13-15 | Definition of the three status columns; `GroupsSpec` states them |
| OperatorOrdersPage.GroupsSpec | src/components/operator/OrdersPage.js:13-15 | Each column holds exactly the scoped orders of its status, in order; the columns never outnumber the scope, and match it when every status is one of the three |
| DeliveryPage.Shown | src/components/sales/DeliveryPage.js:23-24 | Definition of the filtered list; `ShownSpec` states it |
| DeliveryPage.ShownSpec | src/components/sales/DeliveryPage.js:23-24 | "all" lists every order; any other filter exactly the orders of that status, in order |
| DeliveryPage.ButtonCount | src/components/sales/DeliveryPage.js:53-73 | Definition of a filter button's count; `ButtonCountIsListLength` ties it to the list |
| DeliveryPage.ButtonCountIsListLength | src/components/sales/DeliveryPage.js:53-73 | Each filter button's count equals the length of the list it shows |
| DeliveryPage.StatusIcon | src/components/sales/DeliveryPage.js:17-21 | Definition of the status icon; `StatusIconSpec` states the choice |
| DeliveryPage.StatusIconSpec | src/components/sales/DeliveryPage.js:17-21 | The check-mark icon iff delivered, the truck iff scheduled, the hourglass for every other status |
| DeliveryPage.DeliveredWritesShowDate | src/components/sales/DeliveryPage.js:253 | A dated delivered write always shows "Delivered on"; an undated one shows it iff the order already had a date |

## Left out

- Supabase, authentication, reloading and React rendering are not modelled. A write is its effect on the table plus a success flag. A reload is the table the writes leave. Concurrent edits by other users are not modelled.
- `window.confirm` and `alert` are not modelled: a confirmation is a boolean parameter and an alert is an outcome value. Clock-derived dates, and the today..+7 limits on delivery dates, are parameters or left out. The default delivery date (tomorrow) is not modelled.
- Evidence is left out as a browser file read: `FileReader`/data-URL encoding becomes an opaque optional string.
- Presentation is left out: WhatsApp link encoding, colour maps, navigation, role routing, the Paid-on line and the dropdown open/close state.
- `loadTrips` is not modelled: its ordering by name and its error path; the board starts from the trips it returned. The selected-trip UI state is not modelled.
- TripsPage.SharedTripBoard.CompleteTrip: an unknown trip id is reported as TripNotFound, whereas the source would throw on the missing trip. The page only offers existing trips.
- OperatorModule.BranchTripBoard.ReorderInTrip requires the moved id to be in the target roster. The source's "down" move with `indexOf` = -1 would corrupt the array, and the page never asks for it.
- Trip boards update the trip found by id. The source maps over all trips with that id; the two agree because ids are unique, which `Valid()` keeps.
- Lowercasing covers ASCII letters only, and `trim` covers ASCII whitespace plus no-break space, BOM and the line/paragraph separators. Other Unicode space characters and case mappings are not modelled.
- `parseInt` is modelled as an optional integer supplied by the caller, with no parse of text. This applies to the item quantity (`None` for an empty field) and to the customer discount (`None` when unparsable).
- OrderPage.NewOrderRow: the new order's status "pending" and payment status "unpaid" are the table's defaults. The source does not write them.
- OrderPage.OrderForm.AddItem: the selected product and quantity fields are parameters. Clearing those fields afterwards is not modelled.
- Deleting an order from the sales page is not among the modelled operations. Nor are the admin and customer CRUD forms, or the older duplicate screens `Appnew.js` and `SalesModule.js`. These are flat record writes or copies of the rules modelled here.
- Missing text values are "" (a customer's branch, the form's selections). The source's `||` defaults treat null and "" alike, so the two are not told apart.
- Integers are unbounded: amounts are JavaScript numbers, far below the range where floating-point rounding would matter.
