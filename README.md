# QueueLess order, stock and pickup-token engine in Dafny

QueueLess is a canteen ordering system. Students place orders against a shared
menu with finite stock. Staff move orders through Pending, Preparing, Ready and
Completed. A vendor hands an order over when shown its pickup token. This
project models four parts of it and proves their properties:

- **The server engine** (server/index.js). It covers placing an order,
  deducting stock, the status path, the two redemption paths, simulated
  payments, and the per-user order listing.
  - `Server` (server_spec.dfy) describes each endpoint as a function from the
    three tables (`Db`) and its inputs to a result and the next tables.
  - `Store.Tables` (server_store.dfy) is a class holding the tables as mutable
    maps. Its methods run the handlers' steps with the handlers' loops, and each
    is proved to leave exactly the state the matching `Server` function gives.
  - `ServerProperties` (server_properties.dfy) proves what the engine
    guarantees about those functions.
- **The browser-only ledger** (app.js). `Ledger.Ledger` is a class whose cart,
  menu and orders fields its methods reassign. Pure functions describe each
  handler, and lemmas state their properties.
- **The web client's reducers** (client/src/App.jsx), in `WebClient`. These are
  the cart reducers, the order filters, the stock steppers and Place Order
  enablement, all as pure functions.
- **The mobile client's reducers** (mobile/App.js), in `MobileClient`. These
  are the stock-limited cart, split-expense validation and its reset effect,
  the category chips, and the filtered menu.

`Cart` (cart.dfy) holds the cart line and its total, which the three clients
and the server's order lines share. `Text` (text.dfy) holds `String(n)`,
`padStart`, `split` on one character, and `trim`. `Common` (common.dfy) holds
`Option`, `Result`, `Math.max` and `Array.prototype.filter`.

Modelling choices:

- The caller's identity is an input.
- Ids, pickup tokens and timestamps, which the server draws from
  `crypto.randomUUID` and the clock, are inputs too. Where it matters, the
  preconditions require them to be fresh.
- A transaction that throws rolls back, so every failing server operation
  returns the tables unchanged.

Where the code falls short of a property its own checks aim at, the model
follows the code and proves both what the code does and what it aims at:

- Completed is meant to be final. Both redemption paths answer a completed
  order with "already picked up" (server/index.js:580-582, 619-621), so a
  token works once (`ServerProperties.RedemptionIsSingleUse`). The staff
  status path accepts any of the four statuses, though. An admin can reopen a
  completed order, and completing it again deducts its stock a second time
  (`ServerProperties.ReopenedOrderDeductsAgain`).
- A paid payment is never consumed (`ServerProperties.PaidPaymentAdmitsAgain`).
- The stock endpoint accepts any number, negative ones included
  (`ServerProperties.PatchStockSetsAnyStock`).
- Stock is meant to stay non-negative: `deductStockForOrder` refuses a line
  whose item has less stock than the line asks for (server/index.js:226-227).
  The code breaks this when an order holds two lines for one item. A vendor's
  scan then leaves the stock below zero
  (`ServerProperties.DuplicateLinesRedeemNegative`); see "## Findings". The
  endpoints use the deduction as written. `Server.CompleteOrderChecked` is the
  completion that keeps stock non-negative
  (`ServerProperties.CompleteOrderCheckedNeverNegative`).

## Model

| member | source | states |
|---|---|---|
| Text.OrderNumber | server/index.js:479 | `String(count + 1).padStart(4, "0")` is at least four characters long and all digits |
| Text.OrderNumberValue | server/index.js:479 | the order number read back as a decimal is exactly the order count plus one |
| Text.OrderNumberInjective | server/index.js:479 | different order counts never give the same order number |
| Text.Split | server/index.js:156 | `split(" ")` gives one more piece than there are spaces, and no piece holds a space |
| Text.JoinSplit | server/index.js:156 | joining the pieces of a split with the separator gives back the original header |
| Text.SplitJoin | server/index.js:156 | splitting space-free words joined by spaces gives back the words |
| Text.TrimEmpty | mobile/App.js:305-311 | `splitWith.trim()` is empty exactly when the name holds only white space |
| Cart.TotalAppend | app.js:319-321 | the cart total of two carts put together is the sum of their totals |
| Cart.TotalPush | app.js:319-321 | appending a line adds its price times its quantity to the total |
| Cart.TotalMoveQty | app.js:319-321 | moving one line's quantity by `delta` moves the total by its price times `delta` |
| Common.FindIndex | app.js:336 | `find`/`findIndex`: none exactly when no element passes the test, otherwise the position of the first that does |
| Cart.FindLine | app.js:336 | `cart.find` by item id: none exactly when no line has the id, otherwise the first such line |
| Cart.WithoutEffect | app.js:360-363 | `removeCartItem` (also client/src/App.jsx:260-262): no line for the item remains, every other line does, and the cart keeps one line per item and positive quantities |
| Cart.WithoutCount | app.js:355 | with one line per item, removing an item in the cart shortens it by exactly one line |
| Cart.Bump | client/src/App.jsx:234-236 | the `map` that adds `delta` to the item's lines keeps the length, moves exactly the item's lines by `delta`, and leaves the others as they were |
| Cart.BumpOne | client/src/App.jsx:234-236 | with one line per item, the map changes just the found line |
| Cart.FilterKeepsShape | client/src/App.jsx:256 | filtering a cart keeps one line per item and positive quantities |
| Ledger.FindEntry | app.js:334 | `menu.find` by id: none exactly when no entry has the id, otherwise the first such entry |
| Ledger.Added | app.js:333-348 | `addToCart` grows the cart by at most one line and leaves every other item's line as it was |
| Ledger.Updated | app.js:350-358 | `updateCart` never lengthens the cart and keeps every other item's line |
| Ledger.AddedEffect | app.js:333-348 | `addToCart` does nothing for an id not on the menu. An item already in the cart gains one unit, every other line stays, and the total grows by its price. A new item is appended with one unit at the menu's name and price. The cart keeps its shape |
| Ledger.UpdatedEffect | app.js:350-358 | `updateCart` does nothing for an absent item. Once the quantity reaches zero or less, the item is removed and the cart loses exactly one line. Otherwise the line moves by `delta` and the total by price times `delta`. The cart keeps its shape |
| Ledger.EtaMinutes | app.js:323-331 | `calculateEtaMinutes` is the larger of 5 and the summed preparation time |
| Ledger.MinutesOffMenu | app.js:326-328 | items missing from the menu are charged 5 minutes per unit |
| Ledger.MinutesGrow | app.js:325-330 | adding a line never shortens the estimate |
| Ledger.PaymentLabel | app.js:370-371 | the label is "Simulated payment" exactly for `simulated`, and "Pay on pickup" otherwise |
| Ledger.WithStatus | app.js:433-436 | `updateOrderStatus` keeps every order in its place and gives only the orders with that id the new status, whatever the status |
| Ledger.WithStatusIdempotent | app.js:433-436 | setting a status twice is setting it once, and nothing but the status of an order changes |
| Ledger.ReplaceById | app.js:403-404 | the edit branch of `saveMenuItem` replaces exactly the entries with the item's id and keeps the rest in place |
| Ledger.Saved | app.js:392-407 | an edit keeps the length and a new item adds one entry. Entries with other ids keep their place, and the saved item is on the menu exactly when it is new or its id was already there |
| Ledger.Deleted | app.js:426-427 | `deleteMenuItem` never lengthens the menu, and what remains are menu entries with other ids |
| Ledger.SavedThenFound | app.js:392-407 | after adding a new item it is found at the end. After editing an existing item its id finds the saved item at the same place. Editing an id that is not on the menu changes nothing |
| Ledger.DeletedEffect | app.js:426-427 | after `deleteMenuItem` the id finds nothing, and every other entry remains |
| Ledger.Ledger.AddToCart | app.js:333-348 | the cart becomes what `addToCart` leaves (see `Ledger.AddedEffect`). Menu and orders are unchanged, and the cart keeps its shape |
| Ledger.Ledger.UpdateCart | app.js:350-358 | the in-place `qty += delta` then the filter leaves the cart described by `Ledger.UpdatedEffect`. Nothing else changes |
| Ledger.Ledger.RemoveCartItem | app.js:360-363 | the cart loses exactly the item's lines. Nothing else changes |
| Ledger.Ledger.PlaceOrder | app.js:365-390 | an empty cart changes nothing. Otherwise one Pending order goes first in the list, holding the cart, its total and its ETA. It is numbered from the count of earlier orders, with "Simulated payment" as the label only for `simulated`. The cart is emptied |
| Ledger.Ledger.UpdateOrderStatus | app.js:433-442 | the orders become `WithStatus` of the old orders. Cart and menu are unchanged |
| Ledger.Ledger.SaveMenuItem | app.js:392-413 | an edit replaces in place and a new item (with a drawn id) goes at the end. Cart and orders are unchanged |
| Ledger.Ledger.DeleteMenuItem | app.js:426-431 | the menu loses exactly the entries with that id. Cart and orders are unchanged |
| WebClient.AddToCart | client/src/App.jsx:229-248 | `handleAddToCart` grows the cart by at most one line, a one-unit line for the item, and leaves every other item's line as it was |
| WebClient.UpdateCart | client/src/App.jsx:250-258 | `updateCart` never lengthens the cart, leaves only positive lines, and keeps every positive line of another item |
| WebClient.KeepPositive | client/src/App.jsx:256 | `.filter((entry) => entry.qty > 0)` leaves only positive lines and keeps every one of them, so a cart of positive lines is left as it is |
| WebClient.AddToCartEffect | client/src/App.jsx:229-248 | `handleAddToCart` does nothing for an unavailable or out-of-stock item. Otherwise it bumps the existing line by one or appends a one-unit line, so the cart grows by at most one line and the total by the price. The cart keeps its shape |
| WebClient.UpdateCartPositive | client/src/App.jsx:250-258 | `updateCart` never leaves a line at or below zero and keeps every other positive line |
| WebClient.UpdateCartAbsent | client/src/App.jsx:250-258 | an update for an item not in the cart changes nothing |
| WebClient.UpdateCartMoves | client/src/App.jsx:250-258 | while the item's line stays positive, only that line moves, by `delta`, and the total moves by price times `delta` |
| WebClient.UpdateCartDrops | client/src/App.jsx:250-258 | once the item's line reaches zero, the update is `removeCartItem` for that item and the cart loses one line |
| WebClient.DropsOnlyThatItem | client/src/App.jsx:250-258 | when all of the item's lines reach zero, dropping non-positive lines drops exactly that item |
| WebClient.Payload | client/src/App.jsx:270 | the posted items are the cart's lines, in order, as item id and quantity |
| WebClient.PayloadTotal | client/src/App.jsx:55-58 | when each line's price is still the menu's, the `cartTotal` the client shows equals the total the server computes for the posted items |
| WebClient.OrdersPartition | client/src/App.jsx:60-71 | `activeOrders` and `pastOrders` split the orders by Completed, as a multiset. An order is in exactly one of them. `readyOrders` are the Ready orders among the active ones |
| WebClient.Step | client/src/App.jsx:326 | `Math.max(0, current + delta)` is never negative, and is either `current + delta` or 0 when that sum is negative |
| WebClient.AdjustMenuFormStock | client/src/App.jsx:321-329 | only the form's stock changes. It becomes the field's value (0 when empty) moved by `delta`, floored at zero |
| WebClient.AdjustVendorDraftStock | client/src/App.jsx:525-536 | only that item's draft changes, and only its stock. The stock becomes the draft's value (0 when missing) moved by `delta`, floored at zero |
| WebClient.StepUndo | client/src/App.jsx:321-329 | a step up then the same step down returns a non-negative stock to where it was, and a step down from zero stays at zero |
| WebClient.EnabledPostsCart | client/src/App.jsx:863-868 | when Place Order is enabled, the posted cart is non-empty, so the server never answers "Cart is empty". Online payment is enabled only once paid |
| MobileClient.AddToCart | mobile/App.js:253-283 | `addToCart` grows the cart by at most one line, a one-unit line for the item, and leaves every other item's line as it was |
| MobileClient.AddToCartEffect | mobile/App.js:253-283 | `addToCart` does nothing for an unavailable item or one with stock 0. It adds one unit, to the existing line or as a new line, unless that would pass a positive stock. A cart within a positive stock stays within it. The cart keeps its shape |
| MobileClient.AddExisting | mobile/App.js:266-272 | an allowed add to an existing line bumps just that line and stays within a positive stock |
| MobileClient.AddNew | mobile/App.js:273-281 | an allowed add of a new item appends a one-unit line within a positive stock |
| MobileClient.BumpWithinStock | mobile/App.js:261-271 | bumping a line whose next quantity fits the stock keeps every line of that item within the stock |
| MobileClient.MenuStock | mobile/App.js:287-288 | the stock of the menu item with that id, or none exactly when no menu item has the id |
| MobileClient.SetQty | mobile/App.js:297-299 | the `map` sets exactly the item's lines to the quantity and leaves the others as they were |
| MobileClient.SetQtyKeepsShape | mobile/App.js:297-299 | setting a positive quantity keeps the cart's shape |
| MobileClient.UpdateCartQty | mobile/App.js:285-301 | `updateCartQty` never lengthens the cart, never leaves the item at zero or below, and never above a positive stock |
| MobileClient.UpdateCartQtyEffect | mobile/App.js:285-301 | `updateCartQty` removes the item when its stock is 0 or the quantity is not positive. With a positive stock it sets the item's lines to the smaller of the quantity and the stock and leaves every other line as it was. With no menu item it sets the quantity as asked. The cart keeps its shape |
| MobileClient.SplitCheck | mobile/App.js:303-320 | without a split nothing is refused. An order that passes with a split has an amount in range, and "exceeds total" means the amount is above the total |
| MobileClient.SplitCheckPasses | mobile/App.js:303-320 | with a split, the order goes out exactly when the trimmed name is non-empty and the amount is finite, positive and within the cart total |
| MobileClient.SplitAmountAfter | mobile/App.js:53-63 | without a split the amount is left alone. With one, the field ends blank exactly when the total is zero or less |
| MobileClient.SplitAmountAfterEffect | mobile/App.js:53-63 | after the reset effect, a split amount is within range whenever the total is positive. An in-range amount is left alone, and running the effect again changes nothing. With a total of zero or less the field is blank, which the checks refuse |
| MobileClient.MenuCategories | mobile/App.js:79-88 | the category list starts with 'All' |
| MobileClient.MenuCategoriesExact | mobile/App.js:79-88 | no category is listed twice. The list names exactly 'All' and each item's category, with a missing category read as 'Other' |
| MobileClient.MenuCategoriesOrder | mobile/App.js:79-88 | categories are listed in the order their first items appear on the menu |
| MobileClient.VisibleMenu | mobile/App.js:89-92 | `visibleMenu` never lists more items than the menu, and only menu items |
| MobileClient.VisibleMenuExact | mobile/App.js:89-92 | 'All' shows the whole menu. Any other chip shows exactly the items filed under it, and every listed chip other than 'All' shows at least one item |
| Server.GetAuthToken | server/index.js:153-159 | a token is only ever returned without a space in it |
| Server.RequireRole | server/index.js:173-180 | passes exactly when the caller's role is listed, and otherwise answers Forbidden |
| Server.MapMenuRow | server/index.js:182-184 | `available` reads true exactly when the column is non-zero, and a row holding 0 or 1 is recovered from the item |
| Server.MenuItemRow | server/index.js:182-184 | an item written back with `available ? 1 : 0` reads back through `mapMenuRow` as the same item |
| Server.ParseStatus | server/index.js:536-538 | a status is accepted exactly when the text names one of the four statuses |
| Server.CheckLine | server/index.js:221-228 | one line passes the first pass exactly when its item exists, its quantity is positive, and the stock covers that quantity |
| Server.CheckLines | server/index.js:220-229 | the first pass as written passes exactly when every line passes on its own, and fails with one of its two errors |
| Server.ApplyLines | server/index.js:230-233 | the write pass keeps the menu's keys |
| Server.DeductStock | server/index.js:216-234 | as written, the deduction succeeds exactly when every line passes on its own, keeps the menu's keys, and otherwise fails with one of its two errors |
| Server.CheckLinesAgainst | server/index.js:220-229 | the corrected first pass passes exactly when every line's item exists, its quantity is positive, and the stock covers the whole order's quantity of that item |
| Server.DeductStockChecked | server/index.js:216-234 | the corrected deduction succeeds exactly when each line's item exists, its quantity is positive, and the stock covers the whole order's quantity of that item. It keeps the menu's keys |
| Server.CheckPayment | server/index.js:463-477 | the payment gate passes exactly when the method is not `razorpay_simulated`, or a payment id is given that names a paid payment of the caller for the order's total |
| Server.ValidateEntries | server/index.js:445-462 | the placement loop accepts the entries exactly when each is an available item with a positive quantity within stock. It then holds one snapshot line per entry, in order |
| Server.AdmitOrder | server/index.js:426-477 | an admitted order holds the lines the placement loop validated |
| Server.PlaceOrder | server/index.js:426-531 | placement never changes the menu or the payments. On error nothing changes, and on success exactly one order is added under the drawn id |
| Server.CompleteOrder | server/index.js:545-559 | completion, over the deduction as written, never changes payments. On error nothing changes, and on success only that order's row changes among the orders |
| Server.CompleteOrderChecked | server/index.js:545-559 | the corrected completion never changes payments. On error nothing changes, and on success only that order's row changes among the orders |
| Server.UpdateStatus | server/index.js:533-569 | payments never change. On error nothing changes, and on success the order exists and only its row changes |
| Server.Redeem | server/index.js:571-609 | payments never change, and on error nothing changes |
| Server.OrderWithToken | server/index.js:617 | finds an order holding the token exactly when the token has been issued |
| Server.RedeemByToken | server/index.js:611-644 | payments never change, and on error nothing changes |
| Server.CreatePayment | server/index.js:370-402 | creating a payment under a new id never touches menu or orders, and on error nothing changes |
| Server.ConfirmPayment | server/index.js:404-419 | confirming never touches menu or orders, and on error nothing changes |
| Server.PatchStock | server/index.js:347-360 | a stock edit never touches orders or payments, and on error nothing changes |
| Server.Views | server/index.js:193-213 | one payload per row, in order |
| Server.FetchOrdersForUser | server/index.js:186-213 | the listing is never longer than the table. Staff get every row, anyone else only their own, and the pickup token goes to students and only to them |
| ServerProperties.ApplyLinesEffect | server/index.js:230-233 | the write pass takes from each item exactly the sum of its lines' quantities |
| ServerProperties.DeductStockAllOrNothing | server/index.js:216-234 | as written, `deductStockForOrder` fails exactly when some line fails on its own. Otherwise the keys are kept, each item loses the summed quantity of its lines, and items not in the order are untouched |
| ServerProperties.DeductStockDistinctNonNegative | server/index.js:216-234 | as written, with one line per item, each line's item loses exactly its quantity and stays at or above zero |
| ServerProperties.DuplicateLinesDriveStockNegative | server/index.js:220-233 | as written, two 2-unit lines for any item with a stock of 3 pass the check and leave -1. The corrected deduction refuses them |
| ServerProperties.DeductStockCheckedNeverNegative | server/index.js:216-234 | after the corrected deduction every named item's stock is its old stock less what the whole order asks, and not below zero |
| ServerProperties.DeductStockCheckedAgrees | server/index.js:216-234 | on orders with one line per item, the corrected deduction is exactly the code's |
| ServerProperties.DeductStockCheckedAllOrNothing | server/index.js:216-234 | the corrected deduction fails, changing nothing, exactly when a line's item is missing, its quantity is not positive, or the stock is below the whole order's quantity of it. Otherwise every item loses exactly that quantity, no stock that was non-negative becomes negative, and items not in the order keep their row |
| ServerProperties.CheckLinesPrefixError | server/index.js:220-229 | the first bad line decides the error of the whole first pass as written |
| ServerProperties.SnapshotTotal | server/index.js:454-460 | the total of the snapshot lines is the sum of menu price times quantity over the entries |
| ServerProperties.ValidateEntriesPrefixError | server/index.js:445-453 | the first bad entry decides the placement's error |
| ServerProperties.PlaceOrderSucceedsIff | server/index.js:426-477 | placement succeeds exactly when a student posts a non-empty cart with an accepted payment method (none means pay on pickup), every entry is orderable, and the payment gate passes |
| ServerProperties.PlaceOrderRejects | server/index.js:428-453 | an empty cart, an unknown payment method, a missing item or non-positive quantity, or an unavailable or short item each fail with their own message and change nothing |
| ServerProperties.FirstEntryDecides | server/index.js:445-453 | a failing first entry decides the error whatever follows |
| ServerProperties.PlaceOrderStores | server/index.js:478-523 | a placed order is Pending and numbered count+1 padded to four. It holds one snapshot line per entry, the total of price times quantity, an ETA of max(5, summed preparation time), the drawn token, no redemption time, and the label of its method. It is the only change to the tables |
| ServerProperties.PlaceOrderOnlinePayment | server/index.js:463-477 | an order placed with `razorpay_simulated` names a payment id that belongs to the caller, is paid, and matches the total |
| ServerProperties.PaidPaymentAdmitsAgain | server/index.js:463-477 | a paid payment is not consumed: the same payment admits the same cart again |
| ServerProperties.OnlineMethodWithoutPaymentRejected | server/index.js:463-466 | `razorpay_simulated` without a payment id never places an order. This is what mobile/App.js:325-327 always posts, so the mobile client's orders are refused |
| ServerProperties.InsertOrderKeepsTokensUnique | server/index.js:481-501 | inserting an order with a fresh id and a fresh token keeps tokens unique and issues exactly that token |
| ServerProperties.PlaceOrderKeepsWellFormed | server/index.js:426-531 | placement with fresh drawn values keeps every row under its id and the tokens unique, and issues a token only on success |
| ServerProperties.OrderNumbersDiffer | server/index.js:441-479 | inserting an order changes the number the next order gets |
| ServerProperties.FirstOrderNumber | server/index.js:479 | the first order is number 0001 |
| ServerProperties.UpdateStatusRejects | server/index.js:536-544 | an unknown status, Completed from a vendor, and an unknown id each fail and change nothing |
| ServerProperties.UpdateStatusCompletes | server/index.js:545-559 | moving an order that is not Completed into Completed deducts its stock as written and stamps the redemption time, both or neither |
| ServerProperties.UpdateStatusOnCompletedOrder | server/index.js:545-562 | setting Completed on a Completed order deducts nothing and changes nothing |
| ServerProperties.UpdateStatusOverwrites | server/index.js:560-562 | any other target only overwrites the order's status |
| ServerProperties.ReopenedOrderDeductsAgain | server/index.js:545-562 | a Completed order can be moved back to Pending by an admin, and completing it again deducts its stock a second time, by the deduction as written |
| ServerProperties.RedeemByTokenOutcomes | server/index.js:611-637 | an unknown token is invalid. The order holding the token answers already picked up when Completed and not ready when not Ready. Otherwise it is completed |
| ServerProperties.ReplaceOrderKeepsWellFormed | server/index.js:591-595 | rewriting an order's row without changing its token keeps the tables well formed and the issued tokens the same |
| ServerProperties.CompleteOrderKeepsWellFormed | server/index.js:546-554 | completing an order keeps the tables well formed and issues no token |
| ServerProperties.CompleteOrderCheckedNeverNegative | server/index.js:216-234 | the corrected completion keeps the menu's items and takes no non-negative stock below zero |
| ServerProperties.CompleteOrderCheckedAgrees | server/index.js:545-559 | on an order with one line per item, the corrected completion is exactly the code's |
| ServerProperties.DuplicateLinesRedeemNegative | server/index.js:611-644 | a vendor's scan of a Ready order holding two 2-unit lines of an item with stock 3 completes it and leaves the stock at -1, while the corrected completion refuses it and changes nothing |
| ServerProperties.RedemptionIsSingleUse | server/index.js:616-625 | after a successful redemption the same token answers already picked up, and nothing is deducted again |
| ServerProperties.RedeemByIdMatchesToken | server/index.js:577-589 | redeeming by id with a token other than the order's is refused, and with the order's token it is the same as redeeming by token |
| ServerProperties.CreatePaymentOutcome | server/index.js:370-402 | under a new drawn id, a payment is created exactly for a student and a positive amount, as `created`, in INR, under that id |
| ServerProperties.ConfirmPaymentOutcome | server/index.js:404-419 | confirming fails, changing nothing, exactly when the payment is unknown or not the caller's. Otherwise the payment becomes paid with `paidAt` set and its amount and owner unchanged |
| ServerProperties.CreateConfirmPays | server/index.js:370-419 | create then confirm leaves one paid payment with the amount asked, and the menu untouched |
| ServerProperties.PaidPaymentPasses | server/index.js:463-477 | a paid payment of the caller's that matches the total lets an orderable cart through the online gate |
| ServerProperties.AccessPolicy | server/index.js:173-180 | only students place orders and create or confirm payments, only staff change statuses, only admins complete through the status path, and only vendors redeem |
| ServerProperties.StaffEditsKeepOrderFacts | server/index.js:533-569 | status changes and stock edits never change an order's lines, total, ETA, number or token |
| ServerProperties.RedemptionKeepsOrderFacts | server/index.js:571-644 | redemptions never change an order's lines, total, ETA, number or token |
| ServerProperties.PatchStockSetsAnyStock | server/index.js:347-360 | a stock edit sets any number, a negative one included, and keeps the availability |
| ServerProperties.GetAuthTokenOfBearer | server/index.js:153-159 | a `Bearer <token>` header yields the token |
| ServerProperties.GetAuthTokenShape | server/index.js:153-159 | a returned token is always the second of exactly two space-separated words |
| ServerProperties.FetchOrdersForUserScope | server/index.js:186-213 | staff see every row in order, students see exactly their own rows, and only students get the pickup token |
| ServerProperties.OwnRowsOnly | server/index.js:190 | a student's listing holds their own rows and only those |
| ServerProperties.FlowPlace | server/index.js:426-531 | a student ordering 2 units at price 40 with 8 minutes' preparation gets total 80 and ETA 16, and stock is untouched |
| ServerProperties.FlowEntries | server/index.js:445-462 | the placement loop on that cart gives one snapshot line, total 80 and 16 minutes |
| ServerProperties.FlowReady | server/index.js:560-562 | staff moving that order to Ready change only its status |
| ServerProperties.FlowRedeem | server/index.js:611-644 | redeeming its token completes it and takes the stock from 25 to 23 |
| ServerProperties.FlowSecondScan | server/index.js:619-621 | a second scan of the token answers already picked up and changes nothing |
| Store.Tables.FirstBadLine | server/index.js:220-229 | the check loop, testing each line against the stock as it stands, returns the first pass's verdict as written |
| Store.Tables.DeductStockForOrder | server/index.js:216-234 | the two passes leave exactly the menu of the deduction as written, or change nothing and report its error |
| Store.Tables.SnapshotEntries | server/index.js:445-462 | the placement loop pushes the validated lines and accumulates their total and summed preparation time |
| Store.Tables.PlaceOrder | server/index.js:426-531 | the handler leaves exactly the tables `Server.PlaceOrder` gives, and keeps them well formed |
| Store.Tables.CompleteOrder | server/index.js:546-554 | the completion transaction leaves exactly the tables `Server.CompleteOrder` gives |
| Store.Tables.UpdateStatus | server/index.js:533-569 | the handler leaves exactly the tables `Server.UpdateStatus` gives |
| Store.Tables.Redeem | server/index.js:571-609 | the handler leaves exactly the tables `Server.Redeem` gives |
| Store.Tables.RedeemByToken | server/index.js:611-644 | the handler leaves exactly the tables `Server.RedeemByToken` gives |
| Store.Tables.CreatePayment | server/index.js:370-402 | under a new payment id, the handler leaves exactly the tables `Server.CreatePayment` gives |
| Store.Tables.ConfirmPayment | server/index.js:404-419 | the handler leaves exactly the tables `Server.ConfirmPayment` gives |
| Store.Tables.PatchStock | server/index.js:347-360 | the handler leaves exactly the tables `Server.PatchStock` gives |

## Left out

- Express routing, middleware, `requireAuth`'s session lookup, register and login: the caller is an input `User`, and errors are variants of `Server.Error` rather than HTTP status codes.
- `initDb`, the schema, migrations and seeding: `Store.Tables.constructor` starts from a given menu.
- The `id` column of `order_items`: each order holds its lines directly.
- `crypto.randomUUID` and `new Date()`: ids, tokens and timestamps are inputs. Freshness is a precondition where the token-uniqueness invariant needs it.
- Concurrency and the count-then-insert race on `orderNumber`: requests are handled one at a time over one SQLite handle.
- The menu POST, PUT and DELETE endpoints: only the stock PATCH is modelled, to show that it accepts any stock.
- `Number(...)` coercion: quantities, prices, amounts and stocks are integers. The mobile split amount is a real, and `None` stands for a non-finite one. `Math.round` of an integer sum is the identity, so ETAs are integers.
- A non-array `items` body: the model's entries are always a sequence, so only the empty case is modelled.
- The payment-reset effect of client/src/App.jsx:154-163, `cartQtyMap` and the order filters of mobile/App.js, and the `localStorage`/`AsyncStorage` serialisation: these are presentation state.
- The ledger's `calculateCartTotal` has no member of its own: it is `Cart.Total`, whose properties are `Cart.TotalAppend`, `Cart.TotalPush` and `Cart.TotalMoveQty`.
- The ledger's in-place `existing.qty += 1`: the class reassigns the cart sequence. No other object aliases the cart's lines in app.js except the placed order, which takes the cart just before the cart is replaced.
- Rendering, alerts, QR scanning, polling and `fetch`.
- `ORDER BY createdAt DESC`: `Server.FetchOrdersForUser` takes the rows in the order the query returns them.
- Server.CreatePayment: the drawn payment id must be new. A reused id would make the INSERT into the `id TEXT PRIMARY KEY` column (server/index.js:100-101, 385-397) throw, which `crypto.randomUUID` makes practically impossible.
- Server.AdmitOrder, ServerProperties.PlaceOrderRejects: `paymentLabels` (server/index.js:432-438) is a plain object, so a method named after an `Object.prototype` member such as `constructor`, `toString` or `__proto__` passes the `!paymentLabels[selectedPayment]` guard. Such an order then fails later: at the item loop, or at the INSERT, which cannot bind the inherited function or object as the label (server/index.js:486-500). It is still refused with the tables unchanged, but with a different message. The model answers InvalidPaymentMethod for every name other than the two labelled methods.
- `Server.RedeemByToken`: it is a ghost function, because the SQL lookup by token picks some order holding the token. The well-formedness invariant makes that order unique.

## Findings

| source | as written | input that shows it | evidently intended | confidence | as-written member | corrected member |
|---|---|---|---|---|---|---|
| server/index.js:216-234 | the first pass checks each line's quantity on its own against the current stock, then the second pass subtracts every line in turn; `POST /api/orders` (445-453) also checks each entry on its own, so an order may hold one item on two lines | menu item m1 with stock 3; an order whose lines are m1 × 2 and m1 × 2; completing it passes the check and leaves stock -1 | an order is completed only when each item's stock covers the quantity the whole order asks of it, so stock never goes below zero | not executed | Server.DeductStock, ServerProperties.DuplicateLinesDriveStockNegative, ServerProperties.DuplicateLinesRedeemNegative | Server.DeductStockChecked, Server.CompleteOrderChecked, ServerProperties.DeductStockCheckedAllOrNothing, ServerProperties.CompleteOrderCheckedNeverNegative |
