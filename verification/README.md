# A verified model of the point of sale

A Dafny model of the logic behind a multi-tenant point of sale: the shop ledger,
the money arithmetic shared by the till and the server, the catalogue with its
derived bundle prices, and the effects that must happen exactly once. Every
statement below is proved for all inputs, all runs or all reachable states.

`dafny verify dfyconfig.toml` checks the whole project.

## How it is built

Money is kept in cents and quantities in thousandths, as the `Decimal(12,2)` and
`Decimal(12,3)` columns store them. Amounts that a request or a computation
carries before it is stored are `real`, without IEEE error. Two roundings are
kept apart because the program mixes them: `JsRound` (`Math.round`, half up,
section 21.3.2.28 of ECMA-262) and `ColumnRound` (half away from zero, what the
database does when it stores).

Each body of `withTenantContext` is one atomic step that commits or leaves the
tables as they were; an operation cut into several transactions is several steps,
with anything else in between. The step functions and their runs are in `Shop`,
`Invoices`, `Products`, `CatalogueRuns`, `WebOrders`, `Numbering` and
`Subscription`. The services that update rows in place are classes
(`PointOfSale.Services`, `FiscalDesk.Desk`, `ProductsDesk.PriceList`,
`WebDesk.Worker`, `Numbering.Counter`, `Subscription.Billing`,
`Stock.StockTable`): each method is proved to do exactly what its step function
says, and to change nothing when the transaction throws. The laws are then proved
about the step functions and carried back to the classes: the `Process` method of each
takes any request and keeps the laws of its tables.

What a single step writes is stated a second time, without the functions the step is
made of: `ShopWrites`, `ShopTill` and `ProductWrites` in the terms of the request and the
catalogue (signs, prices, discounts, quantities), `Figures` in plain fractions of what was
sold.

| part | modules |
|---|---|
| Money | `Rounding`, `Sums`, `Vat`, `FeCae`, `Payments`, `Discounts`, `Cart`, `CartCaps`, `CartTotals`, `Figures` |
| Shop ledger | `Stock`, `BundleStock`, `Shop`, `ShopCash`, `ShopRace`, `ShopAccount`, `ShopTill`, `ShopStock`, `ShopSales`, `ShopWrites`, `PointOfSale` |
| Invoices | `Invoices`, `FiscalDesk` |
| Catalogue | `Products`, `CatalogueRuns`, `BulkPrice`, `Import`, `ProductWrites`, `ProductsDesk` |
| Exactly once | `WebOrders`, `WebDesk`, `Numbering`, `Calendar`, `Subscription` |

## Where the code falls short of a law

Each of these is a lemma with a concrete input or run, next to the exact condition
under which the law does hold.

- Closing a shift between the first and the last phase of a cancellation leaves the
  closed shift with an expectedCash that no longer reconciles
  (`ShopCash.CommitKeepsFrozenIff`).
- A cancellation reads the track-stock flags of today: it returns what the sale took
  only if none of them changed (`ShopStock.CancelRestoresLevelsIff`).
- An invoice issued while its order is being cancelled stays alive at the tax authority
  (`Invoices.StepVoidsIff`), and an order whose credit note was stored but whose
  cancellation did not finish can never be cancelled again
  (`Invoices.CancellableIffNotVoided`). The comment at
  apps/api/src/orders/orders.service.ts:625-626 only says that the note is not lost.
- Screen and server judge a payment differently when its sum has a fraction of a cent that the
  screen rounds away (`Payments.VerdictsAgreeIff`).
- A global percentage within the cap of the role can be refused on a small line, because the
  client rounds the discount of each line. With any real number as a cap every gross below 50.00
  is affected (`CartCaps.SafeFromFifty`); with caps in hundredths, as they are stored, all but
  four amounts (`CartCaps.SafeWithStoredCapsIff`).
- The rate rows of an invoice can miss the declared net by a cent (`FeCae.AlicuotasMatchNetoIff`).
- Carts of three or more lines can show a total that the server refuses when it is paid
  by card to the cent (`Cart.ToleranceCoversTwoLines`).
- A removed variant (`Products.RemoveVariantConsistentIff`; its foreign key is set to
  null by
  packages/database/prisma/migrations/20260816032305_catalog_variants_bundles_stock/migration.sql:77)
  or an import row that gives a derived bundle another price while no row of its chunk
  names one of its components (`Import.ImportChunkConsistentIff`)
  leaves a stale bundle price.
- A barcode that clashes stops an import half-way, although the preview announced every
  row (`Import.PreviewIsFaithful`).
- Two overlapping Tienda Nube jobs take one order out of stock twice, and so does a
  WooCommerce job that runs again after its own success (`WebOrders.StepOnceIff`).
- A Tienda Nube order retried by hand is enqueued for the WooCommerce worker
  (apps/api/src/woocommerce/sync-log.service.ts:108-124), which never takes anything out of stock
  for it (`WebOrders.ManualRetryAppliesNothing`).
- A payment first reported as pending is never credited
  (`Subscription.CreditedIffApprovedFirst`), because its id is stored by the first report;
  the comment at apps/api/src/billing/subscription.service.ts:280-286 speaks of retries only.
- Amounts or quantities with an odd half of the last stored digit break the account sum and
  the stock sum by one unit (`ShopAccount.MovementKeepsLawIff`; `ShopStock.CreateDocumentedIff`,
  `ShopStock.ReceiveLineDocumentedIff` and `ShopStock.ShipLineDocumentedIff`), and so does cancelling
  a sale of such quantities (`Stock.CancelExactIff`). A till counted with half a cent can miss its own
  difference by a cent (`ShopTill.CloseTalliesIff`).

One check turns out to be unnecessary: once every line passed the discount cap, the
whole-sale check of apps/api/src/orders/orders.service.ts:345-352 can never refuse
(`ShopSales.WholeSaleCheckIsRedundant`), while the comment above it presents it as a
second barrier.

## Model

| member | source | states |
|---|---|---|
| Rounding.JsRound | apps/api/src/afip/fe-cae-amounts.util.ts:19-21 | round2 on an amount in cents: the only whole number r with amount - 1/2 < r <= amount + 1/2, so a half goes up |
| Rounding.ColumnRoundTie | packages/database/prisma/schema.prisma:395 | what a two-decimal column does with an odd half cent: it moves away from zero |
| Rounding.SplitExact | apps/api/src/afip/fe-cae-amounts.util.ts:70-77 | rounding two parts of a whole amount separately loses nothing if and only if the parts are not odd halves |
| Rounding.ColumnAddExact | apps/api/src/customers/customer-account.ts:38-47 | `stored + delta` written back into a rounded column equals stored plus the rounded delta if and only if the delta is no odd half or the sum keeps its sign |
| FeCae.GroupByCondition | apps/api/src/afip/fe-cae-amounts.util.ts:29-44 | the first loop leaves, for each VAT condition in order of appearance, exactly the base and the VAT of its lines |
| FeCae.TotalByKind | apps/api/src/afip/fe-cae-amounts.util.ts:46-68 | the second loop leaves the totals of the taxed conditions, the exempt and the untaxed amounts, and one rate row per taxed condition |
| FeCae.BuildFeCaeAmounts | apps/api/src/afip/fe-cae-amounts.util.ts:28-78 | the declared amounts are the specified ones, condition by condition, whatever the lines |
| FeCae.NetoIsNeverATie | apps/api/src/afip/fe-cae-amounts.util.ts:36-38 | a net amount over 1.21 and 1.105 is never an odd half cent: denominators 121 and 221 are odd |
| FeCae.AmountsAddUp | apps/api/src/afip/fe-cae-amounts.util.ts:70-77 | net + VAT + exempt + untaxed is the total to the cent, for every mix of the five conditions |
| FeCae.AlicuotaAddsUp | apps/api/src/afip/fe-cae-amounts.util.ts:63-67 | each rate row is exact: base + VAT is what was sold under the rate |
| FeCae.AlicuotasNearNeto | apps/api/src/afip/fe-cae-amounts.util.ts:61-72 | the rate rows differ from the declared net by at most a cent, and not at all unless both 21% and 10.5% were sold |
| FeCae.AlicuotasCanMissNeto | apps/api/src/afip/fe-cae-amounts.util.ts:61-72 | the one-cent difference does occur: a concrete order |
| FeCae.AlicuotasMatchNetoIff | apps/api/src/afip/fe-cae-amounts.util.ts:61-72 | the rate rows add up to the declared net if and only if rounding the fractions left by the 21% and the 10.5% totals separately is rounding them together |
| FeCae.ImporteIvaIsLineIva | apps/api/src/afip/fe-cae-amounts.util.ts:32-44 | before rounding, the VAT declared per condition is the VAT charged line by line |
| FeCae.AmountsIgnoreOrder | apps/api/src/afip/fe-cae-amounts.util.ts:28-78 | the order in which the lines are scanned changes no declared amount and no rate row |
| FeCae.DeclaredAddsUp | apps/api/src/afip/fe-cae-envelope.util.ts:25-48 | after the adaptation to the voucher class the declared parts still add up to the total, and class C declares no VAT |
| Figures.DeclaredFigures | apps/api/src/afip/fe-cae-amounts.util.ts:70-77 | the declared total, exempt and untaxed amounts are what was sold, to the cent; net and VAT are what is left of 121 and 221 and what is contained in them, to half a cent |
| Figures.RateRowsAre | apps/api/src/afip/fe-cae-amounts.util.ts:61-68 | one rate row exactly for each taxed condition sold: code 5 for 21%, 4 for 10.5%, 3 for 0%, each with its base and its VAT to half a cent |
| Figures.AdaptedFigures | apps/api/src/afip/fe-cae-envelope.util.ts:25-48 | class C (vouchers 11 and 13) declares the total as net and nothing else; the others declare the exempt, untaxed and VAT amounts each in its own field |
| Figures.ReportRowsAre | apps/api/src/reports/reports-math.util.ts:21-31 | the report has a row exactly for each rate with sales, holding total * rate / (100 + rate) to half a cent |
| Vat.RateGroupsGiveLineIva | apps/api/src/reports/reports-math.util.ts:21-31 | VAT per rate group is VAT per line, before rounding, whatever the groups and their order |
| Vat.LineIvaIgnoresOrder | apps/api/src/orders/orders.service.ts:256-263 | the VAT of a sale does not depend on the order of its lines |
| Vat.ReportWithinHalfCentPerRow | apps/api/src/reports/reports-math.util.ts:21-31 | the rounded report adds up to the VAT charged, within half a cent for each row shown |
| Cart.ProrationConserves | apps/pos-web/src/stores/cart-calculations.ts:59-74 | the line finals sum exactly to the subtotal minus the line discounts minus the global discount |
| Cart.FinalWithinGross | apps/pos-web/src/stores/cart-calculations.ts:66-73 | every line final is between zero and its gross |
| Cart.RebuiltTotalNearShown | apps/pos-web/src/stores/cart-calculations.ts:134-142 | the total the server rebuilds from the rounded payload of n lines is within (n + 1) half cents of the total shown |
| Cart.TwoLinesAccepted | apps/api/src/orders/orders.service.ts:354-365 | whole-cent carts of at most two lines: paying exactly the total shown passes the server |
| Cart.AwkwardCartRejected | apps/api/src/orders/orders.service.ts:354-365 | for every n >= 3, a concrete cart with 10% off whose exact card payment the server refuses |
| Cart.ToleranceCoversTwoLines | apps/api/src/orders/orders.service.ts:354-365 | the one-cent tolerance is enough for every whole-cent cart of n lines if and only if n <= 2 |
| Cart.GlobalPercentWithinCap | apps/pos-web/src/stores/cart-calculations.ts:134-142 | a cart with only a global percentage within the cap is accepted line by line when each gross line is at least 50.00 |
| Cart.SmallLineOverCap | apps/api/src/orders/orders.service.ts:138-163 | below that, a concrete line of 33.35 whose rounded 10% the server refuses under a cap of 10% |
| CartCaps.SafeFromFifty | apps/pos-web/src/stores/cart-calculations.ts:134-142 | for caps that are any number: a global percentage within the cap is accepted on every line of a given whole-cent gross, whatever the cart, if and only if the gross is at least 50.00 |
| CartCaps.SafeWithStoredCapsIff | packages/database/prisma/schema.prisma:798 | for caps in hundredths of a percent, as the policy table stores them: if and only if the gross is at least 50.00 or one of 40.00, 48.00, 49.60 and 49.92 |
| CartCaps.MissingCap | apps/api/src/orders/orders.service.ts:138-163 | every other gross has a cap in hundredths whose rounded share is over it |
| CartTotals.ComputeCartTotals | apps/pos-web/src/stores/cart-calculations.ts:80-121 | the loop over the lines yields the specified totals and one breakdown row per condition, in order of appearance |
| CartTotals.ClientVatIsServerVat | apps/pos-web/src/stores/cart-calculations.ts:93-95 | the VAT shown is the VAT the server charges on the same amount |
| CartTotals.EntryAddsUp | apps/pos-web/src/stores/cart-calculations.ts:104-109 | net + VAT of a breakdown row is its gross, within a cent |
| CartTotals.BreakdownNearTotal | apps/pos-web/src/stores/cart-calculations.ts:104-120 | the breakdown rows add up to the total shown, within half a cent per row and half a cent for the total |
| CartTotals.DiscountRowsExplainTotal | apps/pos-web/src/stores/cart-calculations.ts:82-120 | the discount rows explain the total: exactly before rounding, within a cent after |
| Figures.CartFigures | apps/pos-web/src/stores/cart-calculations.ts:80-121 | subtotal, discounts and total are the sums over the lines, and every breakdown row holds the gross, VAT and net left under its condition, each to half a cent |
| Figures.FixedTakes | apps/pos-web/src/stores/cart-calculations.ts:27-31 | a fixed discount takes its own amount, but never a negative one nor more than there is |
| Figures.PercentageTakes | apps/pos-web/src/stores/cart-calculations.ts:27-31 | a percentage takes its part of the base, between nothing and everything |
| Payments.ClientAndServerAgree | apps/pos-web/src/stores/payment-calculations.ts:36-46 | with whole-cent payments the screen and the server give the same verdict, and covering what the screen asks for is never short |
| Payments.ClientMayAcceptWhatServerRejects | apps/pos-web/src/stores/payment-calculations.ts:15-17 | with fractions of a cent the screen can accept what the server refuses: a concrete payment |
| Payments.VerdictsAgreeIff | apps/pos-web/src/stores/payment-calculations.ts:36-46 | screen and server give the same verdict for every whole-cent total if and only if the sum of the payments is whole cents, or is rounded down and there is cash |
| Figures.PayingTheRestIsAccepted | apps/pos-web/src/stores/payment-calculations.ts:19-21 | in whole cents the rest the screen asks for is the total minus what is paid, and paying it by any means is accepted |
| Discounts.LinesImplySale | apps/api/src/orders/orders.service.ts:348-352 | if every line passes the cap of the role, the whole sale does: a mediant argument over any number of lines |
| Discounts.AcceptedSaleBounded | apps/api/src/orders/orders.service.ts:138-163 | an accepted sale gives away at most (cap + 0.01)% of its gross |
| Discounts.SaleDoesNotImplyLines | apps/api/src/orders/orders.service.ts:250-255 | the converse fails: a sale within the cap with a line over it |
| Figures.WithinLimitIff | apps/api/src/orders/orders.service.ts:138-163 | a discount is refused exactly when it is positive and over (cap + 0.01)% of a positive gross |
| ShopSales.SellItemsAccumulate | apps/api/src/orders/orders.service.ts:226-343 | the item loop keeps subtotal, discount, tax and total equal to the sums over the resolved lines, every line within the cap |
| ShopSales.WholeSaleCheckIsRedundant | apps/api/src/orders/orders.service.ts:345-352 | once the lines are priced, the whole-sale discount check can never refuse |
| ShopSales.AcceptedDiscountBounded | apps/api/src/orders/orders.service.ts:212-263 | the discount of a priced sale is at most (cap + 0.01)% of its subtotal |
| ShopSales.StoredFiguresAgree | apps/api/src/orders/orders.service.ts:382-394 | subtotal - discount = total in the stored order, to a cent |
| ShopWrites.OrderIsAsAsked | apps/api/src/orders/orders.service.ts:226-394 | the order written: one stored item for each requested one, in order, with the price of the variant if it has its own and of the product otherwise, the clamped discount, the VAT contained in 121 or 221, the portions of a bundle, the payments, and the rounded sums of it all |
| ShopWrites.AcceptedSale | apps/api/src/orders/orders.service.ts:165-365 | an accepted sale is made on an open shift of the store, a cashier's own; everything in it is for sale and within the cap; at least the total less a cent is paid, and more than a cent over it only with cash |
| ShopWrites.SaleRaisesDebt | apps/api/src/orders/orders.service.ts:432-444 | a sale raises the debt of its customer by what is paid on account, and no other debt |
| ShopCash.GapIff | apps/api/src/cash-shifts/cash-shifts.service.ts:241-252 | a sale counts in the summary exactly what it left in the drawer if and only if its cash covers what the other payments left, with the tolerated extra cent spelled out |
| ShopCash.StepMovesDrawer | apps/api/src/cash-shifts/cash-shifts.service.ts:191-255 | every operation moves the recomputed expected cash by exactly the cash that went in or out, up to the gap of the sale |
| ShopCash.ExpectedCashIsDrawer | apps/api/src/cash-shifts/cash-shifts.service.ts:217-222 | in every run, expected cash recomputed from history plus the gaps of the standing sales moves exactly as the drawer does: initial amounts, cash kept from sales, movements and account payments |
| ShopCash.CleanShiftReconciles | apps/api/src/cash-shifts/cash-shifts.service.ts:230-255 | a shift whose sales were paid cleanly reconciles to the cent |
| ShopCash.ClosedShiftsStayTrue | apps/api/src/orders/orders.service.ts:575-583 | in every run that closes no shift in the middle of one of its cancellations, the stored expectedCash of a closed shift is what the summary would recompute |
| ShopCash.CommitKeepsFrozenIff | apps/api/src/orders/orders.service.ts:614-627 | the last phase of a cancellation keeps that law if and only if the shift is still open or the sale left no cash |
| ShopCash.CloseDuringCancelBreaks | apps/api/src/orders/orders.service.ts:621-627 | closing between the phases breaks the stored figure of every sale that left cash |
| ShopRace.CloseDuringCancelHappens | apps/api/src/orders/orders.service.ts:621-627 | such a run, from an empty shop: open, sell a unit for cash, start to cancel, close, finish cancelling |
| ShopCash.ClosedRowIsFinal | apps/api/src/cash-shifts/cash-shifts.service.ts:169-171 | the row of a closed shift is never written again, in any run |
| ShopTill.CloseCountsTheTill | apps/api/src/cash-shifts/cash-shifts.service.ts:160-189 | closing stores the counted cash, the expected cash and their difference, count minus expected, on one open shift and changes nothing else; a whole-cent count gives both exactly |
| ShopTill.CloseTalliesIff | apps/api/src/cash-shifts/cash-shifts.service.ts:173-184 | expected plus difference is the counted cash if and only if the count is no odd half cent or falls on the same side of zero as the difference; never off by more than a cent |
| ShopTill.HalfCentCountMisses | apps/api/src/cash-shifts/cash-shifts.service.ts:173-184 | the cent does go missing: a count of half a cent more than a whole one, below the expected cash |
| ShopTill.EveryCountTallies | apps/api/src/cash-shifts/cash-shifts.service.ts:160-189 | in every run each closed shift has its three figures, and they add up to the cent in all of them if and only if every count was tidy when it was made |
| ShopTill.OpenIsAsAsked | apps/api/src/cash-shifts/cash-shifts.service.ts:42-85 | a shift is opened exactly on an active register without an open one, for the user who asks and with the initial amount given |
| ShopTill.OneOpenShiftPerRegister | apps/api/src/cash-shifts/cash-shifts.service.ts:42-85 | in every run a register has at most one open shift, in its own store |
| ShopTill.OperatesIff | apps/api/src/cash-shifts/cash-shifts.service.ts:122-172 | movements and closes are accepted exactly on an open shift, and from a cashier only on their own |
| ShopTill.UnderWayAreBegun | apps/api/src/orders/orders.service.ts:556-668 | in every run the cancellations of an order under way are those begun and neither finished nor given up |
| ShopAccount.MovementKeepsLawIff | apps/api/src/customers/customer-account.ts:34-82 | a movement keeps balance = sum of movements and balanceAfter = prefix sum if and only if rounding delta and balance agree |
| ShopAccount.BalanceIsSumOfMovements | apps/api/src/customers/customer-account.ts:59-79 | in every run with storable amounts, each balance is the sum of its movements and each balanceAfter the sum up to it |
| ShopAccount.UntidyAdjustmentBreaksLaw | apps/api/src/customers/customers.service.ts:184-215 | with an odd half cent the law does break: a concrete adjustment |
| ShopAccount.CancelledSalesOweNothing | apps/api/src/orders/orders.service.ts:669-686 | in every run the charge and the reversal of a cancelled sale cancel out, and a standing sale owes exactly its charge |
| ShopAccount.RunWithinCredit | apps/api/src/customers/customer-account.ts:38-47 | in every run no movement that raises the debt passes the credit limit in force when it was recorded |
| ShopAccount.ReplayedPaymentChangesNothing | apps/api/src/customers/customers.service.ts:95-120 | a key used once: sending it again in any later state changes neither the balance nor the drawer |
| ShopWrites.PaymentLowersDebt | apps/api/src/customers/customers.service.ts:95-182 | a payment with a new key lowers the debt of its customer by its amount, whatever the sign sent, and is never refused by the credit limit; the other debts stay, and cash enters the drawer |
| ShopWrites.AdjustmentMovesDebt | apps/api/src/customers/customers.service.ts:184-220 | an adjustment adds its signed amount to one debt |
| ShopWrites.CustomerIsAsAsked | apps/api/src/customers/customers.service.ts:45-65 | a customer starts without debt, and a new credit limit replaces the old one and moves no debt |
| ShopStock.StockIsDocumented | apps/api/src/orders/orders.service.ts:268-325 | over any run each level is its opening value plus purchases and adjustments, minus the snapshots of standing sales, minus web orders, plus the drift of the odd halves of a thousandth, event by event |
| ShopStock.StorableRunDriftsNowhere | apps/api/src/orders/orders.service.ts:268-325 | without odd halves there is no drift at all |
| ShopStock.CreateDocumentedIff | apps/api/src/orders/orders.service.ts:268-325 | a sale is documented on every level if and only if no quantity it takes is an odd half |
| ShopStock.ReceiveLineDocumentedIff | apps/api/src/stock/stock-mutations.ts:34-56 | a received line is documented if and only if it is no odd half or the level it meets keeps the sign of the quantity |
| ShopStock.ShipLineDocumentedIff | apps/api/src/woocommerce/woo-worker.service.ts:265-291 | the same for a line of a web order |
| ShopStock.CounterNeverOversells | apps/api/src/stock/stock-mutations.ts:58-78 | without web orders or adjustments below zero no level is ever negative, ties or not |
| ShopStock.CancelMatchesSaleIff | apps/api/src/orders/orders.service.ts:631-662 | two sets of track-stock flags return the same quantities for an order if and only if they agree on every product it took |
| ShopStock.CancelAfterSale | apps/api/src/orders/orders.service.ts:631-662 | whatever happened in between, a cancellation leaves each level as before its sale, plus its odd halves, plus what the flags of today return beyond those of the sale |
| ShopStock.CancelRestoresLevelsIff | apps/api/src/orders/orders.service.ts:631-662 | without odd halves, a cancellation puts every level back to what it was before the sale if and only if no product of the sale changed its track-stock flag |
| ShopWrites.AdjustmentMovesLevel | apps/api/src/stock/stock.service.ts:73-119 | a change adds its signed amount, a count replaces the level, an alert leaves it, and no other level moves |
| ShopWrites.PurchaseIsAsAsked | apps/api/src/purchases/purchases.service.ts:93-117 | a purchase keeps every line with its quantity |
| Stock.StockTable.IncrementStock | apps/api/src/stock/stock-mutations.ts:34-56 | the row of the target grows by the rounded quantity and no other row changes |
| Stock.StockTable.DecrementStockGuarded | apps/api/src/stock/stock-mutations.ts:61-78 | a row is lowered if and only if it had enough, and then it is not negative; otherwise nothing changes |
| Stock.StockTable.DecrementAllowingNegative | apps/api/src/woocommerce/woo-worker.service.ts:265-291 | the row falls by the rounded quantity, or starts below zero |
| Stock.TakeRemoves | apps/api/src/stock/stock-mutations.ts:61-78 | the guarded decrements of a sale lower each level by its snapshots, minus a thousandth for each odd half |
| Stock.CancelUndoesSale | apps/api/src/orders/orders.service.ts:631-662 | selling and cancelling brings every level back, plus a thousandth for each odd half |
| Stock.CancelExactIff | apps/api/src/orders/orders.service.ts:631-662 | cancelling is the exact inverse of selling if and only if no quantity is an odd half of a thousandth |
| BundleStock.SaleNeedsEachComponent | apps/api/src/orders/orders.service.ts:268-298 | selling k bundles through the guarded decrements succeeds if and only if every tracked component has k portions |
| BundleStock.GetBundleAvailableStock | apps/api/src/stock/stock-calculation.ts:44-83 | the number shown is exactly the largest k that can be sold, and unlimited if and only if there is a component and none is tracked |
| PointOfSale.Services.OpenShift | apps/api/src/cash-shifts/cash-shifts.service.ts:42-85 | one transaction: a shift is opened exactly when the register is active and has none open |
| PointOfSale.Services.RecordMovement | apps/api/src/cash-shifts/cash-shifts.service.ts:122-146 | one transaction: the movement is appended exactly when the actor may operate an open shift |
| PointOfSale.Services.ComputeCashSalesTotal | apps/api/src/cash-shifts/cash-shifts.service.ts:230-255 | the loop over the orders is the sum of the net cash of the standing sales of the shift |
| PointOfSale.Services.CloseShift | apps/api/src/cash-shifts/cash-shifts.service.ts:160-189 | the count is stored next to the expected cash, and the difference is the count minus the expected cash, each to half a cent: a shortage is negative |
| PointOfSale.Services.Post | apps/api/src/customers/customer-account.ts:34-82 | the guarded balance update and the movement, or no change at all |
| PointOfSale.Services.RegisterAccountPayment | apps/api/src/customers/customers.service.ts:95-182 | one transaction: with a new key the debt falls by the amount, whatever its sign, the movement is its negative, cash enters the drawer, nobody else is touched, and the credit limit never refuses it |
| PointOfSale.Services.AdjustAccount | apps/api/src/customers/customers.service.ts:184-215 | a manual adjustment is one account movement |
| PointOfSale.Services.PriceItems | apps/api/src/orders/orders.service.ts:212-343 | the item loop is the specified sale or its error, line by line; what each line is sold at is in `ShopWrites.OrderIsAsAsked` |
| PointOfSale.Services.CreateOrder | apps/api/src/orders/orders.service.ts:165-480 | one transaction: the order written has one item for each requested one, at the price of the catalogue (the variant's own price first), with the discount, tax and total that follow from it |
| PointOfSale.Services.ValidateCancel | apps/api/src/orders/orders.service.ts:563-601 | the first phase: only a standing order of an open shift |
| PointOfSale.Services.CommitCancel | apps/api/src/orders/orders.service.ts:616-710 | the last phase: restock, status and reversal are all written, or none is |
| PointOfSale.Services.ReceivePurchase | apps/api/src/purchases/purchases.service.ts:68-206 | every tracked line of a purchase enters the stock and the purchase is recorded |
| PointOfSale.Services.AdjustLevel | apps/api/src/stock/stock.service.ts:73-149 | a delta, an absolute count or only the alert: the level and the recorded change |
| PointOfSale.Services.ApplyWebOrder | apps/api/src/woocommerce/woo-worker.service.ts:210-247 | the matched lines of a web order leave the stock even below zero |
| PointOfSale.Services.Process | apps/api/src/orders/orders.service.ts:165-712 | any request: the drawer law, the frozen shifts and the account laws hold after it if they held before, no close falls into a cancellation and no amount is an odd half cent; every closed shift has its three figures, a register has one open shift, and the figures still add up if and only if the request was no untidy close |
| Invoices.NotesMirrorInvoices | apps/api/src/invoices/invoices.service.ts:108-279 | however requests overlap: an invoice has at most one credit note, of the same order, class and amounts, and what every voucher stores adds up |
| Figures.VoucherFigures | apps/api/src/invoices/invoices.service.ts:304-337 | every voucher stores the total of its order, its VAT to half a cent, and the net that completes them |
| Invoices.CancelledSalesAreVoided | apps/api/src/orders/orders.service.ts:557-712 | if issuing an invoice overlaps no other voucher or cancellation of its order: one sale voucher per order, and a cancelled order with an issued invoice has its mirroring credit note |
| Invoices.PersistKeepsOneSaleIff | apps/api/src/invoices/invoices.service.ts:520-534 | the last step of an invoice repeats a sale voucher if and only if one was written while the authority was asked |
| Invoices.StepVoidsIff | apps/api/src/invoices/invoices.service.ts:354-535 | exactly which steps leave a cancelled sale alive at the authority |
| Invoices.OverlapLeavesInvoiceAlive | apps/api/src/invoices/invoices.service.ts:354-535 | such a run of a one-line order: it is cancelled while its invoice is being requested |
| Invoices.StuckForever | apps/api/src/invoices/invoices.service.ts:130-138 | once the credit note exists and nobody is cancelling, no run ever cancels the order |
| Invoices.CancellableIffNotVoided | apps/api/src/orders/orders.service.ts:602-627 | an invoiced order with no request under way can still be cancelled by some run if and only if its invoice has no credit note |
| FiscalDesk.Desk.IssueTicket | apps/api/src/invoices/invoices.service.ts:304-337 | check and internal ticket in one transaction, with the amounts of the order |
| FiscalDesk.Desk.FinishInvoice | apps/api/src/invoices/invoices.service.ts:462-534 | the authority's answer is stored without checking again; a refusal is a rejected invoice |
| FiscalDesk.Desk.StartCancel | apps/api/src/orders/orders.service.ts:563-601 | the first issued sale voucher decides whether a credit note is needed |
| FiscalDesk.Desk.StartNote | apps/api/src/invoices/invoices.service.ts:117-152 | refused when the invoice is already voided |
| FiscalDesk.Desk.FinishNote | apps/api/src/invoices/invoices.service.ts:224-279 | a refusal leaves nothing behind; an approval stores the note unless one exists |
| FiscalDesk.Desk.FinishCancel | apps/api/src/orders/orders.service.ts:616-667 | the order is cancelled unless it already was |
| FiscalDesk.Desk.Process | apps/api/src/invoices/invoices.service.ts:108-535 | any request: credit notes still mirror their invoices; and one that does not overlap keeps one sale voucher per order and no cancelled sale alive |
| Products.RecalculateForAt | apps/api/src/products/bundle-pricing.service.ts:112-137 | a recalculation sets exactly the bundles that use a changed product to their derived price and touches nothing else |
| Products.RecalculateAllSettles | apps/api/src/products/bundle-pricing.service.ts:129-136 | in any order and in one pass: no fixpoint is needed, because a bundle is never a component |
| Products.RecalculationRepairs | apps/api/src/products/bundle-pricing.service.ts:112-137 | after prices are written, a derived bundle agrees with its components if and only if one of them was among the writes or its own price did not change |
| Products.UpdateConsistent | apps/api/src/products/products.service.ts:184-244 | an edit keeps every derived bundle in line |
| Products.AddBundleItemConsistent | apps/api/src/products/products.service.ts:310-340 | so does adding a component |
| Products.RemoveBundleItemConsistent | apps/api/src/products/products.service.ts:342-359 | so does removing one; an emptied bundle goes back to a manual price |
| Products.CreateConsistent | apps/api/src/products/products.service.ts:43-112 | so does creating a product, its variants and components |
| Products.OverwriteConsistentIff | apps/api/src/products/products-bulk-price.service.ts:68-102 | a chunk of price writes keeps them in line if and only if it overrules no derived bundle |
| Products.RemoveVariantConsistentIff | apps/api/src/products/products.service.ts:299-308 | removing a variant keeps them in line if and only if no derived bundle's price rests on it |
| Products.RemoveVariantCanDrift | apps/api/src/products/products.service.ts:299-308 | a concrete variant whose removal leaves a bundle at a stale price |
| CatalogueRuns.StepConsistentIff | apps/api/src/products/products.service.ts:184-359 | exactly which catalogue operations leave a derived bundle with a stale price |
| CatalogueRuns.DerivedPricesStayTrue | apps/api/src/products/bundle-pricing.service.ts:20-30 | in every run without one of those, each derived bundle has a component and stores its rounded, discounted component sum |
| ProductWrites.RecalculationTakesDiscount | apps/api/src/products/bundle-pricing.service.ts:31-103 | a recalculation stores the parts less the discount, to half a cent, and changes nothing else |
| ProductWrites.DerivedBundlesCostTheirParts | apps/api/src/products/bundle-pricing.service.ts:31-56 | in a consistent catalogue every derived bundle costs its parts less its discount: nothing off costs the parts, everything off costs nothing |
| ProductWrites.EditIsAsAsked | apps/api/src/products/products.service.ts:184-244 | an edit stores what it names on one product: given fields are stored, absent ones kept, null ones cleared; of the others only derived prices move |
| ProductWrites.CreateIsAsAsked | apps/api/src/products/products.service.ts:43-112 | a new product is one row with the price asked for, in manual mode and without a discount, then its variants and components in order |
| BulkPrice.ChunksAreOnePass | apps/api/src/products/products-bulk-price.service.ts:68-108 | in chunks of any size the update ends in the catalogue of one single pass |
| BulkPrice.TargetsFollowRule | apps/api/src/products/products-bulk-price.service.ts:154-160 | after the update, in chunks of any size, every target with a price of zero or more follows the rule once from its snapshot price |
| BulkPrice.BulkUpdateOutcome | apps/api/src/products/products-bulk-price.service.ts:53-108 | every target ends once at its snapshot price raised by the percentage, to half a cent, or moved by the fixed amount, never below zero; every derived bundle at its derived price; nothing else changes |
| BulkPrice.SimpleInDerivedModeIsSkipped | apps/api/src/products/products-bulk-price.service.ts:138-152 | a product that is no bundle can be put in derived mode and then keeps its price through every bulk update |
| Import.ClassifyRows | apps/api/src/products/products-import.service.ts:245-324 | every row is classified by what it is, what came before it in the file and what the catalogue has |
| Import.ValidSkusAreDistinct | apps/api/src/products/products-import.service.ts:293-303 | every SKU is valid in at most one row |
| Import.CountsAddUp | apps/api/src/products/products-import.service.ts:237-243 | the three counts add up to the parsed rows |
| Import.WriteRowsIff | apps/api/src/products/products-import.service.ts:151-189 | all rows can be written if and only if no barcode clashes, a fact about the file and the catalogue before the import |
| Import.CommitIsWriteRows | apps/api/src/products/products-import.service.ts:141-222 | chunks of any size write the same products, derived prices aside |
| Import.PreviewIsFaithful | apps/api/src/products/products-import.service.ts:104-222 | the commit goes through if and only if no barcode clashes, and then does exactly what the preview announced |
| ProductWrites.ImportStoresRows | apps/api/src/products/products-import.service.ts:141-222 | after an import that goes through, every valid row is stored on the product of its SKU: price, barcode and known category; a derived bundle keeps its derived price, and a new product is simple, manual and active |
| Import.DemoStaysWithinQuota | apps/api/src/billing/plan.service.ts:146-156 | a demo whose import adds products ends with at most 20, even if a chunk fails |
| Import.ImportChunkConsistentIff | apps/api/src/products/products-import.service.ts:160-204 | a chunk keeps the derived prices in line if and only if no row gives a derived bundle another price while naming none of its components |
| ProductsDesk.PriceList.ComputeDerivedPrice | apps/api/src/products/bundle-pricing.service.ts:31-56 | the price is the sum of the components, the variant's own price first, less the discount in hundredths of a percent (nothing below 0%, everything above 100%), to half a cent; nothing for an empty bundle |
| ProductsDesk.PriceList.RecalculateBundle | apps/api/src/products/bundle-pricing.service.ts:61-103 | one bundle recalculated: its stored price is its parts less its discount, reported exactly when it changed |
| ProductsDesk.PriceList.RecalculateForComponents | apps/api/src/products/bundle-pricing.service.ts:112-137 | the affected bundles recalculated, with every change reported |
| ProductsDesk.PriceList.UpdateProduct | apps/api/src/products/products.service.ts:184-244 | the edit and its recalculations in one transaction, or no change: each given field is stored, each absent one kept, each null one cleared, and only derived prices of other products move |
| ProductsDesk.PriceList.AddItem | apps/api/src/products/products.service.ts:310-340 | the component and the recalculation in one transaction, or no change |
| ProductsDesk.PriceList.RemoveItem | apps/api/src/products/products.service.ts:342-359 | the removal and the recalculation in one transaction |
| ProductsDesk.PriceList.Snapshot | apps/api/src/products/products-bulk-price.service.ts:63-65 | every product the rule reaches, once, with its price |
| ProductsDesk.PriceList.ApplyBulk | apps/api/src/products/products-bulk-price.service.ts:53-133 | every target follows the rule once from its snapshot price; the de-duplicated push covers every product whose price changed and carries the price it ended with |
| ProductsDesk.PriceList.ImportRows | apps/api/src/products/products-import.service.ts:145-219 | one chunk: written and recalculated, or rolled back at the first clash |
| ProductsDesk.PriceList.ImportFile | apps/api/src/products/products-import.service.ts:141-222 | the chunks in order, stopping at the first that fails |
| ProductsDesk.PriceList.CreateProduct | apps/api/src/products/products.service.ts:43-112 | product, variants and components in one transaction, or nothing |
| ProductsDesk.PriceList.Process | apps/api/src/products/products.service.ts:43-359 | any request that is none of the three that drift keeps every derived price in line |
| WebOrders.StepOnceIff | apps/api/src/woocommerce/woo-worker.service.ts:173-256 | exactly which steps apply a remote order twice, forget that it was applied, or mark it applied when it was not |
| WebOrders.EveryOrderOnce | apps/api/src/tiendanube/tn-worker.service.ts:199-286 | in every run in which open jobs of one order do not overlap, a remote order is taken out of stock once if some log of it succeeded and not at all otherwise |
| WebOrders.OverlappingJobsApplyTwice | apps/api/src/tiendanube/tn-worker.service.ts:204-247 | two Tienda Nube jobs of one order of two units that both check before either applies: four units leave the stock |
| WebOrders.ManualRetryAppliesNothing | apps/api/src/woocommerce/sync-log.service.ts:75-133 | a Tienda Nube order is enqueued on the WooCommerce queue when it is retried by hand: however often, nothing is taken out of stock for it |
| WebOrders.StockFallsByAppliedLines | apps/api/src/woocommerce/woo-worker.service.ts:265-291 | every level falls by the matched lines of the orders applied, up to the drift of their odd halves, and not at all otherwise |
| WebOrders.MatchedIsOrdered | apps/api/src/woocommerce/woo-worker.service.ts:210-237 | the lines of an order take from each stock target the quantities sold of the products linked to it, and unlinked products take nothing |
| WebDesk.Worker.FindDuplicate | apps/api/src/woocommerce/woo-worker.service.ts:175-184 | the search leaves out the job's own log |
| WebDesk.Worker.TakeLines | apps/api/src/woocommerce/woo-worker.service.ts:210-237 | unmatched lines are skipped, matched ones taken whether or not there is enough |
| WebDesk.Worker.ProcessWooOrder | apps/api/src/woocommerce/woo-worker.service.ts:173-256 | check and effect in one transaction |
| WebDesk.Worker.CheckOrder | apps/api/src/tiendanube/tn-worker.service.ts:204-216 | the first transaction of a Tienda Nube job: only the search |
| WebDesk.Worker.MarkOrder | apps/api/src/tiendanube/tn-worker.service.ts:217-225 | a duplicate marked successful, in a transaction of its own |
| WebDesk.Worker.FinishOrder | apps/api/src/tiendanube/tn-worker.service.ts:246-286 | the lines taken and the log successful in one transaction |
| WebDesk.Worker.FailOrder | apps/api/src/tiendanube/tn-worker.service.ts:233-244 | the order was not fetched: the log fails and nothing is taken |
| WebDesk.Worker.RetryLog | apps/api/src/woocommerce/sync-log.service.ts:75-133 | only a failed log goes back to pending, and every order goes to the WooCommerce queue |
| WebDesk.Worker.ProcessRetried | apps/api/src/woocommerce/woo-worker.service.ts:173-207 | a Tienda Nube order on that queue: a duplicate or a failure, never a decrement |
| WebDesk.Worker.Process | apps/api/src/woocommerce/woo-worker.service.ts:55-68 | any delivery, job or retry: if it is polite, every remote order is still applied exactly once |
| Numbering.NumbersAreGapless | apps/api/src/orders/orders.service.ts:714-723 | with any interleaving of reads and inserts the numbers of every store are exactly 1 to their count, each once |
| Numbering.ConflictIff | apps/api/src/orders/orders.service.ts:93-130 | an insert is refused if and only if its store grew since the number was read, and then leaves no trace |
| Numbering.RetryFailsIff | apps/api/src/purchases/purchases.service.ts:35-66 | the operation gives up if and only if every one of its attempts was overtaken |
| Numbering.Counter.CreateWithRetry | apps/api/src/invoices/invoices.service.ts:283-302 | three attempts: the loop does what the specification of the retries says |
| Calendar.DateOf | apps/api/src/billing/subscription.service.ts:414-418 | every day number has a date that numbers back to it |
| Calendar.DateOfMakeDay | apps/api/src/billing/subscription.service.ts:414-418 | numbering a date and reading it back is the identity |
| Calendar.OneMonthForward | apps/api/src/billing/subscription.service.ts:411-418 | a month more is exactly the length of the month it starts in, 28 to 31 days |
| Calendar.SameDayNextMonth | apps/api/src/billing/subscription.service.ts:411-418 | it is the same day of the next month whenever that month has it |
| Subscription.ApprovedPaymentAddsOneMonth | apps/api/src/billing/subscription.service.ts:287-337 | an approved payment of a new id adds that month to the later of the paid-up date and now; the commerce is active and unblocked right after |
| Subscription.PaidPeriodNeverShrinks | apps/api/src/billing/subscription.service.ts:246-285 | no sequence of webhooks ever shortens a paid period |
| Subscription.OnlyFirstDeliveriesMatter | apps/api/src/billing/subscription.service.ts:280-356 | any number of repeated webhooks leaves the platform as if only the first delivery of each payment had arrived |
| Subscription.CreditedIffApprovedFirst | apps/api/src/billing/subscription.service.ts:304-323 | a payment is ever credited if and only if its first delivery to a known commerce already reports it approved |
| Subscription.PendingThenApprovedIsLost | apps/api/src/billing/subscription.service.ts:304-323 | pending, then approved: the commerce stays past due |
| Subscription.PaidStateByDate | apps/api/src/billing/subscription-status.util.ts:88-133 | when a paying commerce is active, in grace and expired, to the millisecond |
| Subscription.StateOnlyWorsens | apps/api/src/billing/subscription-status.util.ts:55-86 | time alone never improves a state or lifts a block |
| Subscription.StateByDate | apps/api/src/billing/subscription-status.util.ts:88-133 | the state from the dates in the other cases: cancelled, on trial, or without any date |
| Subscription.DaysAndPolicy | apps/api/src/billing/subscription-status.util.ts:55-86 | the days shown are the whole days left, rounded up, and an expired or cancelled commerce is blocked from writing or from entering exactly as its policy says |
| Subscription.PreapprovalWrites | apps/api/src/billing/subscription.service.ts:249-278 | a status change writes active for authorized, past due for paused, cancelled for cancelled and trial for anything else, and no date |
| Subscription.RejectedPaymentWrites | apps/api/src/billing/subscription.service.ts:304-337 | a payment that is not approved records its id and marks the commerce past due, nothing else |
| Subscription.Billing.ReceivePayment | apps/api/src/billing/subscription.service.ts:287-356 | the event first, then the commerce; a known payment id changes nothing |
| Subscription.Billing.ReceivePreapproval | apps/api/src/billing/subscription.service.ts:249-278 | a status change moves no date |
| Subscription.Billing.Process | apps/api/src/billing/mp-webhook.controller.ts:98-140 | any webhook: a payment id is recorded once and no paid period shrinks |

## Left out

- ShopStock.StockIsDocumented: assumes the track-stock flags stay as they are during the run, because a cancellation reads them again; `ShopStock.CancelRestoresLevelsIff` says exactly when that matters. Odd halves are not assumed away: their drift is part of the law.
- ShopCash.ClosedShiftsStayTrue: assumes no close falls between the phases of a cancellation of the same shift; `ShopCash.CommitKeepsFrozenIff` gives the exact condition of the step that breaks it.
- ShopCash.CleanShiftReconciles: assumes the non-cash payments of a sale do not pass its total and its change is not one tolerated cent; `ShopCash.GapIff` says exactly what each other sale adds.
- ShopAccount.BalanceIsSumOfMovements: assumes amounts that are no odd half cent; `ShopAccount.MovementKeepsLawIff` gives the exact condition of each movement.
- Invoices.CancelledSalesAreVoided: assumes that issuing an invoice overlaps no other voucher and no cancellation of its order; `Invoices.PersistKeepsOneSaleIff` and `Invoices.StepVoidsIff` give the exact conditions.
- WebOrders.EveryOrderOnce: assumes that a job runs only while its log is open and that Tienda Nube jobs of one order do not overlap; `WebOrders.StepOnceIff` gives the exact condition of each step.
- Calendar.OneMonthForward: holds in a time zone with a fixed offset, as Argentina's; daylight saving time is not part of this model.
- ShopStock.CancelRestoresLevelsIff: assumes that a stock target belongs to one product, as a variant does, and that no quantity is an odd half; `ShopStock.CancelAfterSale` needs neither.
- Cart.AwkwardCartRejected: stated in exact rationals, like everything about carts; with doubles the same discount of 2985.5 cents is rounded for each line.
- PointOfSale.Services.ReceivePurchase: does not model the supplier lookup or the last cost written to the product, which no property proved here reads.
- Subscription.Billing.ReceivePreapproval: does not model the event row and the stored preapproval id, which move no date.
- ProductsDesk.PriceList.UpdateProduct: an explicit null for a column that cannot be null (price, mode, active) makes the statement fail and changes nothing; such requests are not part of this model.
- Numbering.Counter.CreateWithRetry: the attempts of others are a parameter, a number of finished attempts for each of its own; the general interleaving is in `Numbering.NumbersAreGapless`.
- FiscalDesk.Desk.StartCancel: findFirst has no order in the source; the model takes the oldest issued voucher, which matters only when an overlap left two.
- `Number.EPSILON` inside the round2 helpers, and IEEE floating point altogether: amounts are exact rationals.
- Interleavings inside one transaction: each body of `withTenantContext` is atomic, so anomalies of the READ COMMITTED level are not part of this model, except for the MAX + 1 numbers, whose read and insert are two steps.
- The order's number, its quote, its audit record, the reasons stored with it, and the names, costs and unit prices copied to its items: no property proved here depends on them (numbers are in `Numbering`).
- The state of an order appears twice, with its stock and payments in `Shop` and with its vouchers in `Invoices`; the two are not one state machine, and whether the shift is open is a parameter of the cancellation in `Invoices`.
- Fiscal configuration, the choice of invoice class from the tax conditions of both parties and the identification of the customer: the class is a parameter.
- Costs, names, images and stock flags of the catalogue rows: only what prices, bundles and imports read is kept. SKU and barcode conflicts between variants are not modelled.
- Reading the spreadsheet file: the import starts from parsed rows, with category names already in lower case.
- WebDesk.Worker.ProcessRetried: whether the misrouted job finds a duplicate is a parameter, because it compares with an order id its payload does not have; a query that throws leaves the log pending and is no step.
- Manual changes of a subscription from the platform panel: they set dates freely.
- The message and the warning flag of the subscription banner: no property beyond the state they are built from.
- Outbound stock and price synchronisation: the workers run concurrently with retries, so the code fixes no order. What a bulk update hands over to it is covered.
- Mercado Pago, AFIP, the stores, Redis and the queues themselves: their answers are parameters.
- Authentication, roles beyond cashier, signatures, mail, demo onboarding and purge, row-level security: thin wrappers without a hard property.
- The category tree: only a category being its own parent is refused, so the code does not keep it acyclic.
