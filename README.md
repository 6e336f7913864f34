# HOK_DRYCK point of sale, modelled in Dafny

HOK_DRYCK is a small point-of-sale web application for a drinks kiosk. It
has a product catalogue with stock levels, a cart and checkout, payments
by Swish (a QR code holding a pre-filled payment request) or from a
prepaid account balance, and a dashboard and a statistics page that
summarise stock and sales.

This project models the application's core and proves properties of it:

- **Server actions.**
  - `confirmSale` validates a sale, prices it from the store, debits an
    account payment and, in one transaction, records the sale and writes
    the new stock.
  - `addFunds` and `getAccountBalance` manage the prepaid balance.
  - `createProduct` validates a product with the form schema, then merges
    it into the product of the same name (case ignored) or inserts it.
  - `deleteProduct` removes a row only for its owner.
- **Swish QR payload.** The phone-number cleaning, the
  `C<payee>;<amount>;<message>;<lock>` payload and the `useSwishQR` hook.
- **Client pages.**
  - The cart reducer shared by the sell pages, and the product search.
  - The sell page's handlers.
  - The account-payment page's handlers.
  - The older sell page kept in `components/Pagination.tsx`.
- **Read-only pages.**
  - The dashboard's stock figures and weekly series.
  - The statistics page's revenue, growth, per-product stats, best
    sellers and recent sales.
  - The inventory list's search and pagination.

Conventions:

- Money is integer öre (hundredths of a krona).
- The database is the class `Store.Store`. Its tables are maps and a
  sequence that its methods update in place. Each method is proved
  against a function on the value `Db.State`, and each keeps
  `Db.Consistent`.
- The pages are classes whose fields are the components' `useState`
  values. Their handlers are methods that state the new screen
  (`Current()`) and the new tables.
- The current user, the clock, the QR image encoder and the database's
  fresh ids are parameters.

`confirmSale` as written mishandles requests that its pages never send:
see "## Findings".
- `Sales.Confirm` models the action as written.
- `Sales.ConfirmChecked` is the corrected action. `Store.Store.ConfirmSale`
  implements it.
- `Sales.CheckedAgreesOnCartLines` and `Cart.CheckoutAgrees` prove the two
  agree on every request a cart can produce. So the pages' checkout
  contracts are stated with `Sales.Confirm` and hold of the corrected store.

## Model

| member | source | states |
|---|---|---|
| Text.RemoveSpaces | components/sell/qrGen.ts:18 | `replace(/\s/g, "")` leaves no white space, keeps a string without white space as it is, and is empty exactly when the input is blank |
| Text.RemoveSpacesIdempotent | components/sell/qrGen.ts:18 | removing white space a second time changes nothing |
| Text.Trim | app/inventory/page.tsx:32 | `trim()` is the middle slice of the input with only white space cut from either side, has no white space at either end, and is empty exactly when the input is blank |
| Text.TrimIdempotent | app/inventory/page.tsx:32 | trimming a trimmed string changes nothing |
| Text.Contains | app/sell/page.tsx:70-72 | `includes` holds exactly when the needle occurs at some position |
| Money.FormatOreRoundTrip | components/sell/qrGen.ts:19 | the `toFixed(2)` text of an amount reads back as exactly that amount |
| Money.FormatOreInjective | components/sell/qrGen.ts:19 | different amounts are formatted differently |
| Swish.CleanNumber | components/sell/qrGen.ts:18 | all white space is removed, then one leading "+46" if present and nothing else |
| Swish.PayloadRoundTrip | components/sell/qrGen.ts:18-19 | a reader of the payload recovers the cleaned payee, the exact amount, an empty message and a locked amount |
| Swish.SplitJoin | components/sell/qrGen.ts:19 | splitting the payload at ';' gives back its fields when no field contains ';' |
| Swish.SwishQr.constructor | components/sell/qrGen.ts:5 | the hook starts with no image |
| Swish.SwishQr.GenerateQR | components/sell/qrGen.ts:7-34 | true exactly when the number is not blank, the amount is positive and the encoder succeeds; only then is the image replaced |
| Swish.SwishQr.ClearQR | components/sell/qrGen.ts:36-38 | the image is dropped |
| Ledger.BalanceOf | lib/actions/account.ts:26-35 | the stored balance, 0 for a user without a row |
| Ledger.AddFunds | lib/actions/account.ts:7-24 | a non-positive amount is refused; a missing row fails; otherwise only the user's balance changes, by exactly the amount |
| Ledger.AddFundsTwice | lib/actions/account.ts:7-24 | two top-ups of a and b equal one top-up of a + b |
| Catalog.ParseProduct | lib/actions/products.ts:8-14 | the schema accepts exactly a non-empty name, a non-negative price, a whole non-negative quantity and an optional whole non-negative `lowStockAt`; anything else is "Validation failed" |
| Catalog.Existing | lib/actions/products.ts:45-52 | `findFirst` returns a product whose name matches ignoring case, or none when none matches |
| Catalog.ExistingUnique | lib/actions/products.ts:45-52 | with names unique ignoring case, the match is the one product of that name |
| Catalog.Merge | lib/actions/products.ts:56-64 | a merge adds the quantity, replaces the price and overwrites `sku` and `lowStockAt` only with truthy values; the name and owner stay |
| Catalog.CreateProduct | lib/actions/products.ts:28-78 | merges into the matching product, or inserts a new row under a fresh id; no existing row is lost |
| Catalog.CreateProductKeepsCatalog | lib/actions/products.ts:45-69 | a validated creation keeps names unique ignoring case and prices and stock non-negative |
| Catalog.CreateProductTwice | lib/actions/products.ts:45-69 | creating the same name twice, in any letter case, adds at most one row |
| Catalog.DeleteProduct | lib/actions/products.ts:16-26 | the row goes exactly when its id and owner match; every other row is unchanged |
| Catalog.DeleteProductKeepsCatalog | lib/actions/products.ts:16-26 | deletion keeps the catalogue consistent, and a second identical delete changes nothing |
| Catalog.CreateThenDelete | lib/actions/products.ts:16-78 | inserting a new product and deleting it as its owner restores the catalogue |
| Sales.ValidateFrom | lib/actions/sales.ts:26-39 | the validation loop passes exactly when every line's product exists and covers the units it is checked against |
| Sales.ValidateFindsFirst | lib/actions/sales.ts:26-39 | the error reported is that of the first failing line: "not found" or "Insufficient stock for <name>" |
| Sales.SnapshotItems | lib/actions/sales.ts:75-82 | one sale item per line, with the line's product and quantity and the price read before the sale |
| Sales.TotalMatchesItems | lib/actions/sales.ts:41-82 | a sale's `totalAmount` equals the sum of price × quantity over its own items |
| Sales.SnapshotUnits | lib/actions/sales.ts:75-82 | the sale's items record exactly the units the lines ask for, per product |
| Sales.SetStocksEffect | lib/actions/sales.ts:87-95 | the stock loop as written leaves each named product at its stock read minus the quantity of the LAST line for it |
| Sales.DeductEffect | lib/actions/sales.ts:87-95 | decrementing line by line takes every line for a product off its stock |
| Sales.DeductIsSetStocks | lib/actions/sales.ts:87-95 | with one line per product, the two stock updates write the same rows |
| Sales.Confirm | lib/actions/sales.ts:7-110 | `confirmSale` as written: a missing or empty list is "Invalid items"; success exactly when every line is in stock and an account payer has a row and enough balance; on success one sale is appended, stocks are set and only an account payer is debited by the total |
| Sales.ConfirmRejectsFirstBadLine | lib/actions/sales.ts:26-39 | a request fails with the error of its first missing or short line |
| Sales.ConfirmRejectsLowBalance | lib/actions/sales.ts:46-57 | an account payment above the balance fails with "Insufficient account balance"; a payer without a row reads as 0 |
| Sales.ConfirmBalanceEffect | lib/actions/sales.ts:59-69 | on success an account payer loses exactly the total, a Swish sale changes no balance, and no one else's balance changes |
| Sales.ConfirmStockDistinct | lib/actions/sales.ts:87-95 | with one line per product, each named product loses its line's quantity and the others are untouched |
| Sales.ConfirmKeepsConsistent | lib/actions/sales.ts:26-95 | a successful sale keeps names unique, stocks and prices non-negative, and balances non-negative |
| Sales.ConfirmChecked | lib/actions/sales.ts:7-110 | the corrected action: non-positive quantities are "Invalid items", each line is checked against all units asked for its product so far, and each line decrements the current stock |
| Sales.CheckedAgreesOnCartLines | lib/actions/sales.ts:7-110 | on requests with one positive line per product, the corrected and the as-written action give the same result |
| Sales.CheckedConservesUnits | lib/actions/sales.ts:75-95 | under the corrected action every product loses exactly the units the new sale records for it, and no stock goes negative |
| Sales.CheckedNeverCredits | lib/actions/sales.ts:41-69 | the corrected action never raises the buyer's balance |
| Sales.CheckedKeepsConsistent | lib/actions/sales.ts:26-95 | the corrected action keeps the tables consistent |
| Sales.NegativeQuantityCredits | lib/actions/sales.ts:26-69 | as written, a line of -5 paid from an empty account succeeds, credits the buyer and raises the stock |
| Sales.RepeatedLineLosesUnits | lib/actions/sales.ts:87-95 | as written, two lines of 3 against a stock of 5 succeed, record 6 units and leave a stock of 2 |
| Sales.RepeatedLineRefused | lib/actions/sales.ts:26-39 | the corrected action refuses those two lines as insufficient stock |
| Store.Store.GetAccountBalance | lib/actions/account.ts:26-35 | returns `BalanceOf` the user, which is not negative, and changes nothing |
| Store.Store.AddFunds | lib/actions/account.ts:7-24 | the balances become `Ledger.AddFunds` of the old ones on success and stay as they were on failure; products and sales are unchanged |
| Store.Store.ConfirmSale | lib/actions/sales.ts:7-110 | the outcome and the new tables are those of `Sales.ConfirmChecked`; a failure leaves every table unchanged |
| Store.Store.WriteStocks | lib/actions/sales.ts:87-95 | the update loop leaves the products at `Sales.Deduct` of the stock read |
| Store.ValidateLines | lib/actions/sales.ts:26-39 | the loop reports the same first error as `Sales.ValidateFrom` with running demand |
| Store.CheckQuantities | lib/actions/sales.ts:14-16 | true exactly when some line's quantity is not positive |
| Store.Store.CreateProduct | lib/actions/products.ts:28-78 | a form the schema refuses fails and changes nothing; otherwise the products become `Catalog.CreateProduct` of the parsed data |
| Store.Store.DeleteProduct | lib/actions/products.ts:16-26 | the products become `Catalog.DeleteProduct` of the old ones; nothing else changes |
| Cart.Find | app/sell/page.tsx:76 | the first entry with the id, or none exactly when no entry has it |
| Cart.AddToCart | app/sell/page.tsx:75-91 | the product's id joins the cart; every other entry is unchanged; one entry per product and positive quantities are kept |
| Cart.AddToCartAppends | app/sell/page.tsx:88-90 | a product not in the cart is appended with quantity 1, raising the total by its price |
| Cart.AddToCartIncrements | app/sell/page.tsx:78-87 | an entry already there gains one unit in place exactly when below its stock; the entries around it are untouched |
| Cart.AddToCartTotal | app/sell/page.tsx:75-91 | the total grows by the unit price exactly when a unit is added |
| Cart.UpdateQuantity | app/sell/page.tsx:94-106 | all remaining entries are positive, no id is added, and the adjusted entry is capped at its stock |
| Cart.UpdateQuantityEntry | app/sell/page.tsx:94-106 | the entry becomes min(quantity + delta, stock) in place, or is removed when that is not positive; the other entries are untouched |
| Cart.RemoveFromCart | app/sell/page.tsx:109-111 | exactly that id leaves the cart; the other entries keep their order and properties |
| Cart.RemoveFromCartTotal | app/sell/page.tsx:109-117 | removal takes the entry's line total off the total |
| Cart.RemoveIncrement | app/sell/page.tsx:75-111 | adding a unit and then removing the product is the same as removing it |
| Cart.TotalNonNegative | app/sell/page.tsx:114-117 | with non-negative prices the total is non-negative, and 0 for the empty cart |
| Cart.RunKeepsValid | app/sell/page.tsx:75-111 | any sequence of add, update and remove keeps one positive entry per product |
| Cart.RunKeepsWithinStock | app/sell/page.tsx:307-334 | while the page's add button is enabled only for available stock, no entry ever wants more than its stock |
| Cart.Lines | app/sell/page.tsx:195-198 | checkout sends one line per entry with its id and wanted quantity |
| Cart.LinesWellFormed | app/sell/page.tsx:195-198 | a reducer-built cart sends lines with distinct ids and positive quantities |
| Cart.CheckoutAgrees | app/sell/page.tsx:194-200 | for such a cart the corrected and the as-written `confirmSale` agree |
| Cart.Search | app/sell/page.tsx:70-72 | the listed products are exactly those whose name contains the query, case ignored |
| Cart.SearchEmpty | app/sell/page.tsx:70-72 | an empty search lists every product in order |
| Cart.SearchIgnoresQueryCase | app/sell/page.tsx:70-72 | the letter case of the query does not change the list |
| SellPage.DefaultNumberNotBlank | app/sell/page.tsx:29 | the pre-filled Swish number passes the blank-number check |
| SellPage.SellPage.constructor | app/sell/page.tsx:23-35 | the initial state values |
| SellPage.SellPage.AddToCart | app/sell/page.tsx:75-91 | the cart becomes `Cart.AddToCart` of the old one; nothing else changes |
| SellPage.SellPage.UpdateQuantity | app/sell/page.tsx:94-106 | the cart becomes `Cart.UpdateQuantity` of the old one; nothing else changes |
| SellPage.SellPage.RemoveFromCart | app/sell/page.tsx:109-111 | the cart becomes `Cart.RemoveFromCart` of the old one; nothing else changes |
| SellPage.SellPage.GenerateSwishQR | app/sell/page.tsx:120-150 | a blank number or an empty cart changes nothing; otherwise, when encoding succeeds, the image is kept, the method becomes Swish and the dialog opens |
| SellPage.SellPage.PayWithAccount | app/sell/page.tsx:153-166 | an empty cart or a balance below the total changes nothing; otherwise the dialog opens for the account |
| SellPage.SellPage.HandleAddFunds | app/sell/page.tsx:169-187 | a field that is not a positive number changes nothing; otherwise the balances change as `Ledger.AddFunds` says and, on success, the balance is re-read, the dialog closes and the field empties |
| SellPage.SellPage.ConfirmPayment | app/sell/page.tsx:190-221 | the tables change as `Sales.Confirm` says; on success the cart empties, the dialog closes, the message shows and the balance is re-read; on failure only `confirming` is reset |
| SellPage.SellPage.Settle | app/sell/page.tsx:202-220 | the screen after the `confirmSale` call, for success and for failure |
| SellPage.Checkout | app/sell/page.tsx:194-200 | the store's outcome and new tables are those of `Sales.Confirm` on the cart's lines |
| AccountPaymentPage.TopUp | app/account-payment/page.tsx:134-137 | a field that is not a number is refused; otherwise success exactly for a positive amount and an existing row, with the balance raised by the amount |
| AccountPaymentPage.TopUpStore | app/account-payment/page.tsx:134-137 | the outcome and the new tables are those of `TopUp` |
| AccountPaymentPage.AccountPaymentPage.constructor | app/account-payment/page.tsx:26-35 | the initial state values, with a fresh QR hook |
| AccountPaymentPage.AccountPaymentPage.AddToCart | app/account-payment/page.tsx:75-89 | the cart becomes `Cart.AddToCart` of the old one; nothing else changes |
| AccountPaymentPage.AccountPaymentPage.UpdateQuantity | app/account-payment/page.tsx:90-102 | the cart becomes `Cart.UpdateQuantity` of the old one; nothing else changes |
| AccountPaymentPage.AccountPaymentPage.RemoveFromCart | app/account-payment/page.tsx:104-106 | the cart becomes `Cart.RemoveFromCart` of the old one; nothing else changes |
| AccountPaymentPage.AccountPaymentPage.InitiatePayment | app/account-payment/page.tsx:108-116 | an empty cart or a balance below the total changes nothing; otherwise the payment dialog opens |
| AccountPaymentPage.AccountPaymentPage.InitiateAddFunds | app/account-payment/page.tsx:118-130 | a field that is not a positive number changes nothing; otherwise the QR image for the shop's number and the amount is generated, and only on success does the top-up dialog open |
| AccountPaymentPage.AccountPaymentPage.HandleConfirm | app/account-payment/page.tsx:132-168 | a top-up changes the balances as `TopUp` says; a payment changes the tables as `Sales.Confirm` with the account says; the screen after each is stated for success and for failure |
| AccountPaymentPage.AccountPaymentPage.ConfirmTopUp | app/account-payment/page.tsx:133-147 | the top-up branch: the tables and the screen after `addFunds` |
| AccountPaymentPage.AccountPaymentPage.ConfirmPurchase | app/account-payment/page.tsx:148-167 | the payment branch: the tables and the screen after `confirmSale` on the account |
| AccountPaymentPage.AccountPaymentPage.CloseModal | app/account-payment/page.tsx:170-173 | the dialog closes and the image is dropped; nothing else changes |
| LegacySellPage.LegacySellPage.constructor | components/Pagination.tsx:30-38 | the initial state values |
| LegacySellPage.LegacySellPage.AddToCart | components/Pagination.tsx:68-84 | the cart becomes `Cart.AddToCart` of the old one; nothing else changes |
| LegacySellPage.LegacySellPage.UpdateQuantity | components/Pagination.tsx:87-99 | the cart becomes `Cart.UpdateQuantity` of the old one; nothing else changes |
| LegacySellPage.LegacySellPage.RemoveFromCart | components/Pagination.tsx:102-104 | the cart becomes `Cart.RemoveFromCart` of the old one; nothing else changes |
| LegacySellPage.LegacySellPage.GenerateSwishQR | components/Pagination.tsx:113-148 | the same guards as the sell page; on encoder success the image is kept and the dialog opens |
| LegacySellPage.LegacySellPage.ConfirmPayment | components/Pagination.tsx:151-180 | `confirmSale` without a method, i.e. Swish: the tables change as `Sales.Confirm` says; on success the cart empties, the dialog closes and the message shows |
| Dashboard.SumsAppend | app/dashboard/page.tsx:24-32 | total items and total value add up over any split of the product list |
| Dashboard.SumsBounds | app/dashboard/page.tsx:24-32 | with no negative stock or price the sums are non-negative and the value is at most the top price times the items |
| Dashboard.CountWhere | app/dashboard/page.tsx:34-40 | a filtered count never exceeds the number of products |
| Dashboard.CategoriesPartition | app/dashboard/page.tsx:34-40 | in-stock, low-stock, out-of-stock and negative counts add up to the number of products |
| Dashboard.Percent | app/dashboard/page.tsx:42-47 | in exact arithmetic, `Math.round(count / total * 100)` is the integer nearest to the percentage, halves rounded up, so it is within half a point of it; 0 when there are no products |
| Dashboard.PercentRange | app/dashboard/page.tsx:42-47 | a part of the whole gets a percentage from 0 to 100 |
| Dashboard.PercentagesOfPartition | app/dashboard/page.tsx:42-47 | three separately rounded percentages of a partition add up to 99, 100 or 101 |
| Dashboard.StockPercentages | app/dashboard/page.tsx:34-47 | the three stock percentages shown add up to 100 within one point |
| Dashboard.StockLevel | app/dashboard/page.tsx:210-215 | red for no stock, amber up to the product's threshold (5 when absent or 0), green above |
| Dashboard.StockLevelMatchesCategories | app/dashboard/page.tsx:34-40 | without its own threshold, a product's colour matches the category it is counted in |
| Dashboard.LowStockAlerts | app/dashboard/page.tsx:13-18 | the alert count is at most the number of products |
| Dashboard.AlertsIgnoreThresholdValue | app/dashboard/page.tsx:13-18 | the alert count depends only on whether a threshold is set, not on its value |
| Dashboard.AlertsAndLevelsDiffer | app/dashboard/page.tsx:13-18 | the alert count and the colour use different thresholds: a product can be amber without an alert, or raise an alert while green |
| Dashboard.WeeklyProducts | app/dashboard/page.tsx:50-75 | the loop over the twelve weeks, oldest first, returns the intended weekly counts `Series` |
| Dashboard.SeriesSum | app/dashboard/page.tsx:50-75 | the intended weeks are contiguous and disjoint: the series sums to the products created from the oldest week's first midnight to the end of the current week |
| Dashboard.AsWrittenMissesMidnight | app/dashboard/page.tsx:53-59 | as written, a product created at today's midnight is counted in no week; the intended series counts it once |
| Statistics.UserSales | app/statistics/page.tsx:25-27 | exactly the sales holding one of the user's products |
| Statistics.UserSalesAppend | app/statistics/page.tsx:25-27 | the filter keeps the order: over two consecutive runs it gives the first run's sales then the second's, and a single sale is kept exactly when it is the user's |
| Statistics.AverageOrderValue | app/statistics/page.tsx:53 | revenue per sale, 0 with no sales |
| Statistics.RevenueGrowth | app/statistics/page.tsx:48 | growth in percent against the previous period, 0 without previous revenue; positive exactly when revenue rose |
| Statistics.SumsAppend | app/statistics/page.tsx:46-52 | revenue and units add up over consecutive runs of sales |
| Statistics.OwnItems | app/statistics/page.tsx:84 | exactly the user's own items are kept: each kept item is the user's, and every item of the user's is kept |
| Statistics.TallyEntry | app/statistics/page.tsx:81-96 | the stats hold an entry exactly for each product among the own items, with all its units and its revenue at each item's price |
| Statistics.ProductStats | app/statistics/page.tsx:81-96 | the nested loops build exactly the tally of the user's own items |
| Statistics.OwnOfUserSales | app/statistics/page.tsx:25-27 | restricting to the user's sales loses none of their items |
| Statistics.SortByUnits | app/statistics/page.tsx:97-98 | most units first, a permutation of the stats |
| Statistics.TopSelling | app/statistics/page.tsx:97-99 | at most five entries, sorted by units |
| Statistics.TopSellingDominates | app/statistics/page.tsx:97-99 | the best sellers come from the stats, and none left out sold more than any shown |
| Statistics.RecentSales | app/statistics/page.tsx:101-106 | the first ten sales, each with its amount and units |
| Statistics.RecentSalesSums | app/statistics/page.tsx:101-106 | the recent list accounts for exactly the units and revenue of the sales it shows |
| Inventory.Query | app/inventory/page.tsx:32 | no parameter gives the empty query; the query is empty exactly for a blank parameter and has no white space at either end |
| Inventory.Filter | app/inventory/page.tsx:35-37 | exactly the products the query selects |
| Inventory.FilterAppend | app/inventory/page.tsx:35-46 | the filter keeps the database order: over two consecutive runs it gives the first run's matches then the second's, and a single product is kept exactly when the query selects it |
| Inventory.BlankQueryShowsAll | app/inventory/page.tsx:32-37 | a blank or missing query lists every product |
| Inventory.QueryIgnoresSurroundingSpace | app/inventory/page.tsx:32 | white space around the query changes nothing |
| Inventory.Page | app/inventory/page.tsx:33 | 1 without a parameter, at least 1 for a number, a number of at least 1 kept as it is, NaN for text that is not a number |
| Inventory.PagesPartition | app/inventory/page.tsx:44-45 | each position of the list is on exactly one page |
| Inventory.PageItems | app/inventory/page.tsx:41-46 | at most ten products, the ones at positions `(page - 1) * 10` onwards, as many as remain |
| Inventory.TotalPages | app/inventory/page.tsx:49 | at least one page, enough pages for every product, and no more than needed |
| Inventory.PagesCoverList | app/inventory/page.tsx:44-49 | every product is on a page from 1 to `totalPages`, and page `totalPages` is never empty unless the list is |
| Inventory.ShowPaginationWhenMoreThanAPage | app/inventory/page.tsx:130 | `totalPages > 1`, the condition for rendering the `Pagination` element, holds exactly when more than ten products match |
| Inventory.AsWrittenFooter | app/inventory/page.tsx:1 | as written, the element below the list is the older sell page, shown exactly when more than ten products match, and never a set of page links |
| Inventory.AsWrittenHidesSecondPage | app/inventory/page.tsx:130-141 | with eleven matches the first page shows ten, there are two pages, and the footer as written is a sell page with no link to the second |
| Inventory.IntendedFooter | app/inventory/page.tsx:130-141 | the footer the props describe: links exactly when more than ten products match, with the current page, `totalPages` and the query |
| Inventory.FooterReachesEveryProduct | app/inventory/page.tsx:41-49 | with the intended footer, every matching product is on a linked page from 1 to `totalPages` |

## Left out

- Rendering. JSX, styling, `alert` messages, the loading flags, the search-box state and the 3-second `setTimeout` that hides the success message are not modelled.
- Re-fetching. The `fetchProducts` reloads are not modelled; `fetchBalance` is modelled as a re-read of the stored balance.
- Authentication. `getCurrentUser` becomes a `user` parameter. `isAdmin` and the API routes are not part of this model.
- Concurrency. Each action runs alone. The reads `confirmSale` makes before its transaction could race with another request; that race is not modelled.
- `revalidatePath` and the console logging are left out, because they only affect caching and logs.
- Floating point. Money is integer öre, so `Number(price) * quantity` and `toFixed(2)` are exact here. Rounding of fractional öre is not modelled.
- Dashboard.Percent: exact rational rounding replaces the page's double arithmetic. Where the exact percentage ends in a half, the double quotient can fall just below it and the page shows one less: 23 of 40 gives 57 on the page and 58 here, 29 of 200 gives 14 and 15. The 0 to 100 range and the 99 to 101 sum still hold of the page.
- Number parsing. `parseFloat` and `Number` on text are not modelled: amounts arrive already parsed, with `None` or `NaN` for text that is not a number.
- AccountPaymentPage.TopUp: a top-up field that is not a number reaches `addFunds` as NaN, which passes its `amount <= 0` check. The model treats the increment as refused by the database, with nothing written, and reports `ValidationFailed`.
- QR images. `QRCode.toDataURL` becomes an `encode` parameter that returns `None` when it throws; the image format is not modelled.
- Letter case. Case-insensitive comparison (`toLowerCase`, the database's `mode: "insensitive"`) is modelled by ASCII lower-casing only; other Unicode case mappings are not modelled.
- Inventory.Filter: the database's case-insensitive `contains` is modelled with the same ASCII lower-casing.
- Inventory.PageItems: defined for whole page numbers. A fractional or NaN `page` gives a fractional or NaN `skip`, which the database refuses; that error is not modelled.
- Statistics.SortByUnits: states sorted order and a permutation, but not that entries with equal units keep their order (JavaScript's sort is stable).
- The statistics page's daily revenue map (app/statistics/page.tsx:55-78) and its date labels are left out, because they are calendar formatting.
- Date windows. The six-month and one-year windows that select sales (app/statistics/page.tsx:9-43) are left to the caller: the sales come in already selected, newest first.
- Recent sales. Their `id` and `createdAt` are not carried.
- Dashboard time. Time is milliseconds on a local clock where every day is exactly 24 hours, so daylight-saving days are not modelled, and `today` is a parameter. The week labels are not modelled.
- Dashboard queries. The dashboard's `recent` query (app/dashboard/page.tsx:77-80) is not modelled; `StockLevel` is stated per product. The page's `count()` of all products is the length of the product list.
- Store.Store.DeleteProduct: sale items that reference the deleted product are kept untouched here. Whether the database cascades the delete to them or refuses it through a foreign key depends on the schema, which is not part of this model, so that behaviour is not modelled.
- Inventory pagination element: the rendered `Pagination` element is modelled only as the footer value (`Inventory.AsWrittenFooter`); the older sell page it renders is not modelled a second time, and pages other than the first are reachable only through the `?page=` parameter.
- Product fetch. The products arrive in the order `/api/products` returns them, by name ascending (app/api/products/route.ts:7). The model accepts any order, and the fetch itself is not modelled.
- components/products-chart.tsx, app/add-product/page.tsx and the other display components only render values computed above, and are not part of this model.

## Findings

| source | as written | input that shows it | evidently intended | confidence | as-written member | corrected member |
|---|---|---|---|---|---|---|
| lib/actions/sales.ts:26-69 | a line's quantity is checked only against its stock, never for its sign | one line of -5 for a product at 15.00 kr with stock 0, paid from an empty account | a quantity that is not positive is refused as invalid | high, not executed | Sales.NegativeQuantityCredits | Sales.ConfirmChecked |
| lib/actions/sales.ts:87-95 | each line sets its product's stock to the stock read before the sale minus that line's quantity, so with two lines for one product only the last counts | two lines of 3 for one product with stock 5 | the stock drops by every unit sold, and the check covers all lines for a product together | high, not executed | Sales.RepeatedLineLosesUnits | Sales.ConfirmChecked |
| app/dashboard/page.tsx:53-59 | the end-of-day time is set on `weekStart` instead of `weekEnd`, so each window runs from the first day's last millisecond to the seventh day's first millisecond | a product created at midnight today | each week counts from its first midnight to the end of its seventh day | high, not executed | Dashboard.AsWrittenMissesMidnight | Dashboard.WeeklyProducts |
| app/inventory/page.tsx:130-141 | the list renders `Pagination`, imported at line 1 as the default export of components/Pagination.tsx, which is the older sell page and takes no props, so no page links appear | more than ten products matching the search | links to pages 1 to `totalPages` for the current query | high, not executed | Inventory.AsWrittenHidesSecondPage | Inventory.FooterReachesEveryProduct |
