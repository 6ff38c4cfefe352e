# A verified model of the 1203oz shop core

1203oz is a small Next.js shop. Signed-in users browse a product catalogue and keep a cart. From the cart they create an order, pay for it, and the payment confirmation marks the order confirmed. Confirmation takes the ordered quantities out of stock and empties the cart.

This project models that workflow in Dafny:

- the cart and order server actions over one in-memory store of four tables: products, cart lines, orders and order items;
- the request schemas those actions and their forms use;
- the catalogue queries: the product listing, featured products, counts per category and lookup by id;
- the pure rules inside four UI components: the page-number strip, the filter bar's query rewriting, the payment order-id hand-off, and the stock badge;
- the category name table.

## Structure

Each state-changing server action is a method on the mutable store `Store.Db`. Its contract ties the result and the new tables to a ghost function of the old ones, for example `CartActions.AfterAdd` or `OrderActions.AfterStatusUpdate`. It also keeps the store invariant `Store.Consistent`, which says:

- stock is never negative;
- a user has at most one cart line per product;
- every order has at least one item, no two items name the same product, and its total is Σ price × quantity over those items;
- timestamps are distinct and below the clock.

The lemmas beside each ghost function state what the action promises.

Other parts of the model:

- **Loops** are methods whose invariants tie them to a reference function: the order re-check loop, the stock loop, the category count and the page-number pushes.
- **The query-string object** is a class `SearchParams.Params` that the filter bar and the pagination change with `set` and `delete`.
- **Pure rules** (validators, sorting, paging arithmetic) are functions, with lemmas relating them to independent definitions.

Inputs that the source takes from outside become parameters:

- **The caller.** `auth()` becomes an optional caller id.
- **New ids.** Ids the database would generate are passed in as fresh parameters.
- **Database failures.** Three are modelled:
  - whether the order-items insert in createOrder fails, as a boolean;
  - whether the category-count query fails, as a boolean;
  - the error code the product lookup by id reports, if any.
- **`created_at`.** Timestamps are positions on the store's clock.

## Model

| member | source | states |
|---|---|---|
| CartActions.AddRejectsUnavailableProduct | actions/cart.ts:49-62 | a missing, inactive or under-stocked product fails with that error and leaves every table unchanged |
| CartActions.AddToExistingLine | actions/cart.ts:64-90 | with an existing line, the add succeeds iff line + requested ≤ stock; success raises exactly that line by the requested amount; failure changes nothing; the set of the caller's lines never changes (no second line) |
| CartActions.AddInsertsOneLine | actions/cart.ts:91-105 | with no line for the product, exactly one new line is inserted, owned by the caller with the requested quantity, and the caller's line count grows by one |
| CartActions.AddKeepsLineWithinStock | actions/cart.ts:57-62 | after a successful add, the caller has a line for the product and every such line holds no more than the product's stock |
| CartActions.AddKeepsConsistent | actions/cart.ts:34-115 | addToCart preserves the store invariant (one line per product and user, distinct timestamps below the clock) |
| CartActions.AddToCart | actions/cart.ts:34-115 | the method's result and new tables are exactly the specified effect, and the invariant holds afterwards |
| CartActions.UpdateRejectsNonPositive | actions/cart.ts:127-129 | a quantity ≤ 0 fails with the invalid-quantity error for every caller and line, and nothing changes |
| CartActions.UpdateTouchesOnlyOwnLine | actions/cart.ts:135-172 | success means the line is the caller's, its product exists and 1 ≤ quantity ≤ stock; only that line's quantity changes, and it is set exactly; failure changes nothing; another user's or a missing line reads as not found |
| CartActions.UpdateKeepsConsistent | actions/cart.ts:122-187 | updateCartItemQuantity preserves the store invariant |
| CartActions.UpdateCartItemQuantity | actions/cart.ts:122-187 | the method equals the specified effect and keeps the invariant |
| CartActions.RemoveIsScopedAndIdempotent | actions/cart.ts:200-211 | removal always succeeds for a signed-in caller; it deletes the id only when the line is the caller's; every other row and table is kept; removing again changes nothing |
| CartActions.RemoveKeepsConsistent | actions/cart.ts:193-219 | removeFromCart preserves the store invariant |
| CartActions.RemoveFromCart | actions/cart.ts:193-219 | the method equals the specified effect and keeps the invariant |
| CartActions.CartLinesAreCallersLinesNewestFirst | actions/cart.ts:229-238 | the listing holds each of the caller's lines exactly once, nobody else's, and timestamps never increase along it |
| CartActions.CartListingJoinsCartLines | actions/cart.ts:224-254 | without a caller the listing is empty; otherwise entry i is the caller's i-th line joined with its current product, or with nothing when the product is gone |
| CartActions.GetCartItems | actions/cart.ts:224-254 | the method returns exactly the specified listing |
| CartActions.ListCart | actions/cart.ts:229-238 | ordering the caller's lines newest first and joining each with its product yields the specified listing |
| CartActions.GetCartSummary | actions/cart.ts:259-282 | the summary is the two folds over the caller's listing, or all zeros when a listed line's product is gone |
| CartActions.LineCountAtMostTotalItems | actions/cart.ts:263-267 | when every line holds at least one unit, the line count (getCartItemCount) is at most the unit total (totalItems) |
| CartActions.GetCartItemCount | actions/cart.ts:287-307 | the count is the number of the caller's lines, not their quantities, and 0 without a caller |
| Store.LineFor | actions/cart.ts:65-70 | the lookup finds the caller's line for the product when there is one, and reports none exactly when no such line exists |
| Store.Join | actions/cart.ts:231-235 | the join keeps the line and attaches the product exactly when its row exists |
| Store.LineForUnique | actions/cart.ts:65-70 | with one line per product, the lookup returns that very line |
| OrderValidation.Validate | lib/validations/order.ts:35-38 | a request is accepted iff every field rule holds; on acceptance the request is returned as is; otherwise the first issue in field order is reported |
| OrderValidation.NameIssues | lib/validations/order.ts:14 | the name passes iff 1 ≤ its length ≤ 50 |
| OrderValidation.PhoneIssues | lib/validations/order.ts:15-19 | the phone passes iff it is 1 to 20 characters, all digits or '-'; empty reports the missing value first |
| OrderValidation.PostalCodeIssues | lib/validations/order.ts:20-24 | the postal code passes iff it is 1 to 10 characters, all digits or '-'; empty reports the missing value first |
| OrderValidation.AddressLineIssues | lib/validations/order.ts:25-28 | the address passes iff 1 ≤ its length ≤ 200 |
| OrderValidation.AddressDetailIssues | lib/validations/order.ts:29 | the detail passes iff it is absent or at most 200 characters |
| OrderValidation.OrderNoteIssues | lib/validations/order.ts:37 | the note passes iff it is absent or at most 500 characters |
| OrderValidation.MatchesDigitsOrHyphensExactly | lib/validations/order.ts:18 | the character-by-character matcher for `^[0-9-]+$` holds iff the string is non-empty and every character is a digit or '-' |
| OrderValidation.NameReportedFirst | lib/validations/order.ts:13-14 | a bad name is reported whatever else is wrong, as empty or as too long |
| OrderValidation.EmptyPhoneReportsEmpty | lib/validations/order.ts:15-19 | an empty phone reports the missing-value issue, not the format issue that also fails |
| OrderValidation.NoteReportedLast | lib/validations/order.ts:35-38 | a too-long note is reported only once the whole address is valid |
| CartValidation.QuantityIssues | lib/validations/cart.ts:15-19 | a quantity passes iff it is a whole number from 1 to 999 |
| CartValidation.ValidateAddToCart | lib/validations/cart.ts:13-20 | accepted iff the product id has UUID form and the quantity is a whole number in 1..999; a malformed id is the first issue |
| CartValidation.ValidateUpdateQuantity | lib/validations/cart.ts:25-32 | accepted iff the cart-line id has UUID form and the quantity is a whole number in 1..999; a malformed id is the first issue |
| CartValidation.QuantityBoundaries | lib/validations/cart.ts:18-19 | both schemas accept 1 and 999 and reject 0, 1000 and 1.5, each with its own issue |
| CartValidation.SchemasAgreeOnQuantity | lib/validations/cart.ts:27-31 | the update schema's quantity rule is the add schema's, for every quantity |
| CartValidation.SampleUuidAccepted | lib/validations/cart.ts:14 | a hyphenated 36-character id is accepted and the same digits without hyphens are not |
| OrderActions.CheckCartLines | actions/orders.ts:64-110 | the loop returns the first failing line's error or one order item per line, and the running total is Σ price × quantity of those items |
| OrderActions.SnapshotSucceedsExactly | actions/orders.ts:73-109 | the re-check succeeds iff every line passes, and then yields exactly one item per line, in cart order |
| OrderActions.SnapshotFirstFailure | actions/orders.ts:73-99 | the first line that fails decides the error |
| OrderActions.SnapshotKeepsFirstError | actions/orders.ts:80-99 | once a prefix of the lines has failed, the loop returns that error |
| OrderActions.SnapshotTotalIsCartAmount | actions/orders.ts:101-102 | Σ price × quantity over the order items equals the cart summary's amount over the same lines |
| OrderActions.CreateRejectsBadRequestOrEmptyCart | actions/orders.ts:43-62 | an invalid request, a missing caller or an empty cart fails with that error, in that order, and no table changes |
| OrderActions.CreateRejectsUnavailableLine | actions/orders.ts:73-99 | if some line's product is missing, inactive or short of stock, the first such line's error is returned and no order or item exists afterwards |
| OrderActions.CreateItemsFailureChangesNothing | actions/orders.ts:139-148 | a refused order-items insert fails and leaves all tables as before, with no order left without items |
| OrderActions.CreatedOnlyFromAvailableCart | actions/orders.ts:43-153 | a created order implies a valid request, a non-empty cart whose every line passed, and a successful insert, with exactly the specified new tables |
| OrderActions.CreateFromAvailableCart | actions/orders.ts:43-153 | conversely, a valid request over a non-empty cart whose every line passes creates the order |
| OrderActions.CreateDecidedBySnapshot | actions/orders.ts:73-153 | once validation and the cart pass, the loop's outcome and the insert flag alone decide the result |
| OrderActions.CreatedOrderIsPendingAndLeavesStockAndCart | actions/orders.ts:113-153 | a created order is pending, is the caller's, keeps the address and the note (an empty note stored as none), and totals its items; stock, the cart and other orders are unchanged |
| OrderActions.CreatedOrderItemsSnapshotCart | actions/orders.ts:104-109 | there is one item per cart line, in cart order, with the product's id, name and price read at creation and the line's quantity; each product was active with enough stock |
| OrderActions.CreatedOrderTotalIsCartAmount | actions/orders.ts:113-121 | the created order's total equals the amount the cart summary showed for the same cart |
| OrderActions.CreateKeepsConsistent | actions/orders.ts:38-161 | createOrder preserves the store invariant (every order has items and a matching total) |
| OrderActions.CreatedOrderHasDistinctProducts | actions/orders.ts:73-112 | an order createOrder makes names each product at most once, because its items follow the caller's cart lines and a user has one line per product |
| OrderActions.OrderAddKeepsConsistent | actions/orders.ts:113-141 | adding an order with its non-empty, summed items, one per product, under a fresh id and a new stamp keeps the invariant |
| OrderActions.InsertOrder | actions/orders.ts:113-148 | the order insert followed by the items insert yields the new tables; a refused items insert deletes the order, restoring the old state |
| OrderActions.CreateOrder | actions/orders.ts:38-161 | the method equals the specified effect and keeps the invariant |
| OrderActions.StoredNote | actions/orders.ts:120 | an absent or empty note is stored as none; any other note is kept |
| OrderActions.OrderListingIsCallersOrdersNewestFirst | actions/orders.ts:171-175 | the listing holds each of the caller's orders exactly once, nobody else's, with non-increasing creation times |
| OrderActions.GetOrders | actions/orders.ts:166-187 | the method returns exactly the specified listing, empty without a caller |
| OrderActions.OrderById | actions/orders.ts:193-232 | an order is returned iff it exists and is the caller's, with its items in stored order (ties on `created_at` left open, see Left out) and a total equal to their sum |
| OrderActions.ClearCart | actions/orders.ts:299 | the caller is left with no lines; every other user's line is kept unchanged |
| OrderActions.DecrementStockKeepsProducts | actions/orders.ts:281-295 | the stock loop keeps the product keys, every row except its stock, and stock never negative |
| OrderActions.DecrementStockTakesOrderedQuantity | actions/orders.ts:288-293 | with non-negative quantities, each product ends at max(0, stock − the quantity ordered of it) |
| OrderActions.DecrementStockTakesEachOnce | actions/orders.ts:281-294 | when no two items name the same product, each product ends at max(0, stock − the quantity ordered of it), whatever the quantities' sign |
| OrderActions.DecrementStockSkipsOthers | actions/orders.ts:281-295 | a product that no item names keeps its row |
| OrderActions.StatusUpdateIsScoped | actions/orders.ts:248-257 | a missing order or another user's order is not found, and nothing changes |
| OrderActions.StatusUpdateWritesAnyStatus | actions/orders.ts:260-264 | on the caller's own order any status is written, with no transition check; outside the pending→confirmed edge, only the status changes |
| OrderActions.ConfirmTakesStockAndClearsCart | actions/orders.ts:272-300 | in any consistent store, with no condition on the quantities: confirming a pending order sets it confirmed, floors each ordered product at max(0, stock − ordered quantity), keeps the product set, and deletes all of the caller's cart lines but no one else's |
| OrderActions.ConfirmTwiceChangesNothing | actions/orders.ts:272 | confirming an already confirmed order again changes no table |
| OrderActions.StatusUpdateKeepsConsistent | actions/orders.ts:239-310 | updateOrderStatus preserves the store invariant |
| OrderActions.ClearCartKeepsCartOk | actions/orders.ts:299 | deleting a user's lines keeps the cart invariant |
| OrderActions.TakeOrderedStock | actions/orders.ts:281-295 | the loop leaves the products as the reference stock fold and touches no other table |
| OrderActions.UpdateOrderStatus | actions/orders.ts:239-310 | the method equals the specified effect and keeps the invariant |
| Catalog.Filter | actions/products.ts:34-47 | a product is listed iff it is an active row that matches the category (when given) and the search (when given), and no row is repeated more often than stored |
| Catalog.OccursExactly | actions/products.ts:45-47 | the substring test holds iff the search text sits at some position of the name |
| Catalog.LowerString | actions/products.ts:46 | case folding keeps the length and folds each character |
| Catalog.Window | actions/products.ts:66-69 | the range holds at most to − from + 1 rows and, from a non-negative start, is exactly the rows from `from` on that exist up to `to` |
| Catalog.TotalPagesIsCeiling | actions/products.ts:79 | for a positive limit, the page count is the least number of pages that holds every row (0 for no rows) |
| Catalog.PageSizeAndRange | actions/products.ts:66-69 | a page holds at most `limit` rows and is non-empty exactly for pages 1 through the page count |
| Catalog.ConsecutivePagesAreAdjacent | actions/products.ts:66-69 | pages p and p + 1 together are the window over both: adjacent and disjoint |
| Catalog.GetProductsDefaults | actions/products.ts:25-31 | with no parameters: page 1, limit 12, newest first |
| Catalog.GetProductsCounts | actions/products.ts:71-86 | a page holds at most `limit` products, the total counts every match, and the page count follows from the total |
| Catalog.GetProductsPageIsSlice | actions/products.ts:66-69 | the page is the slice of the ordered matches that starts at (page − 1) · limit |
| Catalog.GetProductsPageMatches | actions/products.ts:34-64 | every listed product is an active matching row, and the page is in the requested order |
| Catalog.EmptyFilterTextIsIgnored | actions/products.ts:40-47 | an empty category or search is no filter at all |
| Catalog.WindowOfSorted | actions/products.ts:66-69 | cutting a window out of an ordered sequence keeps it ordered and adds no elements |
| Catalog.FeaturedAreActiveNewestFirst | actions/products.ts:134-139 | at most `limit` products, all active rows, newest first |
| Catalog.FeaturedLeaveOutNoNewer | actions/products.ts:134-139 | no active product left out is newer than one shown |
| Catalog.CategoryKey | actions/products.ts:175 | the key is "uncategorized" exactly for a null or empty category, or for the category "uncategorized" itself |
| Catalog.CountByCategory | actions/products.ts:157-184 | a failed query gives an empty map; otherwise the loop's counts are the corrected tally over the active rows (see Findings) |
| Catalog.CategoryCountsAddUp | actions/products.ts:173-177 | for the corrected tally: each counted key's count equals the number of active rows under it and is at least one, and the counts add up to the number of active rows |
| Catalog.TallyKeys | actions/products.ts:173-177 | the corrected tally has a key for exactly the categories that occur |
| Catalog.TallySum | actions/products.ts:173-177 | the corrected counts add up to the number of rows |
| Catalog.BumpAsWritten | actions/products.ts:176 | one step on a plain object: "__proto__" is never stored; any other key is set and nothing else changes; a new key that names no inherited member starts at 1; a numeric count goes up by one |
| Catalog.CountsAgreeOffPrototype | actions/products.ts:173-177 | when no active row's key names an inherited member, the loop as written yields exactly the corrected counts, so the lemmas above hold of the source there |
| Catalog.ConstructorCategoryCountIsText | actions/products.ts:176 | one "constructor" product: the source stores the text "function Object() { [native code] }1" where the corrected count is 1 |
| Catalog.ConstructorCategoryCountedTwice | actions/products.ts:176 | two "constructor" products: the source's text grows to "…}11" where the corrected count is 2 |
| Catalog.ProtoCategoryUncounted | actions/products.ts:176 | one "__proto__" product: the source's counts are empty, so they no longer add up to the one row the corrected sum counts |
| Catalog.ProductById | actions/products.ts:99-123 | the no-row code gives none, any other error an error with the load-failure message, and otherwise the row whatever its active flag |
| ProductSort.SortKeyOf | actions/products.ts:50-64 | "price_asc", "price_desc" and "name_asc" pick their order, and every other value means newest first |
| ProductSort.BeforeIsStrictWeakOrder | actions/products.ts:50-64 | each requested order is irreflexive, asymmetric and negatively transitive |
| ProductSort.SortBySortsAndPermutes | actions/products.ts:50-64 | the reference sort returns the same products, in the requested order |
| ProductSort.InsertKeepsSorted | actions/products.ts:50-64 | inserting into an ordered sequence keeps it ordered |
| Pagination.GetPageNumbers | components/pagination.tsx:37-71 | the pushes produce exactly the specified strip |
| Pagination.PushRange | components/pagination.tsx:43-45 | the loop appends the numbers a through b, in order |
| Pagination.PushHead | components/pagination.tsx:51-56 | pushes page 1, plus an ellipsis when the window starts after page 2 |
| Pagination.PushTail | components/pagination.tsx:62-67 | pushes an ellipsis when the window ends before the second-to-last page, then the last page |
| Pagination.Range | components/pagination.tsx:58-60 | the run a..b has max(0, b − a + 1) entries and entry k is a + k |
| Pagination.FewPagesAllShown | components/pagination.tsx:41-45 | with at most five pages the strip is exactly 1, 2, …, totalPages with no ellipsis |
| Pagination.NumbersIncreaseWithinRange | components/pagination.tsx:41-67 | for any inputs the numbers strictly increase and lie between 1 and totalPages |
| Pagination.AtMostNineEntries | components/pagination.tsx:41-70 | the strip never has more than nine entries |
| Pagination.WindowShown | components/pagination.tsx:48-67 | for a current page in range: the strip starts at 1, ends at totalPages, shows the current page and the whole window around it |
| Pagination.EllipsisExactlyAtGaps | components/pagination.tsx:53-55 | for a current page in range: neighbouring numbers are consecutive, and an ellipsis stands exactly between two numbers more than one apart |
| Pagination.GoToPage | components/pagination.tsx:28-34 | a page outside 1..totalPages does nothing; any other page navigates to the listing with "page" set to it and every other parameter kept |
| SearchParams.GetParamFindsPair | components/pagination.tsx:31-32 | `get` finds nothing iff no pair has the name, and otherwise the value of such a pair |
| SearchParams.RemoveAll | components/product-filters.tsx:51 | `delete` keeps exactly the pairs of other names |
| SearchParams.SetThenGet | components/product-filters.tsx:44 | after `set`, the name reads back the value |
| SearchParams.SetLeavesOnePair | components/product-filters.tsx:44 | after `set`, the name occurs at most once |
| SearchParams.SetKeepsOthers | components/product-filters.tsx:44 | `set` leaves every other name reading as before |
| SearchParams.DeleteThenGet | components/product-filters.tsx:51 | after `delete`, the name is gone |
| SearchParams.RemoveKeepsOthers | components/product-filters.tsx:51 | `delete` leaves every other name reading as before |
| SearchParams.Params.Set | components/product-filters.tsx:44 | the object's pairs become the specified `set` result, and the name reads back the value |
| SearchParams.Params.Delete | components/product-filters.tsx:51 | the object's pairs become the specified `delete` result, and the name reads as absent |
| ProductFilters.Updated | components/product-filters.tsx:48-64 | a truthy value is read back, `null` reads as absent, and an unmentioned field keeps its value |
| ProductFilters.ApplyField | components/product-filters.tsx:48-52 | one set-or-delete step changes only its own parameter, as specified |
| ProductFilters.ResetPage | components/product-filters.tsx:43-45 | "page" becomes "1" iff the category or the sort is mentioned (also as `null`); every other parameter is kept |
| ProductFilters.ApplyUpdates | components/product-filters.tsx:48-64 | category, sort and search each read as specified after the three steps; every other parameter is kept |
| ProductFilters.UpdateParams | components/product-filters.tsx:38-68 | navigates to the listing with the page reset, each mentioned field set or deleted (an empty search also deletes), and every other parameter kept |
| ProductFilters.ComposeSteps | components/product-filters.tsx:40-64 | the page step followed by the field steps gives the combined effect, parameter by parameter |
| ProductFilters.FilterBar.HandleSearch | components/product-filters.tsx:70-73 | the box's text is set as the search, an empty box deletes it, and no other parameter (the page included) changes |
| ProductFilters.FilterBar.ClearFilters | components/product-filters.tsx:75-78 | the box is emptied and the listing opens with no parameters at all |
| ProductFilters.FilterBar.HasActiveFilters | components/product-filters.tsx:80-81 | a non-empty sort always makes it true, and it holds only when a category, a sort or a search is given |
| ProductFilters.ListingPageParams | app/products/page.tsx:28-33 | an empty category or search is dropped, the sort is the given one or "latest", and the page number is passed on |
| ProductFilters.ListingPageFiltersAlwaysActive | app/products/page.tsx:31 | a filter bar opened by the listing page always has active filters, since its sort is never empty |
| ProductFilters.FilterBar.constructor | components/product-filters.tsx:34-36 | the search box starts with the current search, or empty |
| Payment.StripOrderPrefix | components/payment-success-content.tsx:45-47 | an id starting with "order-" loses exactly that leading prefix; any other id passes through unchanged |
| Payment.ReplaceFirstReplacesLeftmost | components/payment-success-content.tsx:46 | the string `replace` replaces the leftmost occurrence only |
| Payment.ReplaceFirstWithoutOccurrence | components/payment-success-content.tsx:46 | without an occurrence, `replace` keeps the string |
| Payment.StripInvertsPrefix | components/payment-page-content.tsx:25 | stripping undoes the prefixing for every order id, even one that itself starts with "order-" |
| Payment.DetailHrefNamesPaidOrder | components/payment-success-content.tsx:135-140 | the detail link opens the order the payment was made for |
| Payment.ErrorTextIsActionMessage | components/payment-success-content.tsx:56 | every failure carries a non-empty message, so the fallback text is never shown |
| Payment.PaymentSuccess.ProcessPayment | components/payment-success-content.tsx:37-66 | without an id: the no-order error and no update; otherwise only the stripped id is confirmed, success sets the flag, failure sets the error; processing ends either way |
| Payment.PaymentSuccess.constructor | components/payment-success-content.tsx:31-33 | the page starts processing, without success and without an error |
| Format.GetStockStatus | lib/utils/format.ts:31-42 | exactly 0 is sold out/destructive, any other stock below 10 (negatives too) is low/warning, 10 or more in stock/default; the text goes with the variant |
| Format.MoreStockNeverWorse | lib/utils/format.ts:31-42 | for non-negative stock, more stock never shows a worse badge |
| Format.NegativeStockIsLow | lib/utils/format.ts:35-40 | a negative stock shows low stock, not sold out |
| Categories.OwnName | constants/categories.ts:11-19 | a code has an own entry iff it is one of the table's codes, and then the entry's name |
| Categories.CategoryList | constants/categories.ts:34-37 | the list has one code/name record per table entry, in declaration order |
| Categories.CategoryListIsTheTable | constants/categories.ts:11-19 | the list is the seven categories in order, with distinct codes and non-empty names |
| Categories.CategoryName | constants/categories.ts:26-29 | the corrected lookup (see Findings): a null or empty code gives "미분류", a known code its name, and any other code itself |
| Categories.CategoryNameOfKnownCode | constants/categories.ts:28 | each table code gets its own name, and no code is ever shown as an empty name |
| Categories.CategoryNameAsWritten | constants/categories.ts:26-29 | the lookup as written: the result is no string exactly when the code names a member every object inherits |
| Categories.TableCodesNotInherited | constants/categories.ts:11-19 | none of the seven codes is the name of an inherited member |
| Categories.ConstructorCodeYieldsNoString | constants/categories.ts:28 | the code "constructor" yields the inherited `Object` function, not a string |
| Categories.AsWrittenAgreesOffPrototype | constants/categories.ts:26-29 | apart from the inherited member names, the code as written gives the corrected name |
| NumberText.DigitsOfRoundTrip | components/pagination.tsx:32 | the decimal text of a number reads back as that number |

## Left out

- The Supabase client, Clerk's `auth()` and the payment widget are foreign calls. The store is a value with a mutable wrapper, and the caller is a parameter.
- Ids generated by the database are parameters that the caller guarantees fresh. Timestamps are positions on a clock in the store.
- Database failures are modelled only for the order-items insert in createOrder, the category-count query and the product lookup by id. Not modelled: the product lookup and the cart update/insert/delete errors in the cart actions, the order insert, the status update, the order-item and stock queries in updateOrderStatus, and the count and range errors of the listing queries.
- CartActions.AfterAdd: addToCart itself does not check that the quantity is at least 1. The model keeps that; the schema in `CartValidation` is separate, as in the source.
- OrderActions.Message: a cart line whose product row is gone is modelled as the TypeError text the engine produces on reading `name` of `null`. The exact engine wording is outside the model.
- Numbers are integers. Prices, quantities and stock are not floats, so NaN and fractional stock are not modelled; the quantity schemas take `real` for their "integer" check.
- Catalog.NameContains: the model treats `%` and `_` in the search text as plain characters, where `ilike` treats them as wildcards. It folds case on ASCII letters only.
- ProductSort.SortBy: names compare by code point rather than by database collation. Rows with equal keys keep their storage order, where the database leaves their order open.
- Catalog.FeaturedProducts: the limit is a natural number. A negative `.limit()` is not modelled.
- Catalog.Window: a range that starts past the last row gives an empty page. PostgREST may report an error there.
- Catalog.GetProducts: a page number below 1 (reachable from `?page=0` or `?page=-1`) makes the source request a negative offset. The database then either refuses it, and getProducts throws its load-failure error, or returns the first `limit` rows. The model returns an empty page, and its lemmas speak only of page numbers of at least 1.
- Catalog.CountByCategory: computes the corrected counts. The source's loop runs on a plain object, where a category named after an inherited member ("constructor", "toString", "__proto__", …) gets a text value or no key. That loop is `Catalog.TallyAsWritten` (see Findings).
- CategoryCountsAddUp, with TallyKeys and TallySum: these hold of the corrected counts. They hold of the source only when no active category names an inherited member (`Catalog.CountsAgreeOffPrototype`). A "__proto__" category gets no key and a "constructor" category a text count (`Catalog.ProtoCategoryUncounted`, `Catalog.ConstructorCategoryCountIsText`).
- TallyKeys: a "__proto__" category has a key in the corrected tally but none in the source.
- TallySum: a "constructor" category's count is a text in the source, so the sum holds only for the corrected counts.
- ProductFilters.ListingPageParams: the page number comes in already parsed. `parseInt` and its NaN result are not modelled.
- OrderActions.OrderById: items come in the order the model stored them. The source orders them by `created_at`, and one batch insert gives them equal timestamps, so their order among themselves is left to the database.
- CartValidation.IsUuid: accepts any hex digits in UUID layout. The exact version and variant checks of the schema library's UUID pattern are not modelled.
- OrderValidation: lengths count characters, where the schema library counts UTF-16 code units. Fields are strings; non-string input is not modelled.
- SearchParams.Params: the query is a list of name-value pairs. Percent-encoding and serialization of the URL are not modelled.
- Payment.PaymentSuccess.ProcessPayment: the `catch` branch for a thrown exception and the toasts are not modelled. The status update reports every failure as a result.
- Concurrency between requests, logging, and the rendering of components are out of scope.
- formatPrice, formatPriceNumber and formatDate depend on locale formatting and are not modelled.

## Findings

| source | as written | input that shows it | evidently intended | confidence | as-written member | corrected member |
|---|---|---|---|---|---|---|
| constants/categories.ts:28 | the name lookup `CATEGORIES[categoryCode]`, with the code itself as fallback, reads a plain object literal, which also sees the members every object inherits | the code "constructor" (also "toString", "valueOf", …) yields the inherited function instead of a string | a code that is not one of the seven categories is returned unchanged | not executed | Categories.CategoryNameAsWritten, Categories.ConstructorCodeYieldsNoString | Categories.CategoryName |
| actions/products.ts:176 | the count update reads and writes a plain `{}`, so a key also sees the members every object inherits, and a string written to "__proto__" is dropped | an active product with category "constructor" is counted as the text "function Object() { [native code] }1"; one with category "__proto__" is not counted at all | one numeric count per category, adding up to the number of active products | not executed | Catalog.TallyAsWritten, Catalog.ConstructorCategoryCountIsText, Catalog.ProtoCategoryUncounted | Catalog.Tally, Catalog.CountByCategory |
