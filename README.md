# Bookstore core in Dafny

This project models the logic of a small online bookstore:

- **In-memory store** (`MockDataStore`). It keeps the books and orders and hands out ids from two counters. Books get the numerals `1`, `2`, …; orders get `mock-1`, `mock-2`, ….
  - Reads return copies sorted newest first.
  - Updates and deletes look books and orders up by id.
  - Customer profiles are folded out of the orders on request, grouped by lower-cased delivery e-mail.
- **Seed catalogue** (`MockData`). The eight books the store starts from, and the two legacy lookups over them.
- **Shopping cart** (`CartContext`). A list of lines, one per book, each with a quantity. It supports add, remove, set-quantity and clear, plus the cart total and item count.
- **Admin sign-up form** (`AdminSignup`). It seeds a default admin account when none is stored. On submit it runs its checks in order and appends the new account.
- **Delivery-information schema** (`Schemas`). Its per-field checks, the zip-code pattern `^\d{5}(?:[-\s]\d{4})?$` as a small automaton, and the issues a failed parse reports.
- **Storefront search** (`Storefront`). A case-insensitive title/author filter.

Supporting modules:

- `Sequences`: the array operations `filter`, `findIndex`, `find`, a summing `reduce` and a stable sort by a numeric key, with their lemmas.
- `Text`: ASCII `toLowerCase`, `includes`, and the decimal numerals of ids.
- `Types`: the entities.
- `Wrappers`: `Option`.

Modelling conventions:

- **Prices are integer cents.** For example, 15.99 is `1599`.
- **Timestamps are integer milliseconds.**
- **The clock is a parameter.** Every operation that calls `Date.now()` takes `now` instead. The seed's timestamps are offsets from a `loadTime` argument.
- **State that changes in place is a class.**
  - `MockStore` holds the store's arrays and counters.
  - `Cart` holds the cart provider's `cartItems` state.
  - `SignupForm` holds the form's `mounted` flag and the stored admin list.
- **Values computed with `filter`, `map`, `find` or `reduce` are functions.**

A profile's `name` changes only when an order is strictly later than the latest date so far (src/lib/mockDataStore.ts:117-119). Among several orders at the latest date, the first one's name is kept, and `Summarises` states this.

## Model

| member | source | states |
|---|---|---|
| MockData.MockBookIds | src/lib/mockData.ts:5-86 | the seed holds exactly 8 books, and the i-th has id `String(i+1)` |
| MockData.MockBooks | src/lib/mockData.ts:5-86 | the seed has 8 books, each with both timestamps, created no later than it was updated and before load time |
| MockData.MockBookIdsDistinct | src/lib/mockData.ts:5-86 | no two seed books share an id |
| MockData.MockBookPricesPositive | src/lib/mockData.ts:5-86 | every seed price is positive |
| MockData.GetBookByIdLegacy | src/lib/mockData.ts:92-94 | the result is a seed book with that id; it is absent exactly when no seed book has that id |
| MockData.GetAllBookTitlesLegacy | src/lib/mockData.ts:97-99 | one title per seed book, in seed order |
| MockDataStore.MockStore.constructor | src/lib/mockDataStore.ts:6-9 | the store starts as the seed with no orders, book counter 9 and order counter 1, and every id is below its counter and unique |
| MockDataStore.MockStore.GetBooks | src/lib/mockDataStore.ts:12-14 | a permutation of the books, sorted by creation time descending (missing time as 0), books with equal times in store order |
| MockDataStore.MockStore.GetBookById | src/lib/mockDataStore.ts:16-18 | a stored book with that id; absent exactly when no book has it |
| MockDataStore.MockStore.AddBook | src/lib/mockDataStore.ts:20-30 | appends the input under id `String(nextBookId)`, stamped `now`; the id differs from every stored id; the counter advances by one and the id invariant is kept |
| MockDataStore.NextBookIdFresh | src/lib/mockDataStore.ts:23 | an id issued below the counter is never the counter's next numeral |
| MockDataStore.MockBooksIssued | src/lib/mockDataStore.ts:6-8 | every seed id is a numeral below the counter's start `books.length + 1` |
| MockDataStore.MergedBook | src/lib/mockDataStore.ts:37-42 | the merged book keeps id and creation time and takes `now` as update time; each of title, author, description, cover image and price takes the given value and keeps the old one when absent; an empty patch changes only the update time |
| MockDataStore.MockStore.UpdateBook | src/lib/mockDataStore.ts:32-45 | none and no change exactly when no book has the id; otherwise the first such book is replaced in place by the merge, and nothing else changes |
| MockDataStore.MockStore.DeleteBook | src/lib/mockDataStore.ts:47-51 | the books become those without that id, in order; returns true exactly when some book had the id |
| MockDataStore.MockStore.GetAllBookTitles | src/lib/mockDataStore.ts:53-55 | one title per book, in store order |
| MockDataStore.MockStore.GetOrders | src/lib/mockDataStore.ts:58-60 | a permutation of the orders, sorted by order date descending, equal dates in store order |
| MockDataStore.MockStore.GetOrderById | src/lib/mockDataStore.ts:62-64 | a stored order with that id; absent exactly when no order has it |
| MockDataStore.MockStore.CreateOrder | src/lib/mockDataStore.ts:66-76 | appends the order under `mock-${nextOrderId}`, dated `now`, status Pending unless one is given; the id is new; the counter advances |
| MockDataStore.NextOrderIdFresh | src/lib/mockDataStore.ts:69 | an order id issued below the counter is never the next `mock-` id |
| MockDataStore.MockStore.UpdateOrderStatus | src/lib/mockDataStore.ts:78-86 | none and no change exactly when no order has the id; otherwise the first such order gets the status and update time `now`, and nothing else changes |
| MockDataStore.MockStore.CustomerProfiles | src/lib/mockDataStore.ts:89-124 | one profile per lower-cased e-mail among orders with an e-mail, with distinct ids; each summarises exactly that customer's orders (count, total, earliest and latest date, first e-mail spelling, name on the first order at the latest date); sorted by latest order descending |
| MockDataStore.FoldOrder | src/lib/mockDataStore.ts:92-121 | one step of the fold keeps the map a summary of the orders seen so far, with its keys listed once in first-seen order |
| MockDataStore.SummaryDetermined | src/lib/mockDataStore.ts:98-120 | two profiles that summarise the same customer's orders are equal, so the fold's result is the only possible one |
| MockDataStore.SummaryStarts | src/lib/mockDataStore.ts:98-108 | the profile opened by a customer's first order, counted once, summarises that one order |
| MockDataStore.SummaryExtends | src/lib/mockDataStore.ts:110-120 | the fold's field updates for one more order of the customer give a summary of the longer order list |
| MockDataStore.FoldSkip | src/lib/mockDataStore.ts:93 | an order without an e-mail leaves keys and summaries valid for the longer prefix |
| MockDataStore.FoldAbsorb | src/lib/mockDataStore.ts:110-120 | updating a known customer's profile keeps keys and summaries valid |
| MockDataStore.FoldOpen | src/lib/mockDataStore.ts:98-108 | opening a new customer's profile adds the key once and keeps every summary valid |
| MockDataStore.CustomerEmailsSnoc | src/lib/mockDataStore.ts:93-95 | one more order adds its lower-cased e-mail to the set of customers, if it has one |
| MockDataStore.OrdersOfOutsider | src/lib/mockDataStore.ts:98 | a customer not yet in the map has no orders so far |
| MockDataStore.ListedSummarise | src/lib/mockDataStore.ts:123 | every profile read out of the map, in any order, summarises its customer |
| MockDataStore.ListedCoversCustomers | src/lib/mockDataStore.ts:123 | every customer seen has a profile among those read out of the map |
| MockDataStore.ListedOnlyCustomers | src/lib/mockDataStore.ts:123 | every profile read out of the map belongs to a customer seen |
| MockDataStore.ListedDistinct | src/lib/mockDataStore.ts:123 | the profiles read out of the map have distinct ids |
| MockDataStore.MockStore.Reset | src/lib/mockDataStore.ts:127-132 | back to the seed with no orders and counters `books.length + 1` and 1, invariant restored |
| Sequences.SortDescSorted | src/lib/mockDataStore.ts:13 | the sort's result is in descending key order |
| Sequences.SortDescStable | src/lib/mockDataStore.ts:13 | the sort keeps elements with equal keys in their original order |
| Text.DecimalValueOfNatToString | src/lib/mockDataStore.ts:23 | reading back `String(n)` gives n |
| CartContext.AddedToCart | src/contexts/cart-context.tsx:39-48 | a book already present gets one more copy on each of its lines, and the lines keep their book and position; a new book is appended with quantity 1 |
| CartContext.AddKeepsWellFormed | src/contexts/cart-context.tsx:41-47 | adding keeps one line per book and every quantity at least 1 |
| CartContext.AddCount | src/contexts/cart-context.tsx:39-48 | adding raises the item count by exactly 1 |
| CartContext.AddTotal | src/contexts/cart-context.tsx:39-48 | adding raises the total by one copy's price: the price on the existing line, or the new book's |
| CartContext.RemovedFromCart | src/contexts/cart-context.tsx:56-57 | no line of the book remains, every other line does, and the order is kept |
| CartContext.RemoveAbsent | src/contexts/cart-context.tsx:57 | removing a book that is not in the cart changes nothing |
| CartContext.RemoveKeepsWellFormed | src/contexts/cart-context.tsx:57 | removing keeps one line per book and quantities at least 1 |
| CartContext.RemoveSums | src/contexts/cart-context.tsx:57 | removing a line takes its copies out of the count and its cost out of the total |
| CartContext.QuantityUpdated | src/contexts/cart-context.tsx:66-76 | a quantity below 1 is exactly a removal; otherwise only the book's lines take the new quantity |
| CartContext.UpdateKeepsWellFormed | src/contexts/cart-context.tsx:66-76 | updating keeps one line per book and quantities at least 1 |
| CartContext.UpdateCount | src/contexts/cart-context.tsx:71-75 | setting a line's quantity moves the count by the difference |
| CartContext.UpdateAbsent | src/contexts/cart-context.tsx:66-76 | updating a book that is not in the cart changes nothing |
| CartContext.CountAtLeastLines | src/contexts/cart-context.tsx:86-88 | in a well-formed cart the count is at least the number of lines, and 0 exactly when the cart is empty |
| CartContext.CartTotal | src/contexts/cart-context.tsx:82-84 | an empty cart totals 0, and a cart without negative prices or quantities never totals below 0 |
| CartContext.CartItemCount | src/contexts/cart-context.tsx:86-88 | an empty cart counts 0, and when every line has at least one copy the count is at least the number of lines |
| CartContext.Cart.AddToCart | src/contexts/cart-context.tsx:39-48 | the cart becomes the added list and stays well-formed |
| CartContext.Cart.RemoveFromCart | src/contexts/cart-context.tsx:56-64 | the cart becomes the filtered list and stays well-formed |
| CartContext.Cart.UpdateQuantity | src/contexts/cart-context.tsx:66-76 | the cart becomes the updated list and stays well-formed |
| CartContext.Cart.ClearCart | src/contexts/cart-context.tsx:78-80 | the cart is empty, with total 0 and count 0 |
| CartContext.Cart.constructor | src/contexts/cart-context.tsx:21 | the provider starts with an empty, well-formed cart |
| AdminSignup.SignupForm.Mount | src/components/admin/admin-signup-form.tsx:24-32 | the form is mounted; an absent list becomes exactly the default admin account, and a stored list is untouched |
| AdminSignup.SignupDecision | src/components/admin/admin-signup-form.tsx:35-70 | the checks run in order (not mounted, passwords differ, password under 6, username taken); sign-up happens exactly when all pass |
| AdminSignup.SignupKeepsUnique | src/components/admin/admin-signup-form.tsx:62-73 | appending an account whose username is new keeps usernames unique |
| AdminSignup.SignupForm.HandleSubmit | src/components/admin/admin-signup-form.tsx:35-77 | the outcome is the decision; on success exactly the new account is appended to the stored list (an absent list read as empty), otherwise nothing changes; unique usernames stay unique |
| AdminSignup.SignupForm.constructor | src/components/admin/admin-signup-form.tsx:22 | the form starts unmounted over whatever list is stored |
| Schemas.ZipMatchesIff | src/lib/schemas.ts:11 | the zip pattern accepts exactly 5 ASCII digits, optionally followed by `-` or one whitespace character and 4 ASCII digits |
| Schemas.ZipMatchLength | src/lib/schemas.ts:11 | every accepted zip code has 5 or 10 characters |
| Schemas.ZipCodeValidIff | src/lib/schemas.ts:11 | the zip field passes exactly when it has the pattern's shape, so the `min(5)` check never decides alone |
| Schemas.Issues | src/lib/schemas.ts:4-13 | a field is mentioned among the issues exactly when one of its checks fails, and there are no issues exactly when the record is valid |
| Schemas.FieldValid | src/lib/schemas.ts:5-12 | a field passes its checks exactly when its own issue list is empty |
| Schemas.IsValidDeliveryInfo | src/lib/schemas.ts:4-13 | a record the schema accepts has a zip code of the pattern's shape, 5 or 10 characters long |
| Schemas.AddressLine2Optional | src/lib/schemas.ts:8 | the second address line never affects validity |
| Storefront.FilteredBooks | src/app/page.tsx:36-43 | an empty query returns the books unchanged; the result is an order-preserving subsequence; a book is kept exactly when its lower-cased title or author contains the lower-cased query |
| Storefront.EmptyQueryMatchesAll | src/app/page.tsx:37 | every book matches the empty query, so the early return agrees with the filter |
| Storefront.FilteredIdempotent | src/app/page.tsx:38-42 | filtering the result again with the same query changes nothing |
| Storefront.FilteredIgnoresCase | src/app/page.tsx:40-41 | two queries that lower-case to the same string find the same books |
| Text.ContainsIff | src/app/page.tsx:40 | `includes` holds exactly when the query occurs at some position |

## Left out

- The Firebase-backed server actions, the AI suggestion flow and all React UI are not part of this model. The same goes for toasts, the `localStorage`/JSON wiring of the cart and the `mounted` flag of the cart provider.
- Prices are integer cents rather than floating point. `Number(bookData.price)` conversions are the identity on that type.
- `toLowerCase` is modelled for ASCII letters only. Other characters are left as they are.
- String lengths count Dafny characters. JavaScript counts UTF-16 code units, which differ for characters outside the Basic Multilingual Plane.
- Email syntax (`z.string().email()`) is a caller-supplied predicate `isEmail`.
- `Date.now()` is read once per operation, as the parameter `now`. The source reads it twice in `addMockBook` and `createMockOrder`, so `createdAt` and `updatedAt` may differ by a millisecond there.
- The store's books, orders and profiles are values. Aliasing of returned objects is not modelled: the source returns the stored order object from `updateMockOrderStatus`, so callers can mutate the store through it.
- MockDataStore.MergedBook: a patch field present with the value `undefined` overwrites the old value in JavaScript. In the model an absent field always keeps it.
- MockDataStore.MockStore.CustomerProfiles: does not state the order among profiles with equal latest dates, which the source leaves to the stable sort over first-seen order.
- The `!order.deliveryInfo` guard is not modelled, because every modelled order carries delivery information.
- Restoring the cart from `localStorage` is not modelled. The model's cart starts empty, so its invariant (one line per book, quantity at least 1) holds from the start. An arbitrary stored list need not satisfy it.
