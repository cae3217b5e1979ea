# Order placement and stock reservation, in Dafny

This project models the order workflow of a watch-shop backend written in
TypeScript on Express and Mongoose, and proves properties of the model.

- **Store.** The product collection is a `map` from product id to product. The
  order collection is a `map` from order id to order. Both live in one `Store`
  value (`database.dfy`).
- **Handlers.** Each handler is a pure transition that takes the store to a new
  store and a `Result`.
- **Create order** (`order_controller.dfy`). It walks the requested items in
  order, looks each product up, rejects a missing product or one short of
  stock, records a line-item snapshot, and lowers the stock. It then prices the
  order: 8% tax, and a flat shipping fee that is waived strictly above 500. It
  builds the order with status `pending` and saves it. The pre-save hook is
  meant to give it an order number, but as written the schema's `required`
  check on that number runs first (see "## Findings"). The rest of the model
  uses the evidently intended order: number first, then the check.
- **No rollback.** A rejected item does not roll back the reservations made
  for the items before it.
- **Loop and fold agree.** The item loop is written both as a recursive fold
  (`ReserveAll`) and as the loop of the source (`ReserveItemsLoop`). The two are
  proved equal.
- **Cancel order.** Only the owner's pending order can be cancelled. Each
  ordered quantity goes back to its product if the product still exists, that
  product is flagged in stock, and the order becomes `cancelled`.
- **Status update.** Two handlers exist, one in the order controller and one in
  the admin controller, and they share the same field rules. The status is
  always overwritten. The tracking number and notes are overwritten only when
  the request carries a non-empty value. No transition is checked.
- **Schemas** (`product_model.dfy`, `order_model.dfy`). These hold the value
  constraints and defaults of the product and order documents. They also hold
  the order-number generator: `"WS"`, the last six digits of the clock, and a
  zero-padded random suffix of three digits.
- **Totals** (`totals.dfy`). One function computes the totals. The order
  controller calls it with a flat fee of 25 and the seed script's helper with 15.
- **Validation** (`validation.dfy`). Each request validator
  is a pure function that returns the failing fields in rule order. This covers
  create order, status update, registration and create admin. The gate answers
  a non-empty list with 400 before the handler runs. `routes.dfy` wires each
  validator to its handler the way the route files do.
- **Paging** (`pagination.dfy`). This covers the page arithmetic of the list
  endpoints. The public product listing and both order listings clamp page and
  page size. The admin user and order listings only replace an unreadable or
  zero value with a default.
- **Products** (`product_controller.dfy`). This covers the create-product
  handler (image source, schema defaults, validation) and the admin listing's
  `inStock` filter.

Outside inputs become parameters:
- `Date.now()` and `Math.random()` are `now` and `random`;
- the fresh document id is `id`;
- the outcome of an image upload is `Upload`;
- express-validator's `isEmail` and `isMongoId` are predicates of type `string -> bool`.

Money is an exact `real`.

Points of the code worth knowing:
- **Unknown product in an order.** It is answered with 400, not with a
  not-found status (`src/controllers/orderController.ts:19-24`).
- **Products deleted since placement.** Cancellation skips them
  (`src/controllers/orderController.ts:235`).
- **`inStock == (stockCount > 0)`.** Nothing in `src/models/Product.ts` ties
  the flag to the count, and the creation defaults break it
  (`ProductModel.DefaultsBreakStockConsistency`). The model proves that order
  placement and cancellation preserve it
  (`OrderController.ReserveAllPreservesInvariants`,
  `OrderController.CancelPreservesInvariants`).

## Model

| member | source | states |
|---|---|---|
| Text.Trim | src/models/Order.ts:36-40 | trimming never lengthens a string |
| Text.TrimSlice | src/middleware/validation.ts:61-64 | the trimmed string is the slice of the input left once leading and trailing white space is cut, and it starts and ends with a visible character |
| Text.NonBlankIff | src/middleware/validation.ts:61-64 | `trim().isLength({ min: 1 })` holds exactly when trimming leaves a non-empty string |
| Text.TrimIdempotent | src/models/Order.ts:36-65 | trimming twice equals trimming once, so the schema's `trim` after the validator's `trim()` changes nothing |
| Text.DecimalString | src/models/Order.ts:146 | the clock's string is a non-empty run of digits with no leading zero |
| Text.DecimalRoundTrip | src/models/Order.ts:146 | reading back the rendered number gives the number |
| Text.DecimalStringLength | src/models/Order.ts:146 | a number renders in more than k digits exactly when it is at least 10^k |
| Text.DecimalSuffix | src/models/Order.ts:148 | the last k digits of a number denote that number modulo 10^k |
| Text.SliceLast | src/models/Order.ts:148 | `slice(-6)` keeps the last six characters, or the whole string when it is shorter |
| Text.PadStart | src/models/Order.ts:147 | `padStart(3, '0')` keeps the string as a suffix and fills only the front |
| Text.ZeroPadValue | src/models/Order.ts:147 | padding digits with zeros keeps them digits and keeps their value |
| Responses.HttpStatus | src/controllers/orderController.ts:214-229 | a missing order is the only 404; an upload or save failure is 500; every other refusal is 400 |
| ProductModel.NewProduct | src/models/Product.ts:4-88 | an absent field takes its default: in stock, count 0, rating 0, reviews 0; name, description, brand, category, movement, case material, case size, water resistance and warranty are trimmed; price and image are kept |
| ProductModel.DefaultsBreakStockConsistency | src/models/Product.ts:4-88 | a product created without stock fields is in stock with zero units, so the schema does not give `inStock == (stockCount > 0)`; data whose nine required strings survive trimming, with an image and a non-negative price, gives a valid product |
| Totals.ComputeTotals | src/controllers/orderController.ts:55-57 | the subtotal passes through; shipping is 0 strictly above 500 and the flat fee otherwise; the total is subtotal + tax + shipping |
| Totals.TotalsMeaning | src/controllers/orderController.ts:55-57 | tax is 8% of the subtotal; the total is 1.08 times the subtotal plus shipping; shipping is free exactly above 500 |
| Totals.TotalsNonNegative | src/models/Order.ts:106-125 | with a non-negative subtotal every amount the schema bounds below by 0 is non-negative |
| Totals.SeedTotalsMeaning | src/scripts/seedAll.ts:349-354 | the seed helper returns its input as the subtotal, taxes it at 8%, charges 15 up to 500, and adds the three |
| Totals.SeedThresholdIsStrict | src/scripts/seedAll.ts:352 | exactly 500 still pays 15 (total 555); 500.01 ships free |
| Totals.OrderTotalsExample | src/controllers/orderController.ts:55-57 | 600 gives tax 48, free shipping, total 648; 100 gives tax 8, shipping 25, total 133 |
| Totals.TotalDropsAtThreshold | src/controllers/orderController.ts:56 | the total for a subtotal of 500 exceeds the total for 501 |
| OrderModel.ParseStatus | src/models/Order.ts:126-130 | a recognised status string names the status it parses to |
| OrderModel.StatusRoundTrip | src/models/Order.ts:126-130 | each of the five statuses parses back from its name |
| OrderModel.ParsePayment | src/models/Order.ts:101-105 | a recognised payment string names the method it parses to |
| OrderModel.PaymentRoundTrip | src/models/Order.ts:101-105 | each of the four payment methods parses back from its name |
| OrderModel.MakeAddress | src/models/Order.ts:30-80 | the sub-document has the given kind; first and last name, street, city, state, zip code, a given country and a given phone are trimmed; country "United States" when none is given; `isDefault` false |
| OrderModel.RandomSuffix | src/models/Order.ts:147 | `floor(random * 1000)` lies in [0, 999] |
| OrderModel.RandomSuffixFloor | src/models/Order.ts:147 | the suffix is the whole part of `random * 1000`: at most that product and more than it minus one |
| OrderModel.GenerateOrderNumber | src/models/Order.ts:146-148 | an order number is "WS" followed only by digits |
| OrderModel.OrderNumberSuffix | src/models/Order.ts:147-148 | the last three characters are digits that denote the random suffix |
| OrderModel.FormattedSuffixValue | src/models/Order.ts:147-148 | for any suffix below 1000, the formatted number ends in three digits that denote it |
| OrderModel.PaddedSuffixValue | src/models/Order.ts:147 | a suffix below 1000 padded with zeros to three characters is all digits and reads back as itself |
| OrderModel.FormatOrderNumber | src/models/Order.ts:146-148 | the formatted number has at least six characters, starts with "WS" and continues with digits only |
| OrderModel.OrderNumberStamp | src/models/Order.ts:146-148 | with a clock of at least six digits the number has 11 characters, and characters 2..8 denote the clock modulo 10^6 |
| OrderModel.AssignOrderNumber | src/models/Order.ts:144-151 | the hook leaves a set number alone and otherwise sets a generated one |
| OrderModel.AssignOrderNumberIdempotent | src/models/Order.ts:145 | running the hook again, with any clock and random value, changes nothing |
| OrderModel.ApplyStatusUpdate | src/controllers/orderController.ts:176-178 | status replaced; tracking number and notes replaced only when non-empty; no other field changes |
| OrderModel.StatusUpdateMonotone | src/controllers/orderController.ts:176-178 | tracking number and notes are never cleared, applying an update twice equals once, and a valid order stays valid |
| OrderController.ReserveItem | src/controllers/orderController.ts:17-51 | unknown product: not-found; not in stock or too few units: insufficient stock naming the product; success exactly when reservable, lowering that product's count by the quantity, keeping it non-negative and the flag equal to `count > 0`, other products unchanged, and snapshotting price, name and image |
| OrderController.ReserveAll | src/controllers/orderController.ts:16-52 | the loop keeps the set of products; a rejection names an item of the request; success records one line per item |
| OrderController.LinesSnapshotProducts | src/controllers/orderController.ts:35-44 | line i snapshots product, quantity, price, name and image of item i |
| OrderController.LinesRecordRequest | src/controllers/orderController.ts:38-44 | the lines record exactly the requested (product, quantity) pairs in request order |
| OrderController.ReservedStock | src/controllers/orderController.ts:47-51 | after a successful loop every product has lost exactly the total quantity requested for it, stays non-negative with a consistent flag, and otherwise is unchanged |
| OrderController.RejectionKeepsEarlierReservations | src/controllers/orderController.ts:16-52 | when item k fails, the catalog is what reserving items 0..k-1 produced, item k is not reservable against it, and the error names why |
| OrderController.RejectedStock | src/controllers/orderController.ts:16-52 | after a failure every product has lost what the items before the failing one requested of it |
| OrderController.ReserveAllPreservesInvariants | src/controllers/orderController.ts:27-51 | a schema-valid catalog stays schema-valid and `inStock == (stockCount > 0)` is preserved, whether or not the loop completes |
| OrderController.ReserveAllAppend | src/controllers/orderController.ts:16-52 | running the loop on a + b is running it on a, then on b from the catalog a left |
| OrderController.ReserveAllFirst | src/controllers/orderController.ts:19-52 | when the first item can be reserved, the loop continues from the catalog that reservation left, with its line recorded first |
| OrderController.SubtotalNonNegative | src/controllers/orderController.ts:35-36 | the running subtotal of non-negative lines is non-negative |
| OrderController.SubtotalSnoc | src/controllers/orderController.ts:35-36 | adding a line to the running subtotal adds that line's price times quantity |
| OrderController.ReserveItemsLoop | src/controllers/orderController.ts:13-52 | the loop as written ends with the catalog, lines and failure index the fold gives, and a subtotal that is the sum of price × quantity |
| OrderController.MakeAddressValid | src/models/Order.ts:36-71 | a request address whose required fields survive trimming casts into a schema-valid sub-document |
| OrderController.BuildOrder | src/controllers/orderController.ts:55-71 | the new document belongs to the user, holds the lines, is pending, has no order number, tracking number or notes yet, casts the shipping address and any billing address (and only a given one) into sub-documents of the right kind, keeps the payment method, and prices subtotal, 8% tax, shipping of 0 over 500 and 25 otherwise, and their sum |
| OrderController.CreateOrder | src/controllers/orderController.ts:7-80 | with the order number assigned before the schema check: the catalog ends as the loop left it; a rejection stores no order and returns the loop's error; a saved order is valid, pending, belongs to the user, holds the loop's lines, carries the cast shipping and billing addresses and the payment method, has the generated order number and no tracking number or notes, and has subtotal, 8% tax, shipping and total as priced |
| OrderController.SaveCheckedBeforeHook | src/models/Order.ts:88-92 | with the schema check before the hook, a document without an order number is refused and nothing is stored; a stored document is valid and is stored as given |
| OrderController.CreateOrderAsWritten | src/controllers/orderController.ts:7-80 | as written, the catalog ends as the item loop left it whatever the save does |
| OrderController.CreateOrderAsWrittenNeverPlaces | src/controllers/orderController.ts:47-81 | as written, no order is ever stored; when every item was reserved the answer is 500 and each product keeps its stock lowered by the quantity requested |
| OrderController.UnknownProductCreatesNoOrder | src/controllers/orderController.ts:17-25 | an unknown first product leaves the store unchanged and answers 400 naming the product |
| OrderController.ShortFirstItemCreatesNoOrder | src/controllers/orderController.ts:27-33 | a first item short of stock leaves the store unchanged and answers 400 naming the product |
| OrderController.CreateOrderSucceedsIffReserved | src/controllers/orderController.ts:16-73 | for a valid catalog, positive quantities, complete addresses and a fresh number, the order is saved exactly when every item is reservable |
| OrderController.RestoreItem | src/controllers/orderController.ts:234-239 | restoring one line never adds or removes a product |
| OrderController.RestoreStock | src/controllers/orderController.ts:232-240 | the restore loop never adds or removes a product |
| OrderController.RestoreStockEffect | src/controllers/orderController.ts:233-240 | each existing product regains the total quantity the lines record for it and is flagged in stock if named; nothing else changes |
| OrderController.CancelOrder | src/controllers/orderController.ts:209-243 | someone else's or a missing order: 404 and no change; not pending: 400 and no change; success exactly for the owner's pending order, which becomes cancelled while stock is restored |
| OrderController.CancelRestoresStock | src/controllers/orderController.ts:232-240 | every existing product gains exactly the ordered quantity and is flagged in stock; unnamed products are unchanged |
| OrderController.CancelPreservesInvariants | src/controllers/orderController.ts:233-240 | cancelling a valid order keeps the catalog schema-valid and keeps `inStock == (stockCount > 0)` |
| OrderController.RestoreUndoesReserve | src/controllers/orderController.ts:233-240 | giving back what a successful loop reserved restores the catalog exactly |
| OrderController.CancelUndoesPlacement | src/controllers/orderController.ts:209-243 | placing an order and cancelling it straight away leaves the catalog as before, and the order is cancelled |
| OrderController.UpdateOrderStatus | src/controllers/orderController.ts:171-192 | unknown id: 404 and no change; otherwise the stored order is replaced by the updated one |
| Pagination.Ceil | src/controllers/productController.ts:54 | `Math.ceil` gives the least integer at or above its argument |
| Pagination.PageCountBounds | src/controllers/productController.ts:54 | the page count is the fewest pages of `limit` items that hold all items |
| Pagination.ClampPage | src/controllers/productController.ts:42 | the page is the requested one when it is at least 1, otherwise 1 |
| Pagination.ClampLimit | src/controllers/productController.ts:43 | the page size is the default when absent, the request when in range, the maximum when above, 1 when below |
| Pagination.Paginate | src/controllers/productController.ts:42-67 | page and page size are the clamped values, the total is reported unchanged, and the page count is `ceil(total / limit)` |
| Pagination.PaginateMeaning | src/controllers/productController.ts:42-67 | skip is non-negative and equals (page − 1) × limit; a next page exists exactly when items remain past this page; a previous one exactly when skip > 0 |
| Pagination.Listing | src/controllers/orderController.ts:99-101 | the public and order listings use a page size of 1 to 50, 10 by default |
| Pagination.OrDefault | src/controllers/adminController.ts:200-201 | `parseInt(x) \|\| d` keeps a non-zero value and otherwise gives the default |
| Pagination.AdminPaginate | src/controllers/adminController.ts:200-228 | page and limit default to 1 and 10 when unreadable or zero; skip = (page − 1) × limit; pages = ceil(total / limit) for every limit, a negative one included, and so also the page count for positive limits |
| Pagination.AdminAgreesWhenInRange | src/controllers/adminController.ts:244-267 | for in-range requests the admin listing computes what the clamped listing does |
| Pagination.AdminPaginationUnclamped | src/controllers/adminController.ts:200-228 | page -1 computes a skip of -20, which the query refuses; zeros fall back to the defaults; a page size of -5 reports -2 pages |
| ProductController.SaveProduct | src/controllers/productController.ts:200-201 | a product is stored exactly when the defaulted document passes the schema (every required string non-empty, the numeric bounds); otherwise nothing is stored |
| ProductController.CreateProduct | src/controllers/productController.ts:171-201 | a failed upload is 500 and a missing file and image URL is 400, both with the catalog unchanged; a created product is stored under its id, is schema-valid, and carries the uploaded URL or else the supplied image |
| ProductController.CreateProductFailures | src/controllers/productController.ts:177-197 | image required exactly when there is no file and no image URL; upload failure exactly when the upload failed; failures store nothing; 400 and 500 |
| ProductController.CreateProductStores | src/controllers/productController.ts:177-201 | a stored product is valid, carries the uploaded URL or else the supplied image, and no other product changes |
| ProductController.CreateProductKeepsCatalogValid | src/controllers/productController.ts:200-201 | product creation keeps a schema-valid catalog schema-valid |
| ProductController.InStockFilter | src/controllers/productController.ts:342 | no filter exactly when the query is absent; "in stock" exactly when the query is `true` |
| ProductController.InStockFilterSpellings | src/controllers/productController.ts:342 | "false", "TRUE" and "1" all ask for out-of-stock products |
| ProductController.AdminProductListing | src/controllers/productController.ts:344-346 | the admin product listing uses a page size of 1 to 100, 20 by default |
| ProductController.ListingCaps | src/controllers/productController.ts:344-346 | a request for 80 per page gets 50 publicly and 80 from the admin listing |
| AdminController.AdminStatusUpdate | src/controllers/adminController.ts:281-299 | unknown id: 404 and no change; otherwise status overwritten, tracking number and notes only when truthy, other orders and the catalog untouched |
| AdminController.AdminStatusHasNoTransitionCheck | src/controllers/adminController.ts:295 | a delivered order can be set back to pending |
| AdminController.AdminCancelKeepsStock | src/controllers/adminController.ts:281-313 | cancelling by status update leaves stock unchanged, while the customer's cancel raises it |
| AdminController.RoleOrDefault | src/controllers/adminController.ts:335 | a non-empty requested role is kept; an absent or empty one becomes "admin" |
| AdminController.CreateAdmin | src/controllers/adminController.ts:316-338 | an existing email is refused with nothing added; otherwise exactly that account is added under its email |
| AdminController.CreateAdminKeepsAccounts | src/controllers/adminController.ts:320-336 | existing accounts are kept, at most one is added, a refusal is 400, a repeat request is refused, and no role gives "admin" |
| Validation.HandleValidationErrors | src/middleware/validation.ts:4-15 | the request passes exactly when no rule failed; otherwise it is a 400 carrying the failed fields |
| Validation.ProductIdErrors | src/middleware/validation.ts:55-57 | an item's id error is reported exactly for each element whose id `isMongoId` rejects |
| Validation.QuantityErrors | src/middleware/validation.ts:58-60 | a quantity error is reported exactly for each element whose quantity is not an integer of at least 1 |
| Validation.Required | src/middleware/validation.ts:61-64 | the field is reported exactly when it is blank after trimming |
| Validation.ShippingErrors | src/middleware/validation.ts:61-84 | each of the six shipping fields is reported exactly when blank after trimming |
| Validation.ShippingErrorsOnly | src/middleware/validation.ts:61-84 | the shipping chains report only shipping fields |
| Validation.ValidateOrder | src/middleware/validation.ts:52-54 | the items error is reported exactly when items are missing or empty; the payment error exactly when the method is not one of the four |
| Validation.ValidateOrderItemErrors | src/middleware/validation.ts:55-60 | item i is reported for its id or its quantity exactly when that rule fails for element i |
| Validation.ValidateOrderAccepts | src/middleware/validation.ts:51-89 | the validator accepts exactly the bodies that satisfy every rule |
| Validation.ToOrderRequest | src/middleware/validation.ts:61-84 | the handler receives the items in order with integral quantities, the six required shipping fields trimmed, country, phone and billing address as sent, and the parsed payment method |
| Validation.ValidateStatusUpdate | src/middleware/validation.ts:91-104 | status reported exactly when not one of the five; tracking number exactly when present but blank; nothing else |
| Validation.TrimOption | src/middleware/validation.ts:100-102 | an optional field stays present or absent and, when present, is trimmed |
| Validation.ToStatusUpdate | src/middleware/validation.ts:91-104 | an accepted body yields the named status, a trimmed non-empty tracking number when one is given, and trimmed notes |
| Validation.PhoneMatches | src/middleware/validation.ts:33-36 | an accepted phone has 10 to 16 characters, begins with '+' or a digit 1-9, and is digits after its first character |
| Validation.PhoneDigits | src/middleware/validation.ts:35 | only a leading '+' is dropped |
| Validation.PhoneTailRun | src/middleware/validation.ts:35 | `[\d]{9,14}` counts digits: the automaton survives exactly a run of digits within the bound |
| Validation.PhoneMatchesRegex | src/middleware/validation.ts:33-36 | "optional '+', then 10 to 15 digits, the first not 0" is exactly what `^[\+]?[1-9][\d]{9,14}$` accepts |
| Validation.ValidateRegister | src/middleware/validation.ts:17-38 | each field is reported exactly when its rule fails; an empty phone counts as absent |
| Validation.RegisterAccepted | src/middleware/validation.ts:17-38 | an accepted registration has a password of at least 6 characters and a phone, if given, of 10 to 15 digits |
| Validation.ValidateCreateAdmin | src/routes/admin.ts:34-54 | each create-admin field is reported exactly when its rule fails; a role, when present, must be admin or super-admin |
| Routes.PlaceOrderRoute | src/routes/orders.ts:16 | a body the validator rejects is a 400 with the failed fields and no change; a placed order passed validation, is stored under its id, belongs to the user, is pending, and has the payment method whose name was sent |
| Routes.InvalidOrderNeverReachesHandler | src/routes/orders.ts:16 | a rejected order body is answered with 400 and the failed fields, and the store is unchanged |
| Routes.ValidatedOrderRequest | src/middleware/validation.ts:51-89 | an accepted body reaches the handler with at least one item, quantities of at least 1 and non-blank trimmed shipping fields |
| Routes.ValidatedOrderPlacedIffReserved | src/routes/orders.ts:16 | an accepted body is placed exactly when every item can be reserved |
| Routes.StatusUpdateRoute | src/routes/orders.ts:23 | the catalog never changes; a rejected body is a 400 with the failed fields and no change; a successful update passed validation, names an existing order, replaces it, and sets the status that was sent |
| Routes.StatusUpdateRouteEffect | src/routes/orders.ts:23 | an unknown status is 400 with no change, even for an unknown order; a stored tracking number is trimmed; blank notes keep the old notes; the catalog never changes |
| Routes.SanitizeAdminRequest | src/routes/admin.ts:42-49 | only the two names are trimmed |
| Routes.CreateAdminRouteAsWritten | src/routes/admin.ts:34-67 | as wired, whatever the email rule and the chains report, an account is created exactly when the email is new, with the password as sent, the defaulted role and trimmed names; otherwise 400 with nothing added |
| Routes.CreateAdminRoute | src/routes/admin.ts:34-67 | with the gate, a rejected body is a 400 with the failed fields and nothing added; a created account has an email the rule accepts and that was new, is added under it, has a password of at least 6 characters, a known role and non-blank names |
| Routes.CreateAdminAcceptsInvalidBody | src/routes/admin.ts:34-67 | a body with a three-character password and no role fails only the password rule yet creates an account with that password and the role "admin"; with the gate it is a 400 naming the password |
| Routes.CreateAdminRouteGated | src/routes/admin.ts:67 | with the gate a rejected body is 400 with no account added, an accepted body is handled as before, and a created account has a password of at least 6 characters and a known role |

## Left out

- Database access is not modelled. This covers find, save, populate, countDocuments and the aggregation pipeline, and the semantics of filters, text search, regex search and sort. A listing is modelled only by its page arithmetic over a given total.
- Concurrency is not modelled. The read-then-write stock check can race between requests; the model is sequential.
- Floating point is not modelled. Money is an exact `real`, so the IEEE-754 rounding of `subtotal * 0.08` is absent.
- `Number(page)` and `Number(limit)` are not modelled for NaN or fractional values. Query parameters arrive as already-parsed integers or None.
- `parseInt` is not modelled digit by digit. An unreadable value is None.
- A non-numeric JSON quantity is not modelled. An item's quantity is a number, and `isInt` is modelled as "integral and at least 1".
- `normalizeEmail` is not modelled, and `isEmail` and `isMongoId` are opaque predicates.
- `isLength` does not count the variation selectors U+FE0E and U+FE0F. The model counts every character, so a field whose trimmed value holds only variation selectors fails `isLength({ min: 1 })` in the source but passes the model's `NonBlank`. A character outside the Basic Multilingual Plane counts once in both.
- `trim` removes exactly the 25 code points JavaScript names as WhiteSpace and LineTerminator, the set `String.prototype.trim` removes.
- The Admin and User schemas, password hashing, login, JWT handling and the super-admin check are left out. They are not part of this model.
- Routes.CreateAdminRouteAsWritten: the ungated route never answers 500. In the source, a body with a blank first or last name or a role other than "admin" or "super-admin" reaches `admin.save()` (`src/controllers/adminController.ts:337`), and the Admin schema (its copy at `force-seed-admin.js:13-21` requires both names and limits the role to those two) refuses it, which the catch answers with 500 and no account. The model, without the schema, creates the account.
- The optional product fields `features` and `specifications` are left out; nothing requires them.
- ProductModel.Product: `stockCount` and `reviews` are integers. The schema types them as Number with only a minimum of 0 (`src/models/Product.ts:72-88`), so the source can store a fractional count such as 2.5.
- ProductModel.ProductData: the price is always present. In the source an absent price fails the schema's `required` check (`src/models/Product.ts:10-13`), and `createProduct` answers 500 from its catch (`src/controllers/productController.ts:208-215`); the model never produces that answer.
- Product update and delete, image storage and its client are left out. An upload is given as its outcome.
- The dashboard statistics are left out. They are a database aggregation.
- The register and login handlers are not part of this model. Their validators are modelled.
- `validateLogin` is left out. Its two rules are an opaque email check and a non-empty password.
- A failed save during cancellation is not modelled. The model saves every restored product and the order.
- Malformed ids are not modelled. `OrderId` and `ProductId` stand for well-formed ObjectIds. A `:id` that is not one makes `findOne`, `findById` or `findByIdAndUpdate` throw a cast error, which the handlers answer with 500 (`src/controllers/orderController.ts:144`, `:180`, `:214`; `src/controllers/adminController.ts:286`). The model answers 404 for every id it does not hold.
- A negative skip is not modelled. The admin listings compute it, and the database refuses the query, which the handler answers with 500.
- The user population (`populate('user', …)`) on responses is left out.
- OrderController.UpdateOrderStatus: the order controller's version uses `findByIdAndUpdate` with `runValidators`. Schema checks on the update are not modelled; the update cannot violate them, because the status comes from the enumeration.

## Findings

| source | as written | input that shows it | evidently intended | confidence | as-written member | corrected member |
|---|---|---|---|---|---|---|
| src/models/Order.ts:88-92 | `orderNumber` is `required`, and only the `pre('save')` hook at lines 144-151 fills it in; Mongoose runs the schema check before that hook, so `order.save()` at orderController.ts:73 is refused and the handler answers 500, after the stock saves at lines 47-51 | any order whose items can all be reserved, such as one unit of a product with five in stock: 500, no order stored, four left in stock | assign the number before the check (a `pre('validate')` hook) and store the order | not executed; rests on Mongoose's documented order of the schema check before `pre('save')` hooks | OrderController.CreateOrderAsWrittenNeverPlaces | OrderController.CreateOrderSucceedsIffReserved |
| src/routes/admin.ts:67 | the create-admin rule chains run, but no `handleValidationErrors` follows them, so their errors are never read and the handler runs on every body | email accepted, password `"abc"`, first name `"Ada"`, last name `"Byron"`, no role: the password rule fails and the account is still created, with password `"abc"` and role `"admin"` | answer 400 with the failed fields and add no account, as every other validated route does | not executed; the Admin schema in force-seed-admin.js:13-21 requires the four strings, sets no length bound on `password` and admits role `"admin"`, so its save check passes this body; `src/models/Admin.ts` is not part of this model | Routes.CreateAdminAcceptsInvalidBody | Routes.CreateAdminRouteGated |
