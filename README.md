# DigiMart backend, modelled in Dafny

This project models the core of the DigiMart e-commerce backend. The backend is an
Express application whose handlers read and write a relational store. Here the
store is one Dafny class, `Store.Db`. It has one field per table: products,
categories, carts keyed by user, cart lines, orders with their items, addresses and
payment methods. `Db.Valid()` states what the tables keep:

- unique keys and unique category slugs;
- references that resolve;
- an acyclic category tree;
- at most one default address and one default payment method per user.

Every handler is a module-level method `M(db: Db, …)` that `modifies db`. Each one
states its whole new state. It returns `Success(payload)`, an `AppError` the handler
raises itself, or a `Thrown` error. A `Thrown` error is an exception from the store
or the payment gateway, which the error middleware turns into a 500.

Modules, following the source layout:

- `OrderController`: checkout, cancellation, the status overwrite and the
  order-view rule. `Ledger` holds the stock arithmetic behind them.
- `CartController`: find-or-create, totals, add/merge, update, remove, clear.
  `CartLines` holds the line table with its folds.
- `PaymentService`: the gateway status table, the partial order update, and the
  charge request.
- `CategoryController`: listing, lookup by slug, products by category, create,
  update with the ancestor walk, and delete. `Hierarchy` holds the tree.
- `UserController`: addresses and payment methods. `Defaults` holds the
  single-default rule, which both tables share.
- `ProductController`: the listing filter, search, flag lists, details and
  the admin writes. `Catalog` and `Paging` hold the filtered scan and the page
  arithmetic.
- `Errors`: `AppError` and the error middleware.
- `Validation` and the `*Validator` modules: the request validators and the
  `validate` middleware.

## Inputs

Some things the source gets from outside are inputs of the model:

- New ids (UUIDs, autoincrement keys) are parameters with a freshness precondition.
- The payment gateway's replies are parameters (`Result<…, string>`).
- Sort orders are parameters: a sequence of ids in the order the store would scan
  them.
- `isEmail`, `isURL` and `new URL(…)` are parameters.
- `NODE_ENV` is a parameter.

## Where the code and its documentation disagree

The model follows the code in each case below.

- Checkout is not atomic. `createOrder` stores the order, takes stock and empties
  the cart before it calls the gateway. A gateway failure is reported after all of
  that, and nothing is rolled back (`OrderController.CreateOrder`).
- A missing or empty cart at checkout is a 400 "Cart is empty", not a 404.
- Nothing keeps stock from going negative at checkout.
- Adding to the cart checks stock against the added quantity only, not the merged
  total.
- A payment report that maps to `CANCELLED` (deny, cancel, expire) gives no stock
  back (`PaymentService.ApplyToOrder` keeps the products). The order is then no
  longer `PROCESSING`, so the user cannot cancel it either, and the stock its
  checkout took stays taken (`OrderController.FailedPaymentBlocksCancel`).

## Model

| member | source | states |
|---|---|---|
| OrderController.NewOrder | src/controllers/orderController.js:36-70 | the stored order is `PROCESSING`/`PENDING`, subtotal is the cart's price × quantity sum, total is subtotal plus fee, one item per cart line copying product id, name, image, price and quantity |
| OrderController.CheckoutRefusal | src/controllers/orderController.js:22-33 | 400 "Cart is empty" exactly when the cart has no lines; 400 "Invalid shipping address" exactly when there are lines and the address is missing or another user's; allowed exactly otherwise |
| OrderController.CreateOrder | src/controllers/orderController.js:8-97 | a refusal changes nothing; otherwise the order is added, every product's stock falls by what the lines ask for it (others unchanged, no lower bound), the user's cart has no lines, fee defaults to 10, and a gateway failure comes after the writes |
| OrderController.TakeStock | src/controllers/orderController.js:73-82 | the per-line decrement loop yields `Destocked(products, lines)` |
| OrderController.ReturnStock | src/controllers/orderController.js:211-216 | the per-item increment loop yields `Restocked(products, items)` |
| OrderController.CancelRefusal | src/controllers/orderController.js:188-200 | 404 exactly for a missing order, 403 exactly for another user's order, 400 "Order cannot be cancelled" exactly for the owner's order not in `PROCESSING`, allowed exactly otherwise |
| OrderController.CancelOrder | src/controllers/orderController.js:177-231 | a refusal changes nothing; otherwise the order becomes `CANCELLED` and each item's quantity goes back to its product |
| OrderController.UpdateOrderStatus | src/controllers/orderController.js:234-262 | 404 only for a missing order; otherwise the status is overwritten whatever it was and nothing else changes |
| OrderController.OrderDetails | src/controllers/orderController.js:145-174 | an order is shown exactly to its owner or an ADMIN; 404 when missing, 403 otherwise |
| OrderController.CheckoutThenCancel | src/controllers/orderController.js:73-82 | checkout followed by cancelling the new order succeeds and restores every product's stock |
| OrderController.FailedPaymentBlocksCancel | src/controllers/orderController.js:197-200 | after a failed payment report the owner's cancel is refused with 400 "Order cannot be cancelled" |
| Ledger.RestoreAfterCheckout | src/controllers/orderController.js:203-220 | restocking a checkout's item snapshot undoes the checkout's stock change exactly |
| Ledger.ItemsOf | src/controllers/orderController.js:52-60 | one order item per cart line, copying product id, name, image, price and quantity |
| Ledger.ItemsOfDemand | src/controllers/orderController.js:52-60 | the snapshot records, per product, exactly the quantity the cart lines asked for |
| Ledger.UntouchedByCheckout | src/controllers/orderController.js:73-82 | a product no cart line names keeps its whole row through checkout |
| Ledger.OnlyStockChanges | src/controllers/orderController.js:73-82 | checkout keeps the product set and every field but stock |
| Ledger.DestockStep | src/controllers/orderController.js:73-82 | one loop turn decrements exactly the line's product by the line's quantity |
| Ledger.RestockStep | src/controllers/orderController.js:211-216 | one loop turn increments exactly the item's product by the item's quantity |
| CartController.ViewLines | src/controllers/cartController.js:36-50 | one view per line, in order, with the product id and quantity of the line, the product's name, price and image, and the line total |
| CartController.EnsureCart | src/controllers/cartController.js:8-25 | the user has a cart afterwards; a new one is empty and nothing else changes |
| CartController.GetUserCart | src/controllers/cartController.js:5-60 | subtotal is the Σ price × quantity fold and itemCount the Σ quantity fold over the cart's lines; a new cart shows no lines and zero totals |
| CartController.AddRefusal | src/controllers/cartController.js:68-79 | 404 "Product not found" for a missing product, 400 "Product is out of stock" when the stock is below the added quantity; allowed exactly otherwise |
| CartController.AddItemToCart | src/controllers/cartController.js:63-148 | quantity defaults to 1; a refusal leaves the lines alone; otherwise an existing line grows by the quantity or a new one is appended, the cart's item count rises by it, the subtotal by its line total, other carts unchanged |
| CartController.AddToCart | src/controllers/cartController.js:81-141 | after the checks: the user's cart is found or created, its line for the product grows by the quantity or a new line is appended, and the count, subtotal and other carts move as `AddedLine` says |
| CartController.PutLine | src/controllers/cartController.js:95-129 | the write is `AddLine`: a merge into the product's line when there is one, else an append |
| CartController.UpdateRefusal | src/controllers/cartController.js:156-190 | quantity missing or < 1 → 400, no cart → 404 "Cart not found", no line → 404 "Item not found in cart", quantity over stock → 400 "Only n items available in stock"; allowed exactly otherwise |
| CartController.UpdateCartItem | src/controllers/cartController.js:151-220 | on success the line holds exactly the new quantity and every other line is unchanged |
| CartController.RemoveRefusal | src/controllers/cartController.js:228-248 | 404 "Cart not found" without a cart, 404 "Item not found in cart" without the line; allowed exactly when the cart holds a line for the product |
| CartController.RemoveCartItem | src/controllers/cartController.js:223-259 | deletes exactly that one line |
| CartController.ClearCart | src/controllers/cartController.js:262-283 | 404 without a cart; otherwise the cart has no lines and every other cart keeps its lines |
| CartLines.AddLineEffect | src/controllers/cartController.js:95-129 | after `AddLine` lines stay unique per (cart, product), and the cart's count and subtotal grow by the added line |
| CartLines.FindLineOnly | src/controllers/cartController.js:95-102 | with unique lines, the lookup by (cart, product) finds the only such line |
| CartLines.RemoveExactly | src/controllers/cartController.js:251-253 | removing a line takes out exactly that row |
| CartLines.WithoutCartEmpties | src/controllers/cartController.js:274-276 | after `deleteMany` by cart the cart has no lines |
| CartLines.WithoutCartKeeps | src/controllers/cartController.js:274-276 | other carts' lines are untouched by `deleteMany` |
| CartLines.SubtotalAfterUpdate | src/controllers/cartController.js:193-196 | setting a line's quantity changes the subtotal by the difference of line totals |
| CartLines.CountAfterUpdate | src/controllers/cartController.js:193-196 | setting a line's quantity changes the item count by the difference of quantities |
| PaymentService.Reconcile | src/services/paymentServices.js:66-84 | (capture, accept) and settlement → PAID/PROCESSING; cancel, deny, expire → FAILED/CANCELLED; (capture, challenge) and pending → PENDING alone; anything else maps nothing; each case an if-and-only-if |
| PaymentService.ReconcileOutcomes | src/services/paymentServices.js:114-132 | the table has exactly four outcomes; an order status only comes with a payment status |
| PaymentService.ApplyReport | src/services/paymentServices.js:87-95 | only paymentStatus changes, plus status when one is mapped; no payment status leaves the order as it was |
| PaymentService.ApplyIdempotent | src/services/paymentServices.js:87-95 | applying the same report twice equals applying it once |
| PaymentService.LaterReportWins | src/services/paymentServices.js:135-143 | a later report that maps both statuses decides the order |
| PaymentService.ChargeOf | src/services/paymentServices.js:35-40 | gross amount is the order total; one item detail per order item with its price, quantity and name |
| PaymentService.ChargeNamesProducts | src/services/paymentServices.js:35-40 | `productId.toString()` reads back as the product id |
| PaymentService.ApplyToOrder | src/services/paymentServices.js:87-95 | only the reported order changes, only when a payment status is mapped; a missing order then fails |
| PaymentService.HandlePaymentNotification | src/services/paymentServices.js:57-105 | the notification path applies `Reconcile` to the reported order |
| PaymentService.CheckPaymentStatus | src/services/paymentServices.js:108-154 | the poll path applies the same `Reconcile`, and returns the mapped payment status and the transaction status |
| CategoryController.AllCategories | src/controllers/categoryController.js:5-35 | for a scan of the whole table: every top-level category exactly once, in the order `TopLevel` gives, each with its direct children, in name order when the scan is |
| Hierarchy.TopLevel | src/controllers/categoryController.js:7-15 | keeps exactly the categories of the scan with no parent, none twice when the scan has none twice, sorted by name when the scan is |
| Hierarchy.TopLevelInScanOrder | src/controllers/categoryController.js:7-15 | the top-level categories keep the order of the scan, categories with equal names included: the result is a subsequence of the scan |
| CategoryController.CategoryBySlug | src/controllers/categoryController.js:38-76 | 404 exactly when no category has the slug, otherwise that category |
| CategoryController.ProductsByCategory | src/controllers/categoryController.js:79-155 | 404 for an unknown slug; for a known slug it fails exactly when the skip is negative, and otherwise is `Paginate` over the products of the category and its direct children |
| CategoryController.GrandchildProductsLeftOut | src/controllers/categoryController.js:105-113 | a product of a grandchild category is not listed |
| Hierarchy.CategoryIds | src/controllers/categoryController.js:105-108 | the id set is the category and its direct children |
| Hierarchy.OneLevelOnly | src/controllers/categoryController.js:105-108 | a grandchild is not in the id set |
| CategoryController.CreateRefusal | src/controllers/categoryController.js:163-180 | a used slug is 400 "Slug is already in use"; then a missing non-empty parent is 404 "Parent category not found" and an empty parent id a storage error; allowed exactly when the slug is free and the parent is absent or stored |
| CategoryController.CreateCategory | src/controllers/categoryController.js:158-201 | adds exactly the new category and keeps the tree acyclic |
| CategoryController.AncestorWalk | src/controllers/categoryController.js:245-253 | the loop terminates and reports a circle exactly when `id` is a proper ancestor of the new parent |
| CategoryController.UpdateAllowed | src/controllers/categoryController.js:209-253 | an update passes exactly when the category exists, its new slug is its own or free, and the new parent is none, or another stored category not below it |
| CategoryController.CheckUpdate | src/controllers/categoryController.js:209-253 | the checks run in source order, with the walk, and give `UpdateRefusal` |
| CategoryController.UpdateCategory | src/controllers/categoryController.js:204-276 | a refusal changes nothing; otherwise exactly that category is rewritten |
| CategoryController.UpdateKeepsCatalog | src/controllers/categoryController.js:219-253 | an update the checks let through keeps slugs unique and the tree acyclic |
| Hierarchy.Reparent | src/controllers/categoryController.js:245-253 | moving a category under a stored non-descendant keeps the tree acyclic |
| CategoryController.DeleteRefusal | src/controllers/categoryController.js:284-308 | 404 for a missing category, then 400 "Cannot delete category with subcategories", then 400 "Cannot delete category with products"; allowed exactly for a stored category with no subcategories and no products |
| CategoryController.DeleteCategory | src/controllers/categoryController.js:279-314 | removes only that category |
| Hierarchy.RemoveLeaf | src/controllers/categoryController.js:297-308 | removing a childless category keeps the tree well formed |
| Store.CategoryWithSlug | src/controllers/categoryController.js:163-168 | the lookup by slug finds the category with that slug, or reports that none has it |
| UserController.UserRecords | src/controllers/userController.js:68-84 | for a scan listing every stored id once: exactly the caller's stored records, one row per record, defaults first (also `getPaymentMethods`, lines 202-218) |
| Defaults.DistinctCount | src/controllers/userController.js:70-73 | a duplicate-free id list holding exactly a set of keys is as long as the set |
| UserController.AddAddress | src/controllers/userController.js:87-119 | the new address is stored with `isDefault` defaulting to false; when default it is the user's only default; otherwise nothing else changes; other users' records never change |
| UserController.UpdateAddress | src/controllers/userController.js:122-171 | 404/403 change nothing; otherwise absent fields keep their value, isDefault true clears the user's other defaults, absent isDefault makes the address non-default |
| UserController.DeleteAddress | src/controllers/userController.js:174-199 | removes exactly the caller's own address; 404 or 403 otherwise |
| UserController.AddPaymentMethod | src/controllers/userController.js:221-251 | the same single-default rule as `addAddress` |
| UserController.DeletePaymentMethod | src/controllers/userController.js:254-279 | removes exactly the caller's own payment method; 404 or 403 otherwise |
| Defaults.AddRecordEffect | src/controllers/userController.js:92-108 | adding keeps at most one default per user, the new default is the only one, other users untouched |
| Defaults.SetRecordEffect | src/controllers/userController.js:141-158 | rewriting keeps at most one default per user and touches only that user's records |
| Defaults.OwnerRefusal | src/controllers/userController.js:132-138 | allowed exactly for the owner; 404 for a missing record, 403 for another's |
| Defaults.ClearDefaults | src/controllers/userController.js:93-95 | only the user's other records lose their default flag; nothing else changes |
| ProductController.BuildFilter | src/controllers/productController.js:14-32 | the built filter holds exactly for the conjunction of category, price bounds, brand and a case-insensitive search in name or description |
| ProductController.AllProducts | src/controllers/productController.js:5-73 | page 1 and limit 10 by default; fails exactly for a negative skip; the rows are exactly the page at skip = (page − 1) × limit of the products matching the filter, total counts every match, pages is ⌈total / limit⌉ |
| Catalog.Paginate | src/controllers/productController.js:35-66 | skip = (page − 1) × limit, a negative skip is refused, the rows are exactly the page at that skip and take of the matches in order, total does not depend on the page |
| Paging.Page | src/controllers/productController.js:47-51 | refused exactly for a negative skip; otherwise exactly the rows after `skip` up to `take` of them, or for a negative take the `-take` rows ending `skip` rows before the end |
| Catalog.EveryMatchOnSomePage | src/controllers/productController.js:35-66 | every matching product appears on some page |
| Catalog.WhereKeepsOrder | src/controllers/productController.js:35-51 | the filtered scan keeps the store's order and lists no product twice |
| Paging.NonEmptyPages | src/controllers/productController.js:9-66 | with a positive limit, page `n` has rows exactly when 1 ≤ n ≤ pages |
| Paging.PagesIsCeiling | src/controllers/productController.js:66 | `Math.ceil(total / limit)` is the least page count whose pages hold every row |
| ProductController.SearchProducts | src/controllers/productController.js:256-310 | a missing or empty q is 400 "Search query is required"; otherwise the rows are exactly the page at skip = (page − 1) × limit of the products holding q in name, description or brand, with total, page, limit and pages = ⌈total / limit⌉ |
| ProductController.SearchFilterMeansFound | src/controllers/productController.js:268-271 | the three-way OR holds exactly for a match in name, description or brand |
| ProductController.FlagList | src/controllers/productController.js:76-219 | the newest products with the flag (deals: with an old price), the first 8 by default |
| ProductController.ProductDetails | src/controllers/productController.js:222-253 | the product, or 404 exactly when it is missing |
| ProductController.NewProduct | src/controllers/productController.js:326-341 | the given fields are copied; images default to [], flags to false, specifications to {} |
| ProductController.CreateProduct | src/controllers/productController.js:313-353 | 404 when the category is missing; otherwise exactly the new product is added |
| ProductController.UpdateRefusal | src/controllers/productController.js:364-381 | 404 "Product not found", then 404 "Category not found" for a given missing category and a storage error for an empty one; allowed exactly when the product exists and the category, if given, is stored |
| ProductController.UpdateProduct | src/controllers/productController.js:356-411 | refusals change nothing; otherwise exactly that product is rewritten and absent fields keep their value |
| ProductController.DeleteProduct | src/controllers/productController.js:414-436 | 404 for a missing product; a referenced product stays and raises a storage error; otherwise only that product is removed |
| Errors.NewAppError | src/middleware/errorHandler.js:18-25 | keeps message and code, marks the error operational, status is "fail" or "error" |
| Errors.FailExactlyForLeadingFour | src/middleware/errorHandler.js:22 | status is "fail" exactly when the code's decimal text starts with 4 |
| Errors.ClientCodesFail | src/middleware/errorHandler.js:22 | every 4xx code is "fail" |
| Errors.ServerCodesError | src/middleware/errorHandler.js:22 | every 5xx code is "error" |
| Errors.HandleError | src/middleware/errorHandler.js:3-16 | code is the error's own or 500, message defaults to "Something went wrong", success is false, stack only in development |
| Errors.AppErrorReachesClient | src/middleware/errorHandler.js:6-7 | an AppError's code and message reach the client; a thrown exception is a 500 |
| Validation.Validate | src/validators/authValidator.js:5-12 | no failed check passes on; otherwise a 400 with the first message |
| Validation.ValidateReportsFirst | src/validators/cartValidator.js:5-12 | a failed validation is a "fail" 400 with the first message |
| Validation.PhonePatternIff | src/validators/authValidator.js:31-35 | the phone regex holds exactly for an optional plus and 10 to 15 digits |
| Validation.UuidPatternIff | src/validators/productValidator.js:49-54 | the UUID regex holds exactly for the 8-4-4-4-12 hex shape |
| Validation.NumberIsIntAtLeast | src/validators/cartValidator.js:16-18 | a number passes `isInt({min})` exactly when it is at least min |
| Validation.NumberIsNonNegativeFloat | src/validators/productValidator.js:18-20 | a number passes `isFloat({min: 0})` exactly when it is not negative |
| AuthValidator.PasswordAcceptsIff | src/validators/authValidator.js:22-29 | a password passes exactly when it has 8 or more characters and a digit, a lowercase letter, an uppercase letter and a special character |
| AuthValidator.SamePasswordRule | src/validators/authValidator.js:47-54 | registration and password change accept the same passwords |
| AuthValidator.RegisterAcceptsIff | src/validators/authValidator.js:15-38 | registration passes exactly for 2–50 character names, a valid email, a strong password and an optional valid phone |
| AuthValidator.LoginErrors | src/validators/authValidator.js:41 | login passes exactly for a valid email and a non-empty password |
| AuthValidator.PasswordUpdateAcceptsIff | src/validators/authValidator.js:44-57 | a password change passes exactly for a current password and a strong new one |
| CartValidator.NumericCartItem | src/validators/cartValidator.js:15-21 | an add passes exactly for a product id ≥ 1 and a quantity, if sent, ≥ 1 |
| CartValidator.MissingProductIdReported | src/validators/cartValidator.js:16 | a missing product id is reported as required |
| CartValidator.NumericQuantityUpdate | src/validators/cartValidator.js:24 | an update passes exactly for a quantity ≥ 1 |
| CategoryValidator.CategoryAcceptsIff | src/validators/categoryValidator.js:15-38 | passes exactly for a 2–50 character name and slug of lowercase letters, digits and hyphens, with description ≤ 500, image a URL and parent a UUID when sent |
| OrderValidator.NumericShippingFee | src/validators/orderValidator.js:15-28 | an order with a UUID address and a payment method passes exactly when the fee, if sent, is not negative |
| OrderValidator.StatusAcceptsIff | src/validators/orderValidator.js:31 | a status passes exactly when it is PROCESSING, SHIPPED, COMPLETED or CANCELLED |
| PaymentValidator.PaymentIntentErrors | src/validators/paymentValidator.js:15 | passes exactly when the trimmed order id is not empty |
| PaymentValidator.BlankOrderIdRefused | src/validators/paymentValidator.js:5-15 | a blank order id is a 400 "Order ID is required" |
| ProductValidator.NumericProduct | src/validators/productValidator.js:15-74 | with numeric price, old price and stock, a product passes exactly when price ≥ 0, old price ≥ 0 if sent, and stock ≥ 0, given valid text fields |
| ProductValidator.NumericListing | src/validators/productValidator.js:16-24 | with a numeric price and old price, the listing checks pass exactly when both are not negative |
| ProductValidator.NumericInventory | src/validators/productValidator.js:47-56 | with a numeric stock, the stock-keeping checks pass exactly when the stock is not negative |
| ProductValidator.StringImagesRefused | src/validators/productValidator.js:26-46 | a string sent as images fails first with "Images must be an array" |
| UserValidator.ProfileAcceptsIff | src/validators/userValidator.js:15-27 | passes exactly when sent names have 2–50 characters and a sent phone has the phone shape |
| UserValidator.AddressAcceptsIff | src/validators/userValidator.js:30-47 | passes exactly for name 2–100, address 5–255, city 2–100, a 5–10 digit zip code, and a boolean isDefault if sent |
| UserValidator.PaymentMethodAcceptsIff | src/validators/userValidator.js:50-66 | passes exactly for one of the three types with object details and a boolean isDefault if sent |

## Left out

- The payment gateway (Midtrans) and its network calls. Its replies are inputs.
- The customer details `createPayment` sends. The users table is not part of this
  model.
- Concurrency and transactions. Every handler runs alone, so the interleavings of
  concurrent requests are not modelled.
- `parseInt`/`parseFloat` of query strings, and `NaN` from them. Page, limit and
  price arrive as integers, or they are absent.
- Prices are integer money units, not floating point.
- The `sort`/`order` query of `getAllProducts`. The order the store sorts by is an
  input sequence.
- The JSON shape of responses: included relations, `select` lists and HTTP status
  codes on success.
- The exact texts of the store's error messages. `Store.ForeignKeyViolated` and
  `Store.UniqueViolated` stand for them.
- The relation schema is not part of this model. References are assumed to refuse
  deletes of referenced rows (restrict).
- The profile handlers, authentication, uploads and logging. They are outside the
  core modelled here.
- Request values the validators see arrive as the `Json` datatype. Handlers receive
  typed values. Strings sent where a boolean is expected are not modelled in the
  handlers.
- AuthValidator.RegisterErrors, AuthValidator.PasswordUpdateErrors and
  CategoryValidator.CategoryErrors carry no contract of their own. Their meaning is
  stated by the `…AcceptsIff` lemmas and `Validation.Validate`.
- Text.ContainsInsensitive, ProductController.BuildFilter and
  ProductController.SearchFilter: case-insensitive matching lower-cases ASCII
  letters only. Letters outside ASCII that differ only in case, such as "É" and
  "é", match in the store but not in the model.
- Hierarchy.SortedByName and Hierarchy.TextLe: name order is code-point order. A
  store collation that orders names differently (case or accents) gives a scan
  that is not `SortedByName`, and then only the scan order itself is promised
  (`Hierarchy.TopLevelInScanOrder`).
- Text.Trim and Validation.TextOf: `trim()` strips ASCII whitespace only, not the
  other Unicode spaces JavaScript strips (U+00A0, U+FEFF, U+2028 and others), so a
  name made only of such spaces passes in the model and is refused by the source.
  Numbers are unbounded integers printed in full; JavaScript prints a magnitude of
  10^21 or more in exponent form, which `isInt` refuses.
- Validation.TextOf: an array value reads as the empty text, so `notEmpty` refuses
  it. How the validator library runs a check on each element of an array is not
  modelled. As a result UserValidator.PaymentMethodAcceptsIff refuses an array as
  `details`, although the custom object check alone would accept one.
